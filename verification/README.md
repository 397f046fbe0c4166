# Wallet, summary and window.ai core of the Firefox iOS take-home branch, in Dafny

This project models the logic of the take-home features of this Firefox for
iOS branch once their collaborators are made abstract:

- **Wallet store** (`WalletDataSource`). The device file system is a value: a
  map from path to file or directory, with an optional documents directory.
  The store keeps one keystore file per wallet, `<documents>/keystore/<address>.json`.
  It also keeps an index file, `walletsMetadata.json`, that lists every wallet's
  name and address. The index is created holding `[]` on first access and is
  rewritten in full on each append.
- **Wallet service** (`Web3Service`). Wallet creation runs mnemonic, then
  keystore, then first address, then storage. The ETH transfer runs the input
  guard, transaction fields, nonce, signing, encoding, then broadcast. BIP39,
  BIP32, signing, encoding and the Infura endpoint are function-typed fields
  of oracle values. The model fixes the order in which they are consulted and
  what is done with their answers.
- **Screen state** (`WalletViewModel`, `CreateWalletViewModel`,
  `WalletsHomeViewModel`, `SummarizeViewModel`). Each is an immutable state
  with pure transition functions.
- **Page-script bridge** (`WindowAIHelper` in `TabContentsScripts/` and the
  older one in `WindowAI/`). A message body is a JavaScript value
  (`JsValues`). Decoding maps it to a call. Handling a call yields the new
  session and the texts logged to the console. `ConsoleLog` models the
  `console.log("…");` script the helpers build. It also models a reader for
  JavaScript string literals, which shows which texts reach the console intact.
- **Page-text overview** (`HtmlContentOverview`). This is the string the
  embedded script builds from a document's elements, plus the mapping of the
  evaluation result to a `Result`.

The JSON coding of the wallet index is a concrete strict codec. Its decoder is
proved to invert its encoder (`MetadataCodec.DecodeEncode`), and every text it
accepts is the encoding of what it returns (`MetadataCodec.Decode`). The store
relies only on that round trip and on `[]` decoding to the empty list.

Two behaviours of the code worth knowing:

- `isSendETHRequestValid` has no positivity check.
  `WalletViewModel.NonPositiveAmountAccepted` states this.
- `Web3Service.Error.failedToStoreWallet` is declared but never thrown.
  Storage errors reach the caller unwrapped (`Web3Service.CreateWalletPassesStoreErrors`).

## Model

| member | source | states |
|---|---|---|
| `MetadataCodec.Encode` | firefox-ios/TakeHomeTask/Wallet/Domain/WalletDataSource.swift:78 | the index text is a bracketed list, and it is `[]` exactly for the empty list |
| `MetadataCodec.Decode` | firefox-ios/TakeHomeTask/Wallet/Domain/WalletDataSource.swift:67-70 | decoding is strict: a text that decodes is exactly the encoding of the list it decodes to |
| `MetadataCodec.DecodeEncode` | firefox-ios/TakeHomeTask/Wallet/Domain/WalletDataSource.swift:67-78 | decoding the encoding of any wallet list gives back that list, entries and order included |
| `MetadataCodec.EmptyListDecodes` | firefox-ios/TakeHomeTask/Wallet/Domain/WalletDataSource.swift:138-140 | the text a fresh index file is created with encodes, and decodes to, the empty list |
| `WalletDataSource.CreateDirectoryIfNeeded` | firefox-ios/TakeHomeTask/Wallet/Domain/WalletDataSource.swift:120-133 | succeeds exactly when the path exists or can be created; an existing path leaves the file system as it was; a failure is `failedToCreateDirectory` with nothing changed |
| `WalletDataSource.CreateFileIfNeeded` | firefox-ios/TakeHomeTask/Wallet/Domain/WalletDataSource.swift:135-145 | an existing entry is never touched; a missing writable file is created holding `[]`; otherwise `failedToCreateFile` with nothing changed |
| `WalletDataSource.DedicatedKeystoreDirPath` | firefox-ios/TakeHomeTask/Wallet/Domain/WalletDataSource.swift:88-101 | no documents directory gives `userDirectoryNotFound`; success exactly when the keystore directory exists or can be created, and the path returned is `<documents>/keystore`, which then exists |
| `WalletDataSource.WalletsMetadataFilePath` | firefox-ios/TakeHomeTask/Wallet/Domain/WalletDataSource.swift:103-118 | no documents directory gives `userDirectoryNotFound`; on success both the keystore directory and the index file exist and the path is `<documents>/keystore/walletsMetadata.json` |
| `WalletDataSource.LoadWalletMetadata` | firefox-ios/TakeHomeTask/Wallet/Domain/WalletDataSource.swift:61-73 | one cause per error (documents missing, directory not creatable, index not creatable); on success the result is what the index file's contents decode to |
| `WalletDataSource.AddWalletMetadata` | firefox-ios/TakeHomeTask/Wallet/Domain/WalletDataSource.swift:75-83 | a failed load is passed on with nothing written; on success the index holds the encoding of the loaded list with the new record appended |
| `WalletDataSource.AddKeystore` | firefox-ios/TakeHomeTask/Wallet/Domain/WalletDataSource.swift:48-56 | parameters that cannot be encoded fail first with nothing changed; success exactly when they encode and the keystore directory is usable, whatever `createFile` reports |
| `WalletDataSource.StoreWallet` | firefox-ios/TakeHomeTask/Wallet/Domain/WalletDataSource.swift:32-39 | a keystore failure is returned as is, before any index access; on success the index holds the list loaded after the keystore write with `{name, address}` appended |
| `WalletDataSource.RetrieveExistingWalletsMetadata` | firefox-ios/TakeHomeTask/Wallet/Domain/WalletDataSource.swift:41-43 | on success the list returned is the decoding of the index file it leaves behind |
| `WalletDataSource.KeystorePathIsDistinct` | firefox-ios/TakeHomeTask/Wallet/Domain/WalletDataSource.swift:111-112 | the keystore file, the index file and the keystore directory are three different paths whenever the address is not `walletsMetadata` |
| `WalletDataSource.LoadNeverOverwrites` | firefox-ios/TakeHomeTask/Wallet/Domain/WalletDataSource.swift:114-115 | loading never replaces an existing file or directory, the index included |
| `WalletDataSource.FirstAccessCreatesEmptyIndex` | firefox-ios/TakeHomeTask/Wallet/Domain/WalletDataSource.swift:137-140 | on first access the index file is created holding `[]` and the load yields no wallets |
| `WalletDataSource.LoadIdempotent` | firefox-ios/TakeHomeTask/Wallet/Domain/WalletDataSource.swift:61-73 | a second load finds what the first left and returns the same outcome with the same file system |
| `WalletDataSource.RetrieveReturnsLastWritten` | firefox-ios/TakeHomeTask/Wallet/Domain/WalletDataSource.swift:41-43 | an index holding the encoding of a list is retrieved as exactly that list, with nothing changed |
| `WalletDataSource.AppendExtendsIndex` | firefox-ios/TakeHomeTask/Wallet/Domain/WalletDataSource.swift:75-83 | after a successful append, loading gives the old list, in its order, followed by the new record |
| `WalletDataSource.AppendAcceptsAnyRecord` | firefox-ios/TakeHomeTask/Wallet/Domain/WalletDataSource.swift:76-77 | whether an append succeeds does not depend on the record, so a duplicate address is not rejected |
| `WalletDataSource.KeystoreWrittenAtAddressPath` | firefox-ios/TakeHomeTask/Wallet/Domain/WalletDataSource.swift:51 | the keystore lands at `<documents>/keystore/<fileName>.json` holding the encoded parameters |
| `WalletDataSource.KeystoreWriteFailureIgnored` | firefox-ios/TakeHomeTask/Wallet/Domain/WalletDataSource.swift:52-55 | a keystore file that cannot be written goes unreported, and the store goes on to append the index record |
| `WalletDataSource.KeystoreSurvivesIndexFailure` | firefox-ios/TakeHomeTask/Wallet/Domain/WalletDataSource.swift:37-38 | the keystore file written first is still there after the store returns, whether the index append succeeded or threw |
| `WalletDataSource.LoadUnaffectedByKeystore` | firefox-ios/TakeHomeTask/Wallet/Domain/WalletDataSource.swift:37 | writing a keystore file does not change what the index loads as |
| `WalletDataSource.StoreWalletAppendsEntry` | firefox-ios/TakeHomeTask/Wallet/Domain/WalletDataSource.swift:32-39 | a successful store leaves the retrieved list equal to the list before plus one `{name, address}` entry at the end |
| `Web3Service.ForCurrentEnvironment` | firefox-ios/TakeHomeTask/Wallet/Domain/Web3Service.swift:20-26 | both build branches derive along `m/44'/60'/0'/0` |
| `Web3Service.CreateWallet` | firefox-ios/TakeHomeTask/Wallet/Domain/Web3Service.swift:46-74 | on success both the address and the mnemonic are present; a failure other than a storage error leaves the file system unchanged; `failedToStoreWallet` is never produced |
| `Web3Service.CreateWalletDefaults` | firefox-ios/TakeHomeTask/Wallet/Domain/Web3Service.swift:49-50 | without those arguments, creation uses the `.ethereum` path `m/44'/60'/0'/0` and 256 bits of entropy |
| `Web3Service.CreateWalletFailsInOrder` | firefox-ios/TakeHomeTask/Wallet/Domain/Web3Service.swift:52-69 | a nil mnemonic, a failed derivation and a keystore without addresses each give their own error, with nothing stored |
| `Web3Service.CreateWalletStoresFirstAddress` | firefox-ios/TakeHomeTask/Wallet/Domain/Web3Service.swift:67-73 | the address returned is the keystore's first address, the same string is the storage key and index address, and the mnemonic is returned only after storing succeeded |
| `Web3Service.CreateWalletPassesStoreErrors` | firefox-ios/TakeHomeTask/Wallet/Domain/Web3Service.swift:71 | a storage error reaches the caller as thrown, not wrapped |
| `Web3Service.CreateWalletListsNewWallet` | firefox-ios/TakeHomeTask/Wallet/Domain/Web3Service.swift:71-73 | after a successful creation, the wallet list is the old one plus the new name with its derived address |
| `Web3Service.FirstWithAddress` | firefox-ios/TakeHomeTask/Wallet/Domain/Web3Service.swift:122 | the index found is that of the first account with the given text, and none is found exactly when no account has it |
| `Web3Service.RetrieveEthereumAddressBy` | firefox-ios/TakeHomeTask/Wallet/Domain/Web3Service.swift:121-123 | an address is found exactly when the keystore lists one with that text, and it is that keystore address |
| `Web3Service.PrivateKey` | firefox-ios/TakeHomeTask/Wallet/Domain/Web3Service.swift:125-135 | no key for an address the keystore does not hold; otherwise the keystore's key data for that address and password |
| `Web3Service.PrivateKeyFound` | firefox-ios/TakeHomeTask/Wallet/Domain/Web3Service.swift:125-135 | a key is produced only when the keystore lists an account under that address, and it is that first account's key data for the password |
| `Web3Service.GuardPasses` | firefox-ios/TakeHomeTask/Wallet/Domain/Web3Service.swift:83-93 | the guard passes exactly when the recipient and amount parse and a key is found; the separate address lookup is then implied, and the keystore holds an account under the address whose key the password unlocks |
| `Web3Service.ToWei` | firefox-ios/TakeHomeTask/Wallet/Domain/Web3Service.swift:95 | `BigUInt(amount * 10^18)`: a non-negative product is rounded down to whole wei; a product in (-1, 0) rounds to zero; a product of -1 or less has no value, which traps at run time |
| `Web3Service.SelectNonce` | firefox-ios/TakeHomeTask/Wallet/Domain/Web3Service.swift:104-111 | the nonce is at least both transaction counts and equals one of them |
| `Web3Service.Send` | firefox-ios/TakeHomeTask/Wallet/Domain/Web3Service.swift:76-119 | the endpoint is opened first and only once; a trap happens right after opening, with no query; a successful send performs exactly four steps: open, the pending count and the latest count of the sender, then the broadcast |
| `Web3Service.SendTrapsOnNegativeAmount` | firefox-ios/TakeHomeTask/Wallet/Domain/Web3Service.swift:83-95 | once the guard passes, the send traps exactly when the amount times 10^18 is -1 or less, and then it has neither queried nor broadcast |
| `Web3Service.SendGuardRejects` | firefox-ios/TakeHomeTask/Wallet/Domain/Web3Service.swift:83-93 | an invalid recipient, an unknown sender, an unparsable amount or a missing key gives `failedToSendETH` before any nonce query or broadcast |
| `Web3Service.SendTransactionFields` | firefox-ios/TakeHomeTask/Wallet/Domain/Web3Service.swift:95-111 | the transaction has the keystore sender, the parsed recipient, gas limit 78423, gas price 20_000_000_000, chain id 1 and the larger transaction count as nonce |
| `Web3Service.SendBroadcastsEncoding` | firefox-ios/TakeHomeTask/Wallet/Domain/Web3Service.swift:112-118 | a failed encoding gives `failedToSendETH` with no broadcast; otherwise exactly the encoded bytes are broadcast, once and last, and the ledger's answer is the outcome |
| `WalletViewModel.SendRequestProjections` | firefox-ios/TakeHomeTask/Wallet/Frontend/WalletViewModel.swift:24-40 | `isStarted` is false exactly when idle; `isSendingInProgress` is true exactly when in progress |
| `WalletViewModel.BalanceProjections` | firefox-ios/TakeHomeTask/Wallet/Frontend/WalletViewModel.swift:49-66 | `isCompleted` holds exactly for success and failed; `balance` is the success payload and empty otherwise |
| `WalletViewModel.DisplayedBalance` | firefox-ios/TakeHomeTask/Wallet/Frontend/WalletViewModel.swift:68-74 | the displayed value is empty while no balance is known and is the balance followed by ` ETH` otherwise |
| `WalletViewModel.IsSendETHRequestValid` | firefox-ios/TakeHomeTask/Wallet/Frontend/WalletViewModel.swift:83-97 | a valid request has a non-empty recipient, an amount and a balance that both parse, and an amount no larger than the balance |
| `WalletViewModel.SendRequestValidity` | firefox-ios/TakeHomeTask/Wallet/Frontend/WalletViewModel.swift:83-97 | valid exactly when the recipient is non-empty, the amount and balance both parse, and the amount does not exceed the balance |
| `WalletViewModel.NoBalanceNoSend` | firefox-ios/TakeHomeTask/Wallet/Frontend/WalletViewModel.swift:92-94 | with no balance loaded, no request is valid |
| `WalletViewModel.NonPositiveAmountAccepted` | firefox-ios/TakeHomeTask/Wallet/Frontend/WalletViewModel.swift:83-97 | any amount that is zero or negative, with a non-empty recipient and a parsed balance it does not exceed, is accepted, as there is no positivity check |
| `WalletViewModel.ValidNegativeSendTraps` | firefox-ios/TakeHomeTask/Wallet/Frontend/WalletViewModel.swift:83-97 | a request the screen accepts, whose amount is -10^-18 ETH or less, makes the service trap when the endpoint opens and the service also accepts the recipient, sender and password; the screen then never reaches `success` or `fail` |
| `WalletViewModel.IsSendETHRequestValidChecked` | firefox-ios/TakeHomeTask/Wallet/Frontend/WalletViewModel.swift:83-97 | validation with a positivity check: it implies the original validation, and the wei conversion of its amount is defined |
| `WalletViewModel.CheckedRequestNeverTraps` | firefox-ios/TakeHomeTask/Wallet/Frontend/WalletViewModel.swift:151-166 | a send whose request passes the checked validation always ends in `success` or `fail` |
| `WalletViewModel.Init` | firefox-ios/TakeHomeTask/Wallet/Frontend/WalletViewModel.swift:110-121 | the state carries the wallet's name and address; the link is `https://etherscan.io/address/` followed by the address; the balance is loading and no send is started |
| `WalletViewModel.StartSendingRequest` | firefox-ios/TakeHomeTask/Wallet/Frontend/WalletViewModel.swift:147-149 | from any state the send becomes `triggered`, and nothing else changes |
| `WalletViewModel.SendAction` | firefox-ios/TakeHomeTask/Wallet/Frontend/WalletViewModel.swift:151-166 | the request moves to `inProgress` while the service runs; there is no final state exactly when the service traps; otherwise it ends in `success` exactly when the service returns and `fail` exactly when it throws, and nothing else changes |
| `WalletViewModel.RejectedSendFails` | firefox-ios/TakeHomeTask/Wallet/Frontend/WalletViewModel.swift:151-166 | a send whose input the service rejects reaches a final state, `fail`, with no nonce query and no broadcast |
| `WalletViewModel.GetBalance` | firefox-ios/TakeHomeTask/Wallet/Frontend/WalletViewModel.swift:123-145 | an address missing from the keystore gives `failed` without a network query; otherwise the query's balance or `failed`; nothing else changes |
| `CreateWalletViewModel.DefaultState` | firefox-ios/TakeHomeTask/Wallet/Frontend/CreateWalletView.swift:29-39 | the default state is "My New Wallet", an empty password, no components and no error, so it is not generated |
| `CreateWalletViewModel.StateProjections` | firefox-ios/TakeHomeTask/Wallet/Frontend/CreateWalletView.swift:15-27 | generated exactly when address and mnemonic are both present; the accessors are the components' fields, nil without components |
| `CreateWalletViewModel.CreateWallet` | firefox-ios/TakeHomeTask/Wallet/Frontend/CreateWalletView.swift:56-66 | uses the state's name and password; success stores the components and clears the error; failure sets the error and keeps the components |
| `CreateWalletViewModel.TapActionButton` | firefox-ios/TakeHomeTask/Wallet/Frontend/CreateWalletView.swift:135-141 | the button dismisses exactly when the state is generated, and otherwise runs creation |
| `CreateWalletViewModel.CreatedThenDismiss` | firefox-ios/TakeHomeTask/Wallet/Frontend/CreateWalletView.swift:135-141 | after a successful creation, the next tap dismisses instead of creating a second wallet |
| `WalletsHomeViewModel.DefaultStateIsEmpty` | firefox-ios/TakeHomeTask/Wallet/Frontend/WalletsHomeViewModel.swift:7-10 | the home screen starts with no wallets and no error |
| `WalletsHomeViewModel.LoadData` | firefox-ios/TakeHomeTask/Wallet/Frontend/WalletsHomeViewModel.swift:26-34 | success shows exactly the retrieved list, in order, with no error; failure records the error and empties the list |
| `WalletsHomeViewModel.LoadDataIdempotent` | firefox-ios/TakeHomeTask/Wallet/Frontend/WalletsHomeViewModel.swift:26-34 | the result does not depend on the previous state, and loading again from the store left behind changes nothing |
| `WalletsHomeViewModel.LoadDataShowsStoredList` | firefox-ios/TakeHomeTask/Wallet/Frontend/WalletsHomeViewModel.swift:27-29 | a list last written to the index is shown as written |
| `SummarizeViewModel.DefaultStateShape` | firefox-ios/TakeHomeTask/Summarize/Frontend/SummarizeViewModel.swift:14-16 | download in progress at 0, not in progress, empty summary |
| `SummarizeViewModel.SetDownloadProgress` | firefox-ios/TakeHomeTask/Summarize/Frontend/SummarizeViewModel.swift:62-64 | the download state becomes in progress with the given progress; nothing else changes |
| `SummarizeViewModel.SetDownloadingDone` | firefox-ios/TakeHomeTask/Summarize/Frontend/SummarizeViewModel.swift:66-68 | the download state becomes done; nothing else changes |
| `SummarizeViewModel.SetSummaryRequested` | firefox-ios/TakeHomeTask/Summarize/Frontend/SummarizeViewModel.swift:70-73 | sets in progress and clears the summary |
| `SummarizeViewModel.SetModelResponded` | firefox-ios/TakeHomeTask/Summarize/Frontend/SummarizeViewModel.swift:75-77 | clears in progress and keeps the summary |
| `SummarizeViewModel.UpdateSummary` | firefox-ios/TakeHomeTask/Summarize/Frontend/SummarizeViewModel.swift:79-82 | appends the delta, and a nil delta leaves the state unchanged |
| `SummarizeViewModel.ApplyDeltasConcatenates` | firefox-ios/TakeHomeTask/Summarize/Frontend/SummarizeViewModel.swift:79-82 | a run of deltas leaves the old summary followed by the deltas' texts in order |
| `SummarizeViewModel.Stream` | firefox-ios/TakeHomeTask/Summarize/Frontend/SummarizeViewModel.swift:39-43 | each published state is the previous one with the next delta applied |
| `SummarizeViewModel.StreamEndsAtApplied` | firefox-ios/TakeHomeTask/Summarize/Frontend/SummarizeViewModel.swift:39-43 | the last streamed state is the starting state with every delta applied in order |
| `SummarizeViewModel.Start` | firefox-ios/TakeHomeTask/Summarize/Frontend/SummarizeViewModel.swift:32-54 | if agent creation throws, nothing is published; otherwise download done, then requested, one state per delta, then responded |
| `SummarizeViewModel.StartEndsWithJoinedSummary` | firefox-ios/TakeHomeTask/Summarize/Frontend/SummarizeViewModel.swift:44-50 | a successful start ends with download done, not in progress, and the summary equal to the concatenated deltas |
| `JsValues.StringField` | firefox-ios/TakeHomeTask/WindowAI/TabContentsScripts/WindowAIHelper.swift:35-38 | a key is read as text exactly when the body is a dictionary holding a string under that key |
| `ConsoleLog.EscapeNewlines` | firefox-ios/TakeHomeTask/WindowAI/TabContentsScripts/WindowAIHelper.swift:87 | the escaped text has no line feed, equals the input when the input has none, and is one character longer per line feed |
| `ConsoleLog.EscapeNewlinesAppend` | firefox-ios/TakeHomeTask/WindowAI/TabContentsScripts/WindowAIHelper.swift:87 | escaping distributes over concatenation |
| `ConsoleLog.Script` | firefox-ios/TakeHomeTask/WindowAI/TabContentsScripts/WindowAIHelper.swift:88 | the script is `console.log("` followed by the escaped text and `");` |
| `ConsoleLog.ScriptLogsPlainText` | firefox-ios/TakeHomeTask/WindowAI/TabContentsScripts/WindowAIHelper.swift:86-88 | a text without quotes, backslashes or carriage returns is logged exactly, line feeds included |
| `ConsoleLog.LoggedText` | firefox-ios/TakeHomeTask/WindowAI/TabContentsScripts/WindowAIHelper.swift:86-88 | something is logged only for a script that starts with `console.log("` and ends with `);` |
| `ConsoleLog.ReadEscapedPlain` | firefox-ios/TakeHomeTask/WindowAI/TabContentsScripts/WindowAIHelper.swift:87 | a plain text, escaped as written, reads back as itself in front of whatever follows it in the literal |
| `ConsoleLog.ScriptBreaksOnQuote` | firefox-ios/TakeHomeTask/WindowAI/TabContentsScripts/WindowAIHelper.swift:87-88 | when a double quote comes before any backslash or carriage return, the literal closes at the quote, so the text is not logged as itself: the script is not a single-literal `console.log` call, and the page gets a syntax error or runs the rest of the text as code |
| `ConsoleLog.ScriptMisreadsBackslash` | firefox-ios/TakeHomeTask/WindowAI/TabContentsScripts/WindowAIHelper.swift:87-88 | a backslash followed by `n` between plain texts is logged as a line feed, so the logged text differs from the text |
| `ConsoleLog.EscapeForLiteral` | firefox-ios/TakeHomeTask/WindowAI/TabContentsScripts/WindowAIHelper.swift:87 | the full escaping leaves no line feed and agrees with the as-written escaping on plain texts |
| `ConsoleLog.SafeScriptLogsAnyText` | firefox-ios/TakeHomeTask/WindowAI/TabContentsScripts/WindowAIHelper.swift:86-88 | with the full escaping every text is logged exactly |
| `WindowAIHelper.ScriptMessageHandlerNames` | firefox-ios/TakeHomeTask/WindowAI/TabContentsScripts/WindowAIHelper.swift:27-29 | every handler name is registered, and `aiHandler` is the only one |
| `WindowAIHelper.FunctionFromRawValue` | firefox-ios/TakeHomeTask/WindowAI/TabContentsScripts/WindowAIHelper.swift:15-18 | a raw value names a function exactly when it is `createTextSession` or `prompt`, and the function's raw value is that text |
| `WindowAIHelper.FunctionRawValueRoundTrip` | firefox-ios/TakeHomeTask/WindowAI/TabContentsScripts/WindowAIHelper.swift:15-18 | each function is recovered from its raw value |
| `WindowAIHelper.DecodeMessage` | firefox-ios/TakeHomeTask/WindowAI/TabContentsScripts/WindowAIHelper.swift:35-38 | a decoded call's function and payload are the body's `function` and `payload` strings |
| `WindowAIHelper.DecodeMessageAccepts` | firefox-ios/TakeHomeTask/WindowAI/TabContentsScripts/WindowAIHelper.swift:35-38 | a body is handled exactly when it is a dictionary with a known `function` string and a `payload` string |
| `WindowAIHelper.InjectedMessagesDecode` | firefox-ios/TakeHomeTask/WindowAI/TabContentsScripts/WindowAIAPI.swift:15-18 | what the injected script posts for `window.ai.prompt` and `window.ai.createTextSession` decodes to that call with its argument, and a non-string argument is ignored |
| `WindowAIHelper.HandleApiCall` | firefox-ios/TakeHomeTask/WindowAI/TabContentsScripts/WindowAIHelper.swift:51-81 | creation uses the payload as system prompt and logs `success`, or logs `failure. error: …` and keeps the old session; a prompt logs `thinking...` then the answer, or `null` without a session |
| `WindowAIHelper.Receive` | firefox-ios/TakeHomeTask/WindowAI/TabContentsScripts/WindowAIHelper.swift:35-47 | an undecodable message changes nothing and logs nothing; otherwise the decoded call is handled |
| `WindowAIHelper.ConsoleShowsHandledTexts` | firefox-ios/TakeHomeTask/WindowAI/TabContentsScripts/WindowAIHelper.swift:51-88 | every plain text a call logs is shown on the console as itself, and so are the fixed lines `success`, `thinking...` and `null` |
| `WindowAIHelper.SessionThenPrompt` | firefox-ios/TakeHomeTask/WindowAI/TabContentsScripts/WindowAIHelper.swift:57-79 | through the injected script, creating a session and then prompting it answers from the session created with the first argument |
| `WindowAIHelper.PromptWithoutSession` | firefox-ios/TakeHomeTask/WindowAI/TabContentsScripts/WindowAIHelper.swift:75-79 | a prompt before any session logs `thinking...` and `null` |
| `LegacyWindowAIHelper.Stop` | firefox-ios/TakeHomeTask/WindowAI/WindowAIHelper.swift:102 | stopping keeps an agent's system prompt and marks it stopped; an empty box stays empty |
| `LegacyWindowAIHelper.MakeLLMAgent` | firefox-ios/TakeHomeTask/WindowAI/WindowAIHelper.swift:98-107 | success replaces the box's agent with a fresh one; on a throw, the previous agent stays in the box, stopped |
| `LegacyWindowAIHelper.MakeLeavesNoOldAgentRunning` | firefox-ios/TakeHomeTask/WindowAI/WindowAIHelper.swift:102-106 | after a creation attempt the only running agent is one just created |
| `LegacyWindowAIHelper.Process` | firefox-ios/TakeHomeTask/WindowAI/WindowAIHelper.swift:110-118 | no answer exactly when the box is empty; otherwise the agent's output |
| `LegacyWindowAIHelper.MadeAgentAnswers` | firefox-ios/TakeHomeTask/WindowAI/WindowAIHelper.swift:98-118 | after a successful creation, a prompt is answered by a fresh running agent with the new system prompt |
| `LegacyWindowAIHelper.FailedMakeAnswers` | firefox-ios/TakeHomeTask/WindowAI/WindowAIHelper.swift:98-118 | after a failed creation, a prompt gets no answer if the box was empty, and otherwise is answered by the old agent, now stopped |
| `LegacyWindowAIHelper.DecodeMessage` | firefox-ios/TakeHomeTask/WindowAI/WindowAIHelper.swift:35-70 | `createTextSession` needs a `systemPrompt` string, `prompt` needs a `payload` string, and any other function is ignored |
| `LegacyWindowAIHelper.Receive` | firefox-ios/TakeHomeTask/WindowAI/WindowAIHelper.swift:35-72 | creation logs `success` or `failure. error: …`; a prompt logs only the answer, or `null` without an agent; anything undecodable is ignored |
| `LegacyWindowAIHelper.PromptWithoutAgentLogsNull` | firefox-ios/TakeHomeTask/WindowAI/WindowAIHelper.swift:62 | a prompt with an empty box logs `null` |
| `LegacyWindowAIHelper.LegacyIgnoresInjectedSession` | firefox-ios/TakeHomeTask/WindowAI/WindowAIHelper.swift:40 | the injected `createTextSession` message is dropped: no session is created and nothing is logged |
| `HtmlContentOverview.TrimStart` | firefox-ios/TakeHomeTask/Summarize/WebView/Scripts/HTMLContentOverviewProvider.swift:15 | the result starts with no whitespace and is a suffix of the input preceded only by whitespace |
| `HtmlContentOverview.TrimEnd` | firefox-ios/TakeHomeTask/Summarize/WebView/Scripts/HTMLContentOverviewProvider.swift:15 | the result ends with no whitespace and is a prefix of the input followed only by whitespace |
| `HtmlContentOverview.Trim` | firefox-ios/TakeHomeTask/Summarize/WebView/Scripts/HTMLContentOverviewProvider.swift:15 | the trimmed text neither starts nor ends with JavaScript whitespace |
| `HtmlContentOverview.TrimCharacterised` | firefox-ios/TakeHomeTask/Summarize/WebView/Scripts/HTMLContentOverviewProvider.swift:15 | trimming removes exactly the surrounding whitespace of a text that starts and ends with a non-whitespace character |
| `HtmlContentOverview.TrimIdempotent` | firefox-ios/TakeHomeTask/Summarize/WebView/Scripts/HTMLContentOverviewProvider.swift:15 | trimming twice is trimming once |
| `HtmlContentOverview.ExtractText` | firefox-ios/TakeHomeTask/Summarize/WebView/Scripts/HTMLContentOverviewProvider.swift:12-18 | the text is empty exactly when there are no elements, and otherwise ends with a space |
| `HtmlContentOverview.ExtractTextAppend` | firefox-ios/TakeHomeTask/Summarize/WebView/Scripts/HTMLContentOverviewProvider.swift:12-18 | the extracted text of two element runs is the concatenation of their extracted texts, in order |
| `HtmlContentOverview.ExtractOne` | firefox-ios/TakeHomeTask/Summarize/WebView/Scripts/HTMLContentOverviewProvider.swift:14-16 | one element contributes its trimmed text followed by one space |
| `HtmlContentOverview.QuerySelectorAll` | firefox-ios/TakeHomeTask/Summarize/WebView/Scripts/HTMLContentOverviewProvider.swift:21-24 | every element found has one of the selected tags and belongs to the document |
| `HtmlContentOverview.QuerySelectorAllAppend` | firefox-ios/TakeHomeTask/Summarize/WebView/Scripts/HTMLContentOverviewProvider.swift:21-24 | selection keeps document order: selecting from two runs is the concatenation of the selections |
| `HtmlContentOverview.QuerySelectorAllComplete` | firefox-ios/TakeHomeTask/Summarize/WebView/Scripts/HTMLContentOverviewProvider.swift:21-24 | every element of the document with a selected tag is found |
| `HtmlContentOverview.QuerySelectorAllEmpty` | firefox-ios/TakeHomeTask/Summarize/WebView/Scripts/HTMLContentOverviewProvider.swift:21-24 | nothing is found exactly when no element has a selected tag |
| `HtmlContentOverview.QuerySelectorAllEvery` | firefox-ios/TakeHomeTask/Summarize/WebView/Scripts/HTMLContentOverviewProvider.swift:21-24 | when every element has a selected tag, the whole document is found |
| `HtmlContentOverview.AllTextEmpty` | firefox-ios/TakeHomeTask/Summarize/WebView/Scripts/HTMLContentOverviewProvider.swift:20-27 | the page text is empty exactly when the page has no paragraph, span, div or heading |
| `HtmlContentOverview.ParagraphsBeforeHeadings` | firefox-ios/TakeHomeTask/Summarize/WebView/Scripts/HTMLContentOverviewProvider.swift:27 | for any headings followed by any paragraphs, the text is the paragraphs' text then the headings' text, against document order |
| `HtmlContentOverview.Limit` | firefox-ios/TakeHomeTask/Summarize/WebView/Scripts/HTMLContentOverviewProvider.swift:30 | the limited text is the prefix of length min(500, length) |
| `HtmlContentOverview.Overview` | firefox-ios/TakeHomeTask/Summarize/WebView/Scripts/HTMLContentOverviewProvider.swift:33-36 | the output is `Website address: `, the URL, a blank line and `Content:`, then the limited text |
| `HtmlContentOverview.OverviewContent` | firefox-ios/TakeHomeTask/Summarize/WebView/Scripts/HTMLContentOverviewProvider.swift:30-36 | the content part is at most 500 characters, a prefix of the combined text, and all of it when that is short enough |
| `HtmlContentOverview.Invoke` | firefox-ios/TakeHomeTask/Summarize/WebView/Scripts/HTMLContentOverviewProvider.swift:47-68 | an evaluation error comes first; a string result succeeds with that string; anything else fails with domain `HTMLContentSummaryError`, code -1 and `Failed to extract content.` |
| `HtmlContentOverview.InvokeDeliversOverview` | firefox-ios/TakeHomeTask/Summarize/WebView/Scripts/HTMLContentOverviewProvider.swift:57-58 | the script's own overview string is delivered unchanged |

## Left out

- BIP39 mnemonic generation, BIP32 derivation and keystore encryption are oracle fields of `KeyLibrary` and `KeystoreManager`. So are transaction signing and encoding (`TxLibrary`).
- `KeystoreManager.dedicated()` is a thin wrapper over the library's `managerForPath`. It is left out, and so is the keystore directory it would create. Its address list and key lookup are oracle fields.
- The network is left out: `Web3.InfuraMainnetWeb3`, `getTransactionCount`, `getBalance` and `send(raw:)`. Their answers are oracle values of `Ledger`, and `getBalance` receives the formatted balance as an input.
- Floating point is left out. `Double(_:)` is an oracle partial parser to reals, so `inf` and `nan` cannot be parsed. `Utilities.formatToPrecision` is not modelled. The `%.2f` progress lines and `CGFloat` progress are not modelled either.
- Web3Service.ToWei: the product `amount * pow(10, 18)` is exact, while the source computes it in `Double` and rounds. `BigUInt` truncates toward zero and traps when the result is still negative. The model keeps the truncation and represents the trap as `Trapped`; what the app does after the trap is not modelled.
- Concurrency is left out: `async`, `Task`, `@MainActor` and `DispatchQueue`. Each mutator is one atomic step, in program order. Deltas arrive in order. Progress callbacks and the logs they produce are not modelled.
- `JSONEncoder` and `JSONDecoder` are replaced by a strict codec with a proved round trip. The store depends only on that round trip and on `[]`. The exact bytes Foundation writes are not modelled, and neither is decoding of hand-edited files.
- `JSONEncoder().encode(keystore.keystoreParams)` is an oracle answer, `Keystore.encodedParams`. When it is `None`, the encoding threw.
- `FileManager` internals are left out. A path is writable unless it is marked read-only or is a directory. Intermediate directories, attributes and atomic-write details are not modelled.
- `LLMAgents.swift` and `LLMClient.swift` (model download and inference settings) are left out. A session's answer is an oracle of its system prompt and the prompt. Conversation history is not modelled.
- All SwiftUI views and coordinators are left out. So is `BrowserViewController+WebPageSummarySource.swift`, which only wraps the overview provider's error. The only part of `CreateWalletView` modelled is the action button's decision.
- The evaluation of scripts is left out. `evaluateJavaScript` completion errors for logging, `print`, and `UIPasteboard` are not modelled.
- `WalletViewModel.Init`: `URL(string:)` returning nil for an address that is not valid in a URL is not modelled. The link is kept as its text.
- `HtmlContentOverview.Limit`: JavaScript counts UTF-16 code units. The model counts Unicode scalar values, so a page with characters outside the Basic Multilingual Plane may be cut at a different point.
- `HtmlContentOverview.QuerySelectorAll`: the document is a flat list of elements in document order, each with its full `textContent`. Tag names are lower case. Building `textContent` from a DOM tree is not modelled.
- `ConsoleLog.LoggedText` reads only the escapes `\n`, `\r`, `\t`, `\b`, `\f`, `\v`, line continuations and the escapes that stand for their own character. It returns `None` for `\x`, `\u` and digit escapes, which the model does not interpret.
- `ConsoleLog.LoggedText`: `None` means only that the script is not a single-literal `console.log("…");` call. It covers syntax errors, and also scripts whose literal closes early and whose rest runs as page code and may log something else. What such code does is not modelled.
- `WindowAIHelper.HandleApiCall`: the `WKWebView` is weak and may be gone. In that case nothing is logged. The model always logs.

## Findings

| source | as written | input that shows it | evidently intended | confidence | as-written member | corrected member |
|---|---|---|---|---|---|---|
| firefox-ios/TakeHomeTask/WindowAI/TabContentsScripts/WindowAIHelper.swift:87-88; firefox-ios/TakeHomeTask/WindowAI/WindowAIHelper.swift:77-78 | only line feeds are escaped before the text is spliced into a double-quoted JavaScript literal | the text `"` gives `console.log(""");`, which logs nothing; the text `\n` (backslash, n) is logged as a line feed | every text reaches the console unchanged, so backslash, quote, line feed and carriage return must all be escaped | not executed; high | `ConsoleLog.ScriptBreaksOnQuote` | `ConsoleLog.SafeScriptLogsAnyText` |
| firefox-ios/TakeHomeTask/WindowAI/WindowAIHelper.swift:40 | `createTextSession` reads its argument from the `systemPrompt` key | the injected script posts `{function: 'createTextSession', payload: …}` (firefox-ios/TakeHomeTask/WindowAI/TabContentsScripts/WindowAIAPI.swift:18), so no session is ever created | read the argument from `payload`, as the `TabContentsScripts` variant does | not executed; medium (this variant passes `updateCallback:` to a `WindowAILLMAgent` initializer that firefox-ios/TakeHomeTask/LLM/LLMAgents.swift:24-27 declares with `progressCallback:`, so the file may not be compiled) | `LegacyWindowAIHelper.LegacyIgnoresInjectedSession` | `WindowAIHelper.InjectedMessagesDecode` |
| firefox-ios/TakeHomeTask/Wallet/Frontend/WalletViewModel.swift:83-97 | the send button is enabled for any amount that parses and does not exceed the balance, with no positivity check; the service then computes `BigUInt(amount * pow(10, 18))` (firefox-ios/TakeHomeTask/Wallet/Domain/Web3Service.swift:95) | amount `-1`, a valid recipient address, the wallet's password and a loaded balance: the request is valid, the service's guard passes, and the conversion of -10^18 to an unsigned integer traps | only a positive amount is a valid request | not executed; medium (depends on `BigUInt`'s floating-point initializer trapping on negative values) | `WalletViewModel.ValidNegativeSendTraps` | `WalletViewModel.CheckedRequestNeverTraps` |
