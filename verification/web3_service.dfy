/** `Web3Service`: wallet creation (mnemonic, keystore, first address,
    storage) and the ETH transfer pipeline (input guard, transaction fields,
    nonce, signing, encoding, broadcast).

    The key library, the transaction library, the keystore manager and the
    ledger are values of function type: the model fixes the order in which
    they are consulted and what is done with their answers, never the
    answers themselves. */
module Web3Service {
  import opened Wrappers
  import opened FileSystem
  import opened MetadataCodec
  import opened WalletDataSource

  // ------------------------------------------------------------ settings

  /** `KeySettings.DerivationPaths`. */
  datatype DerivationPath = Ethereum | Ropsten {
    function RawValue(): string {
      match this
      case Ethereum => "m/44'/60'/0'/0"
      case Ropsten => "m/44'/1'/0'/0"
    }
  }

  /** `forCurrentEnvironment`: the debug and the release branch both pick
      `.ethereum`. */
  function ForCurrentEnvironment(debugBuild: bool): (p: DerivationPath)
    ensures p.RawValue() == "m/44'/60'/0'/0"
  {
    if debugBuild then Ethereum else Ethereum
  }

  const DefaultBitsOfEntropy := 256

  const GasLimit: nat := 78423
  const GasPrice: nat := 20_000_000_000
  const ChainId: nat := 1

  // -------------------------------------------------------------- errors

  /** `Web3Service.Error`. */
  datatype ServiceError =
    | FailedToGenerateMnemonics
    | FailedToCreateWallet
    | FailedToGetAddress
    | FailedToGetEntropy
    | FailedToStoreWallet(cause: StoreError)
    | FailedToSendETH

  /** How a service call can end without a result: its own errors, the
      store's errors passed through unchanged, an error thrown by a library
      or the network (kept as its description), or a runtime trap, which
      stops the process instead of reaching the caller. */
  datatype CallFailure =
    | Service(error: ServiceError)
    | Store(cause: StoreError)
    | Thrown(description: string)
    | Trapped

  // ------------------------------------------------------ wallet creation

  /** `WalletComponents`: what creation hands back to the caller. */
  datatype WalletComponents = WalletComponents(address: Option<string>, mnemonics: Option<string>)

  /** BIP39 and BIP32 as the pipeline sees them. `generateMnemonics` may
      throw or return `nil`; `deriveKeystore(mnemonics, password, prefixPath)`
      is `try? BIP32Keystore(...)`, so a throw and a `nil` look the same. */
  datatype KeyLibrary = KeyLibrary(
    generateMnemonics: int -> Result<Option<string>, string>,
    deriveKeystore: (string, string, string) -> Option<Keystore>
  )

  datatype Creation = Creation(fs: Fs, result: Result<WalletComponents, CallFailure>)

  function CreateWallet(
    fs: Fs,
    lib: KeyLibrary,
    name: string,
    passphrase: string,
    derivationPath: DerivationPath := ForCurrentEnvironment(false),
    bitsOfEntropy: int := DefaultBitsOfEntropy
  ): (c: Creation)
    ensures c.result.Success? ==> c.result.value.address.Some? && c.result.value.mnemonics.Some?
    ensures c.result.Failure? && !c.result.error.Store? ==> c.fs == fs
    ensures c.result.Failure? && c.result.error.Service? ==> !c.result.error.error.FailedToStoreWallet?
  {
    match lib.generateMnemonics(bitsOfEntropy)
    case Failure(e) => Creation(fs, Failure(Thrown(e)))
    case Success(None) => Creation(fs, Failure(Service(FailedToGenerateMnemonics)))
    case Success(Some(mnemonics)) =>
      match lib.deriveKeystore(mnemonics, passphrase, derivationPath.RawValue())
      case None => Creation(fs, Failure(Service(FailedToCreateWallet)))
      case Some(keystore) =>
        if keystore.addresses == [] then Creation(fs, Failure(Service(FailedToGetAddress)))
        else
          var address := keystore.addresses[0];
          var stored := StoreWallet(fs, keystore, address, name);
          if stored.result.Failure? then Creation(stored.fs, Failure(Store(stored.result.error)))
          else Creation(stored.fs, Success(WalletComponents(Some(address), Some(mnemonics))))
  }

  /** Without arguments for them, creation asks for 256 bits of entropy and
      derives along `m/44'/60'/0'/0`. */
  lemma CreateWalletDefaults(fs: Fs, lib: KeyLibrary, name: string, passphrase: string)
    ensures CreateWallet(fs, lib, name, passphrase)
            == CreateWallet(fs, lib, name, passphrase, Ethereum, 256)
    ensures Ethereum.RawValue() == "m/44'/60'/0'/0"
  {
  }

  /** The steps fail in pipeline order, each with its own error, and
      nothing is written to storage before the failing step. */
  lemma CreateWalletFailsInOrder(
    fs: Fs, lib: KeyLibrary, name: string, passphrase: string,
    path: DerivationPath, bits: int)
    ensures var c := CreateWallet(fs, lib, name, passphrase, path, bits);
            var generated := lib.generateMnemonics(bits);
            && (generated == Success(None) ==>
                  c == Creation(fs, Failure(Service(FailedToGenerateMnemonics))))
            && (generated.Success? && generated.value.Some? ==>
                  var derived := lib.deriveKeystore(generated.value.value, passphrase, path.RawValue());
                  && (derived.None? ==> c == Creation(fs, Failure(Service(FailedToCreateWallet))))
                  && (derived.Some? && derived.value.addresses == [] ==>
                        c == Creation(fs, Failure(Service(FailedToGetAddress)))))
  {
  }

  /** The address returned is the keystore's first derived address; it names
      the keystore file and is the address recorded in the index, right
      after the entries that were there. The mnemonic is returned only when
      storing succeeded. */
  lemma CreateWalletStoresFirstAddress(
    fs: Fs, lib: KeyLibrary, name: string, passphrase: string,
    path: DerivationPath, bits: int)
    requires CreateWallet(fs, lib, name, passphrase, path, bits).result.Success?
    ensures var c := CreateWallet(fs, lib, name, passphrase, path, bits);
            var generated := lib.generateMnemonics(bits);
            && generated.Success? && generated.value.Some?
            && var mnemonics := generated.value.value;
            var derived := lib.deriveKeystore(mnemonics, passphrase, path.RawValue());
            && derived.Some? && derived.value.addresses != []
            && var address := derived.value.addresses[0];
            && c.result.value == WalletComponents(Some(address), Some(mnemonics))
            && StoreWallet(fs, derived.value, address, name).result.Success?
            && c.fs == StoreWallet(fs, derived.value, address, name).fs
  {
  }

  /** A storage error reaches the caller as it was thrown, not wrapped in
      `failedToStoreWallet`, and no components are returned. */
  lemma CreateWalletPassesStoreErrors(
    fs: Fs, lib: KeyLibrary, name: string, passphrase: string,
    path: DerivationPath, bits: int, mnemonics: string, keystore: Keystore)
    requires lib.generateMnemonics(bits) == Success(Some(mnemonics))
    requires lib.deriveKeystore(mnemonics, passphrase, path.RawValue()) == Some(keystore)
    requires keystore.addresses != []
    requires StoreWallet(fs, keystore, keystore.addresses[0], name).result.Failure?
    ensures CreateWallet(fs, lib, name, passphrase, path, bits).result
            == Failure(Store(StoreWallet(fs, keystore, keystore.addresses[0], name).result.error))
  {
  }

  /** After a successful creation the wallet list holds exactly one new
      entry, the given name with the derived address, after the old ones. */
  lemma CreateWalletListsNewWallet(
    fs: Fs, lib: KeyLibrary, name: string, passphrase: string,
    path: DerivationPath, bits: int)
    requires CreateWallet(fs, lib, name, passphrase, path, bits).result.Success?
    requires CreateWallet(fs, lib, name, passphrase, path, bits).result.value.address
             != Some("walletsMetadata")
    ensures var c := CreateWallet(fs, lib, name, passphrase, path, bits);
            RetrieveExistingWalletsMetadata(fs).result.Success?
            && RetrieveExistingWalletsMetadata(c.fs).result
               == Success(RetrieveExistingWalletsMetadata(fs).result.value
                          + [WalletMetadata(name, c.result.value.address.value)])
  {
    var mnemonics := lib.generateMnemonics(bits).value.value;
    var keystore := lib.deriveKeystore(mnemonics, passphrase, path.RawValue()).value;
    StoreWalletAppendsEntry(fs, keystore, keystore.addresses[0], name);
  }

  // ------------------------------------------------------------- sending

  /** `EthereumAddress`, compared by its text. */
  datatype EthAddress = EthAddress(address: string)

  datatype BlockTag = Pending | Latest

  /** What the send pipeline does to the outside world, in order. */
  datatype Effect =
    | Connect
    | GetTransactionCount(account: EthAddress, block: BlockTag)
    | SendRaw(raw: seq<bv8>)

  /** The fields of the `CodableTransaction` that gets signed. */
  datatype Transaction = Transaction(
    from: EthAddress,
    to: EthAddress,
    value: nat,
    gasLimit: nat,
    gasPrice: nat,
    chainId: nat,
    nonce: nat
  )

  /** `KeystoreManager.dedicated()` as seen through `try?`: the addresses it
      holds (`None` when it cannot be opened or lists none), and
      `UNSAFE_getPrivateKeyData(password:account:)` behind `try?`. */
  datatype KeystoreManager = KeystoreManager(
    addresses: Option<seq<EthAddress>>,
    privateKeyData: (string, EthAddress) -> Option<seq<bv8>>
  )

  /** The Infura mainnet endpoint: opening it, transaction counts, broadcast. */
  datatype Ledger = Ledger(
    connect: Result<(), string>,
    transactionCount: (EthAddress, BlockTag) -> Result<nat, string>,
    sendRaw: seq<bv8> -> Result<string, string>
  )

  /** `EthereumAddress(_:)`, `Double(_:)`, signing (which yields a
      signature or throws) and `encode()`. */
  datatype TxLibrary = TxLibrary(
    parseAddress: string -> Option<EthAddress>,
    parseAmount: string -> Option<real>,
    sign: (Transaction, seq<bv8>) -> Result<seq<bv8>, string>,
    encode: (Transaction, seq<bv8>) -> Option<seq<bv8>>
  )

  const WeiPerEther: real := 1_000_000_000_000_000_000.0

  /** `BigUInt(amount * pow(10, 18))`: the product rounded toward zero, or
      `None` where `BigUInt`'s floating-point initialiser traps, which is
      on a product that is still negative after rounding. */
  function ToWei(amount: real): (wei: Option<nat>)
    ensures wei.None? <==> amount * WeiPerEther <= -1.0
    ensures wei.Some? && amount >= 0.0 ==>
              wei.value as real <= amount * WeiPerEther < wei.value as real + 1.0
    ensures wei.Some? && amount < 0.0 ==> wei.value == 0
  {
    var product := amount * WeiPerEther;
    if product >= 0.0 then Some(product.Floor as nat)
    else if product > -1.0 then Some(0)
    else None
  }

  /** A run of the send pipeline: its effects in order, the transaction
      handed to signing if it got that far, and the outcome. */
  datatype SendRun = SendRun(
    effects: seq<Effect>,
    transaction: Option<Transaction>,
    result: Result<string, CallFailure>
  )

  /** Index of the first account whose text is `address`. */
  function FirstWithAddress(accounts: seq<EthAddress>, address: string): (r: Option<nat>)
    ensures r.Some? ==>
              r.value < |accounts| && accounts[r.value].address == address
              && forall j :: 0 <= j < r.value ==> accounts[j].address != address
    ensures r.None? ==> forall j :: 0 <= j < |accounts| ==> accounts[j].address != address
  {
    if accounts == [] then None
    else if accounts[0].address == address then Some(0)
    else
      match FirstWithAddress(accounts[1..], address)
      case None => None
      case Some(i) => Some(i + 1)
  }

  /** The first keystore address whose text equals `address`, or `None`. */
  function RetrieveEthereumAddressBy(manager: KeystoreManager, address: string): (r: Option<EthAddress>)
    ensures r.Some? <==>
              manager.addresses.Some?
              && exists i :: 0 <= i < |manager.addresses.value|
                             && manager.addresses.value[i].address == address
    ensures r.Some? ==> r.value.address == address && r.value in manager.addresses.value
  {
    match manager.addresses
    case None => None
    case Some(accounts) =>
      match FirstWithAddress(accounts, address)
      case None => None
      case Some(i) => Some(accounts[i])
  }

  /** The private key for `address`, unlocked with `password`. */
  function PrivateKey(manager: KeystoreManager, address: string, password: string): (r: Option<seq<bv8>>)
    ensures RetrieveEthereumAddressBy(manager, address).None? ==> r.None?
    ensures RetrieveEthereumAddressBy(manager, address).Some? ==>
              r == manager.privateKeyData(password, RetrieveEthereumAddressBy(manager, address).value)
  {
    match RetrieveEthereumAddressBy(manager, address)
    case None => None
    case Some(account) => manager.privateKeyData(password, account)
  }

  /** A key is only ever produced for an account the keystore holds under
      that address, and it is the key data of the first such account. */
  lemma PrivateKeyFound(manager: KeystoreManager, address: string, password: string)
    requires PrivateKey(manager, address, password).Some?
    ensures manager.addresses.Some?
    ensures var accounts := manager.addresses.value;
            exists i :: && 0 <= i < |accounts| && accounts[i].address == address
                        && (forall j :: 0 <= j < i ==> accounts[j].address != address)
                        && PrivateKey(manager, address, password) == manager.privateKeyData(password, accounts[i])
  {
    var accounts := manager.addresses.value;
    var i := FirstWithAddress(accounts, address).value;
    assert accounts[i].address == address;
  }

  /** The nonce: the larger of the pending-pool and the latest-block counts. */
  function SelectNonce(pending: nat, latest: nat): (n: nat)
    ensures n >= pending && n >= latest
    ensures n == pending || n == latest
  {
    if pending >= latest then pending else latest
  }

  /** The guard in front of the transfer: all four must be present. The
      address lookup adds nothing to the key lookup, and a passing guard
      means the keystore holds an account under `address` whose key the
      password unlocks. */
  predicate GuardPasses(manager: KeystoreManager, lib: TxLibrary, address: string,
                        recipient: string, password: string, amount: string): (passes: bool)
    ensures passes <==>
              lib.parseAddress(recipient).Some? && lib.parseAmount(amount).Some?
              && PrivateKey(manager, address, password).Some?
    ensures passes ==>
              manager.addresses.Some?
              && exists i :: 0 <= i < |manager.addresses.value|
                             && manager.addresses.value[i].address == address
                             && manager.privateKeyData(password, manager.addresses.value[i]).Some?
  {
    && lib.parseAddress(recipient).Some?
    && RetrieveEthereumAddressBy(manager, address).Some?
    && lib.parseAmount(amount).Some?
    && PrivateKey(manager, address, password).Some?
  }

  /** `send(address:recipient:password:amount:)`. */
  function Send(
    ledger: Ledger,
    manager: KeystoreManager,
    lib: TxLibrary,
    address: string,
    recipient: string,
    password: string,
    amount: string
  ): (run: SendRun)
    ensures |run.effects| >= 1 && run.effects[0] == Connect
    ensures forall i :: 1 <= i < |run.effects| ==> !run.effects[i].Connect?
    ensures run.result == Failure(Trapped) ==> run.effects == [Connect] && run.transaction.None?
    ensures run.result.Success? ==>
              && run.transaction.Some?
              && |run.effects| == 4
              && run.effects[..3] == [Connect,
                                      GetTransactionCount(run.transaction.value.from, Pending),
                                      GetTransactionCount(run.transaction.value.from, Latest)]
              && run.effects[3].SendRaw?
  {
    if ledger.connect.Failure? then SendRun([Connect], None, Failure(Thrown(ledger.connect.error)))
    else if !GuardPasses(manager, lib, address, recipient, password, amount) then
      SendRun([Connect], None, Failure(Service(FailedToSendETH)))
    else
      match ToWei(lib.parseAmount(amount).value)
      case None => SendRun([Connect], None, Failure(Trapped))
      case Some(value) =>
        var from := RetrieveEthereumAddressBy(manager, address).value;
        var to := lib.parseAddress(recipient).value;
        var key := PrivateKey(manager, address, password).value;
        var askPending := [Connect, GetTransactionCount(from, Pending)];
        match ledger.transactionCount(from, Pending)
        case Failure(e) => SendRun(askPending, None, Failure(Thrown(e)))
        case Success(pendingNonce) =>
          var queried := askPending + [GetTransactionCount(from, Latest)];
          match ledger.transactionCount(from, Latest)
          case Failure(e) => SendRun(queried, None, Failure(Thrown(e)))
          case Success(latestNonce) =>
            var tx := Transaction(from, to, value, GasLimit, GasPrice, ChainId,
                                  SelectNonce(pendingNonce, latestNonce));
            match lib.sign(tx, key)
            case Failure(e) => SendRun(queried, Some(tx), Failure(Thrown(e)))
            case Success(signature) =>
              match lib.encode(tx, signature)
              case None => SendRun(queried, Some(tx), Failure(Service(FailedToSendETH)))
              case Some(raw) =>
                var sent := queried + [SendRaw(raw)];
                match ledger.sendRaw(raw)
                case Failure(e) => SendRun(sent, Some(tx), Failure(Thrown(e)))
                case Success(receipt) => SendRun(sent, Some(tx), Success(receipt))
  }

  predicate Queries(effects: seq<Effect>) {
    exists i :: 0 <= i < |effects| && effects[i].GetTransactionCount?
  }

  predicate Broadcasts(effects: seq<Effect>) {
    exists i :: 0 <= i < |effects| && effects[i].SendRaw?
  }

  /** Bad input is rejected with `failedToSendETH` before any nonce query
      and before any broadcast. */
  lemma SendGuardRejects(
    ledger: Ledger, manager: KeystoreManager, lib: TxLibrary,
    address: string, recipient: string, password: string, amount: string)
    requires ledger.connect.Success?
    requires || lib.parseAddress(recipient).None?
             || RetrieveEthereumAddressBy(manager, address).None?
             || lib.parseAmount(amount).None?
             || PrivateKey(manager, address, password).None?
    ensures var run := Send(ledger, manager, lib, address, recipient, password, amount);
            run.result == Failure(Service(FailedToSendETH))
            && !Queries(run.effects) && !Broadcasts(run.effects) && run.transaction.None?
  {
  }

  /** An amount that passes the guard but is at most -1 wei after scaling
      stops the process at the conversion to wei, after the endpoint was
      opened and before any nonce query. */
  lemma SendTrapsOnNegativeAmount(
    ledger: Ledger, manager: KeystoreManager, lib: TxLibrary,
    address: string, recipient: string, password: string, amount: string)
    requires ledger.connect.Success?
    requires GuardPasses(manager, lib, address, recipient, password, amount)
    ensures var run := Send(ledger, manager, lib, address, recipient, password, amount);
            (run.result == Failure(Trapped) <==> lib.parseAmount(amount).value * WeiPerEther <= -1.0)
            && (run.result == Failure(Trapped) ==> !Queries(run.effects) && !Broadcasts(run.effects))
  {
  }

  /** The transaction handed to signing carries the sender found in the
      keystore, the parsed recipient, the fixed gas limit, gas price and
      chain id, and the larger of the two transaction counts as nonce. */
  lemma SendTransactionFields(
    ledger: Ledger, manager: KeystoreManager, lib: TxLibrary,
    address: string, recipient: string, password: string, amount: string)
    requires Send(ledger, manager, lib, address, recipient, password, amount).transaction.Some?
    ensures var tx := Send(ledger, manager, lib, address, recipient, password, amount).transaction.value;
            && GuardPasses(manager, lib, address, recipient, password, amount)
            && tx.from == RetrieveEthereumAddressBy(manager, address).value
            && tx.from.address == address
            && tx.to == lib.parseAddress(recipient).value
            && ToWei(lib.parseAmount(amount).value) == Some(tx.value)
            && tx.gasLimit == 78423 && tx.gasPrice == 20_000_000_000 && tx.chainId == 1
            && var pending := ledger.transactionCount(tx.from, Pending);
            var latest := ledger.transactionCount(tx.from, Latest);
            && pending.Success? && latest.Success?
            && tx.nonce >= pending.value && tx.nonce >= latest.value
            && (tx.nonce == pending.value || tx.nonce == latest.value)
  {
  }

  /** When encoding yields nothing, `failedToSendETH` is thrown and nothing
      is broadcast; otherwise exactly the encoded bytes are broadcast, once,
      as the last effect, and the ledger's answer is the outcome. */
  lemma SendBroadcastsEncoding(
    ledger: Ledger, manager: KeystoreManager, lib: TxLibrary,
    address: string, recipient: string, password: string, amount: string)
    requires Send(ledger, manager, lib, address, recipient, password, amount).transaction.Some?
    ensures var run := Send(ledger, manager, lib, address, recipient, password, amount);
            var tx := run.transaction.value;
            var key := PrivateKey(manager, address, password).value;
            && (lib.sign(tx, key).Failure? ==>
                  run.result == Failure(Thrown(lib.sign(tx, key).error)) && !Broadcasts(run.effects))
            && (lib.sign(tx, key).Success? && lib.encode(tx, lib.sign(tx, key).value).None? ==>
                  run.result == Failure(Service(FailedToSendETH)) && !Broadcasts(run.effects))
            && (lib.sign(tx, key).Success? && lib.encode(tx, lib.sign(tx, key).value).Some? ==>
                  var raw := lib.encode(tx, lib.sign(tx, key).value).value;
                  && run.effects[|run.effects| - 1] == SendRaw(raw)
                  && (forall i :: 0 <= i < |run.effects| - 1 ==> !run.effects[i].SendRaw?)
                  && (run.result.Success? <==> ledger.sendRaw(raw).Success?)
                  && (run.result.Success? ==> run.result.value == ledger.sendRaw(raw).value))
  {
  }
}
