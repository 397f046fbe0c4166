/** The wallet screen's state (`WalletState`, `SendETHRequest`,
    `BalanceRequestState`) and the `WalletViewModel` actions that change it. */
module WalletViewModel {
  import opened Wrappers
  import opened MetadataCodec
  import opened Web3Service

  // ------------------------------------------------------ send request

  /** `SendETHRequest.State`. */
  datatype SendState = Idle | Triggered | InProgress | Succeeded | Fail

  datatype SendETHRequest = SendETHRequest(
    recipient: string,
    amount: string,
    password: string,
    state: SendState
  ) {
    predicate IsStarted() {
      match state
      case Idle => false
      case _ => true
    }

    predicate IsSendingInProgress() {
      match state
      case InProgress => true
      case _ => false
    }
  }

  const DefaultSendRequest := SendETHRequest("", "", "", Idle)

  lemma SendRequestProjections(request: SendETHRequest)
    ensures request.IsStarted() <==> request.state != Idle
    ensures request.IsSendingInProgress() <==> request.state == InProgress
  {
  }

  // --------------------------------------------------------- balance

  /** `WalletState.BalanceRequestState`; a successful request carries the
      balance already formatted as text. */
  datatype BalanceRequestState = Loading | Loaded(text: string) | Failed {
    predicate IsCompleted() {
      match this
      case Failed => true
      case Loaded(_) => true
      case Loading => false
    }

    function Balance(): string {
      match this
      case Loaded(value) => value
      case _ => ""
    }

    /** The balance as shown: empty, or the balance followed by " ETH". */
    function Value(): (v: string)
      ensures v == "" <==> Balance() == ""
      ensures v != "" ==> |v| == |Balance()| + 4 && v[..|Balance()|] == Balance()
                          && v[|Balance()|..] == " ETH"
    {
      if Balance() == "" then "" else Balance() + " ETH"
    }
  }

  /** The displayed balance is empty exactly while no balance is known, and
      otherwise the balance text with the unit appended. */
  lemma DisplayedBalance(b: BalanceRequestState)
    ensures !b.Loaded? ==> b.Value() == ""
    ensures b.Loaded? && b.text != "" ==> b.Value() == b.text + " ETH"
    ensures b.Loaded? && b.text == "" ==> b.Value() == ""
  {
  }

  lemma BalanceProjections(b: BalanceRequestState)
    ensures b.IsCompleted() <==> b.Loaded? || b.Failed?
    ensures b.Loaded? ==> b.Balance() == b.text
    ensures !b.Loaded? ==> b.Balance() == ""
  {
  }

  // ------------------------------------------------------ wallet state

  datatype WalletState = WalletState(
    name: string,
    address: string,
    link: string,
    balanceRequestState: BalanceRequestState,
    sendETHRequest: SendETHRequest
  )

  const ExplorerPrefix := "https://etherscan.io/address/"

  /** `isSendETHRequestValid`, with `Double(_:)` as the partial parser
      `parse`. */
  predicate IsSendETHRequestValid(st: WalletState, parse: string -> Option<real>)
    ensures IsSendETHRequestValid(st, parse) ==>
              && st.sendETHRequest.recipient != ""
              && (st.balanceRequestState.Loaded? || parse("").Some?)
              && parse(st.sendETHRequest.amount).Some? && parse(st.balanceRequestState.Balance()).Some?
              && parse(st.sendETHRequest.amount).value <= parse(st.balanceRequestState.Balance()).value
  {
    if st.sendETHRequest.recipient == [] then false
    else
      match parse(st.sendETHRequest.amount)
      case None => false
      case Some(amount) =>
        match parse(st.balanceRequestState.Balance())
        case None => false
        case Some(balance) => amount <= balance
  }

  /** The request is valid exactly when the recipient is non-empty, both
      the amount and the displayed balance parse, and the amount does not
      exceed the balance. */
  lemma SendRequestValidity(st: WalletState, parse: string -> Option<real>)
    ensures IsSendETHRequestValid(st, parse) <==>
              && st.sendETHRequest.recipient != ""
              && parse(st.sendETHRequest.amount).Some?
              && parse(st.balanceRequestState.Balance()).Some?
              && parse(st.sendETHRequest.amount).value
                 <= parse(st.balanceRequestState.Balance()).value
  {
  }

  /** No balance is shown while it loads or after it failed, so the request
      is never valid then, whatever the parser makes of the empty text. */
  lemma NoBalanceNoSend(st: WalletState, parse: string -> Option<real>)
    requires !st.balanceRequestState.Loaded?
    requires parse("").None?
    ensures !IsSendETHRequestValid(st, parse)
  {
  }

  /** There is no positivity check: any zero or negative amount within the
      balance is accepted. */
  lemma NonPositiveAmountAccepted(st: WalletState, parse: string -> Option<real>, amount: real, balance: real)
    requires st.sendETHRequest.recipient != ""
    requires parse(st.sendETHRequest.amount) == Some(amount)
    requires parse(st.balanceRequestState.Balance()) == Some(balance)
    requires amount <= 0.0 && amount <= balance
    ensures IsSendETHRequestValid(st, parse)
  {
  }

  // ----------------------------------------------------------- actions

  /** `WalletViewModel.init`: the explorer link is the Etherscan address
      page, the balance starts loading and no send is started. */
  function Init(wallet: WalletMetadata): (st: WalletState)
    ensures st.name == wallet.name && st.address == wallet.address
    ensures |st.link| == |ExplorerPrefix| + |wallet.address|
    ensures st.link[..|ExplorerPrefix|] == "https://etherscan.io/address/"
    ensures st.link[|ExplorerPrefix|..] == wallet.address
    ensures !st.balanceRequestState.IsCompleted()
    ensures !st.sendETHRequest.IsStarted()
  {
    WalletState(wallet.name, wallet.address, ExplorerPrefix + wallet.address, Loading, DefaultSendRequest)
  }

  /** From any state the send request becomes `triggered`; nothing else
      changes. */
  function StartSendingRequest(st: WalletState): (r: WalletState)
    ensures r.sendETHRequest.state == Triggered
    ensures r.sendETHRequest.IsStarted() && !r.sendETHRequest.IsSendingInProgress()
    ensures r.name == st.name && r.address == st.address && r.link == st.link
    ensures r.balanceRequestState == st.balanceRequestState
    ensures r.sendETHRequest.recipient == st.sendETHRequest.recipient
    ensures r.sendETHRequest.amount == st.sendETHRequest.amount
    ensures r.sendETHRequest.password == st.sendETHRequest.password
  {
    st.(sendETHRequest := st.sendETHRequest.(state := Triggered))
  }

  /** `send()`: the state published while the service works, the final
      state (`None` when the service trapped and the process stopped), and
      the service run itself. */
  datatype SendTrace = SendTrace(during: WalletState, after: Option<WalletState>, run: SendRun)

  function SendAction(st: WalletState, ledger: Ledger, manager: KeystoreManager, lib: TxLibrary): (t: SendTrace)
    ensures t.during.sendETHRequest.IsSendingInProgress()
    ensures t.during == st.(sendETHRequest := st.sendETHRequest.(state := InProgress))
    ensures t.run == Send(ledger, manager, lib, st.address, st.sendETHRequest.recipient,
                          st.sendETHRequest.password, st.sendETHRequest.amount)
    ensures t.after.None? <==> t.run.result == Failure(Trapped)
    ensures t.after.Some? ==>
              && (t.after.value.sendETHRequest.state == Succeeded <==> t.run.result.Success?)
              && (t.after.value.sendETHRequest.state == Fail <==> t.run.result.Failure?)
              && t.after.value == st.(sendETHRequest := st.sendETHRequest.(state := t.after.value.sendETHRequest.state))
  {
    var during := st.(sendETHRequest := st.sendETHRequest.(state := InProgress));
    var run := Send(ledger, manager, lib, st.address, st.sendETHRequest.recipient,
                    st.sendETHRequest.password, st.sendETHRequest.amount);
    if run.result == Failure(Trapped) then SendTrace(during, None, run)
    else
      var outcome := if run.result.Success? then Succeeded else Fail;
      SendTrace(during, Some(during.(sendETHRequest := during.sendETHRequest.(state := outcome))), run)
  }

  /** A send whose input the service rejects ends in `fail` without any
      nonce query or broadcast. */
  lemma RejectedSendFails(st: WalletState, ledger: Ledger, manager: KeystoreManager, lib: TxLibrary)
    requires ledger.connect.Success?
    requires !GuardPasses(manager, lib, st.address, st.sendETHRequest.recipient,
                          st.sendETHRequest.password, st.sendETHRequest.amount)
    ensures var t := SendAction(st, ledger, manager, lib);
            t.after.Some? && t.after.value.sendETHRequest.state == Fail
            && !Queries(t.run.effects) && !Broadcasts(t.run.effects)
  {
  }

  /** The send button is enabled for a negative amount within the balance,
      and sending it stops the process at the conversion to wei: no final
      state is ever published. */
  lemma ValidNegativeSendTraps(st: WalletState, ledger: Ledger, manager: KeystoreManager, lib: TxLibrary)
    requires IsSendETHRequestValid(st, lib.parseAmount)
    requires lib.parseAmount(st.sendETHRequest.amount).value * WeiPerEther <= -1.0
    requires ledger.connect.Success?
    requires GuardPasses(manager, lib, st.address, st.sendETHRequest.recipient,
                         st.sendETHRequest.password, st.sendETHRequest.amount)
    ensures SendAction(st, ledger, manager, lib).after.None?
  {
    SendTrapsOnNegativeAmount(ledger, manager, lib, st.address, st.sendETHRequest.recipient,
                              st.sendETHRequest.password, st.sendETHRequest.amount);
  }

  /** The validity check with the positivity test it lacks: the amount must
      also be greater than zero. */
  predicate IsSendETHRequestValidChecked(st: WalletState, parse: string -> Option<real>)
    ensures IsSendETHRequestValidChecked(st, parse) ==>
              IsSendETHRequestValid(st, parse) && ToWei(parse(st.sendETHRequest.amount).value).Some?
  {
    IsSendETHRequestValid(st, parse) && parse(st.sendETHRequest.amount).value > 0.0
  }

  /** With the positivity test, a request the screen accepts never traps:
      the send ends in `success` or `fail`. */
  lemma CheckedRequestNeverTraps(st: WalletState, ledger: Ledger, manager: KeystoreManager, lib: TxLibrary)
    requires IsSendETHRequestValidChecked(st, lib.parseAmount)
    ensures SendAction(st, ledger, manager, lib).after.Some?
  {
  }

  /** `getBalance()`: the new state and whether the network was asked.
      `fetched` is the formatted balance the network query yields, `None`
      when it fails. */
  function GetBalance(st: WalletState, manager: KeystoreManager, fetched: Option<string>): (r: (WalletState, bool))
    ensures RetrieveEthereumAddressBy(manager, st.address).None? ==>
              r.0.balanceRequestState == Failed && !r.1
    ensures RetrieveEthereumAddressBy(manager, st.address).Some? ==>
              r.1
              && (fetched.Some? ==> r.0.balanceRequestState == Loaded(fetched.value))
              && (fetched.None? ==> r.0.balanceRequestState == Failed)
    ensures r.0 == st.(balanceRequestState := r.0.balanceRequestState)
  {
    match RetrieveEthereumAddressBy(manager, st.address)
    case None => (st.(balanceRequestState := Failed), false)
    case Some(_) =>
      match fetched
      case None => (st.(balanceRequestState := Failed), true)
      case Some(text) => (st.(balanceRequestState := Loaded(text)), true)
  }
}
