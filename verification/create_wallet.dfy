/** `CreateWalletState` and `CreateWalletViewModel.createWallet`, plus the
    one decision the create screen's button makes. */
module CreateWalletViewModel {
  import opened Wrappers
  import opened FileSystem
  import opened Web3Service

  datatype CreateWalletState = CreateWalletState(
    name: string,
    password: string,
    walletComponents: Option<WalletComponents>,
    error: Option<CallFailure>
  ) {
    predicate IsGenerated() {
      walletComponents.Some? && walletComponents.value.address.Some?
      && walletComponents.value.mnemonics.Some?
    }

    function Address(): Option<string> {
      match walletComponents
      case None => None
      case Some(components) => components.address
    }

    function Mnemonics(): Option<string> {
      match walletComponents
      case None => None
      case Some(components) => components.mnemonics
    }
  }

  const DefaultWalletName := "My New Wallet"

  /** `CreateWalletState.init()` with every argument defaulted. */
  function DefaultState(): (st: CreateWalletState)
    ensures st.name == "My New Wallet" && st.password == ""
    ensures st.walletComponents.None? && st.error.None?
    ensures !st.IsGenerated() && st.Address().None? && st.Mnemonics().None?
  {
    CreateWalletState(DefaultWalletName, "", None, None)
  }

  /** Generated means both an address and a mnemonic are present, and the
      two accessors read exactly the components, `nil` without them. */
  lemma StateProjections(st: CreateWalletState)
    ensures st.IsGenerated() <==> st.Address().Some? && st.Mnemonics().Some?
    ensures st.walletComponents.None? ==> st.Address().None? && st.Mnemonics().None?
    ensures st.walletComponents.Some? ==>
              st.Address() == st.walletComponents.value.address
              && st.Mnemonics() == st.walletComponents.value.mnemonics
  {
  }

  /** `createWallet()`: asks the service with the state's name and password;
      success stores the components and clears the error, failure records
      the error and keeps everything else. */
  function CreateWallet(fs: Fs, lib: KeyLibrary, st: CreateWalletState): (r: (Fs, CreateWalletState))
    ensures var c := Web3Service.CreateWallet(fs, lib, st.name, st.password);
            r.0 == c.fs
            && r.1.name == st.name && r.1.password == st.password
            && (c.result.Success? ==>
                  r.1.walletComponents == Some(c.result.value) && r.1.error.None?
                  && r.1.IsGenerated())
            && (c.result.Failure? ==>
                  r.1.walletComponents == st.walletComponents && r.1.error == Some(c.result.error))
  {
    var c := Web3Service.CreateWallet(fs, lib, st.name, st.password);
    match c.result
    case Success(components) => (c.fs, st.(walletComponents := Some(components), error := None))
    case Failure(e) => (c.fs, st.(error := Some(e)))
  }

  /** What a tap on the screen's main button does. */
  datatype ButtonTap = Dismiss | Created(fs: Fs, state: CreateWalletState)

  function TapActionButton(fs: Fs, lib: KeyLibrary, st: CreateWalletState): (t: ButtonTap)
    ensures st.IsGenerated() <==> t.Dismiss?
    ensures t.Created? ==> (t.fs, t.state) == CreateWallet(fs, lib, st)
  {
    if st.IsGenerated() then Dismiss
    else
      var created := CreateWallet(fs, lib, st);
      Created(created.0, created.1)
  }

  /** Once a wallet has been created, the next tap dismisses the screen
      instead of creating a second wallet. */
  lemma CreatedThenDismiss(fs: Fs, lib: KeyLibrary, st: CreateWalletState)
    requires Web3Service.CreateWallet(fs, lib, st.name, st.password).result.Success?
    ensures var t := TapActionButton(fs, lib, st);
            st.IsGenerated() || (t.Created? && TapActionButton(t.fs, lib, t.state).Dismiss?)
  {
  }
}
