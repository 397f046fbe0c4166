/** `WalletsHomeState` and `WalletsHomeViewModel.loadData`. */
module WalletsHomeViewModel {
  import opened Wrappers
  import opened FileSystem
  import opened MetadataCodec
  import opened WalletDataSource

  datatype WalletsHomeState = WalletsHomeState(wallets: seq<WalletMetadata>, error: Option<StoreError>)

  const DefaultState := WalletsHomeState([], None)

  /** The home screen starts with no wallets and no error. */
  lemma DefaultStateIsEmpty()
    ensures DefaultState.wallets == [] && DefaultState.error.None?
  {
  }

  /** `loadData()`: the retrieved list, in its order, with the error
      cleared; or the error with an empty list. */
  function LoadData(fs: Fs, st: WalletsHomeState): (r: (Fs, WalletsHomeState))
    ensures var retrieved := RetrieveExistingWalletsMetadata(fs);
            r.0 == retrieved.fs
            && (retrieved.result.Success? ==> r.1 == WalletsHomeState(retrieved.result.value, None))
            && (retrieved.result.Failure? ==> r.1 == WalletsHomeState([], Some(retrieved.result.error)))
  {
    var retrieved := RetrieveExistingWalletsMetadata(fs);
    match retrieved.result
    case Success(wallets) => (retrieved.fs, st.(wallets := wallets, error := None))
    case Failure(e) => (retrieved.fs, st.(error := Some(e), wallets := []))
  }

  /** The outcome does not depend on the state before, and loading again
      from an unchanged store gives the same state and store. */
  lemma LoadDataIdempotent(fs: Fs, st: WalletsHomeState, st': WalletsHomeState)
    ensures LoadData(fs, st) == LoadData(fs, st')
    ensures var first := LoadData(fs, st);
            LoadData(first.0, first.1) == first
  {
    LoadIdempotent(fs);
  }

  /** A list the store last wrote is shown as written, in its order. */
  lemma LoadDataShowsStoredList(fs: Fs, st: WalletsHomeState, wallets: seq<WalletMetadata>)
    requires fs.documents.Some?
    requires KeystoreDir(fs.documents.value) in fs.entries
    requires MetadataPath(fs.documents.value) in fs.entries
    requires fs.entries[MetadataPath(fs.documents.value)] == File(Encode(wallets))
    ensures LoadData(fs, st) == (fs, WalletsHomeState(wallets, None))
  {
    RetrieveReturnsLastWritten(fs, wallets);
  }
}
