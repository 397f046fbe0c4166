/** `WalletDataSource`: one keystore file per wallet plus one index file that
    lists every wallet's display name and address, both under
    `<documents>/keystore`.

    Every operation takes the file system as a value and returns the file
    system it leaves behind together with its outcome, so side effects that
    happen before an error (a directory created, an index file initialised)
    stay visible. */
module WalletDataSource {
  import opened Wrappers
  import opened FileSystem
  import opened MetadataCodec

  const KeystoreDirName := "keystore"
  const DotJson := ".json"
  const WalletsMetadataName := "walletsMetadata.json"

  /** The three errors the store raises itself, and the ones it lets through
      from Foundation (`JSONEncoder`, `Data(contentsOf:)`, `JSONDecoder`,
      `Data.write`). */
  datatype StoreError =
    | UserDirectoryNotFound
    | FailedToCreateDirectory
    | FailedToCreateFile
    | KeystoreEncodingFailed
    | ReadFailed
    | DecodingFailed
    | WriteFailed

  /** A derived keystore as the store sees it: the addresses it holds and
      the JSON of its parameters (`None` when encoding them throws). */
  datatype Keystore = Keystore(addresses: seq<string>, encodedParams: Option<string>)

  /** The file system after an operation, and the operation's outcome. */
  datatype Step<T> = Step(fs: Fs, result: Result<T, StoreError>)

  function KeystoreDir(documents: string): string {
    AppendingPathComponent(documents, KeystoreDirName)
  }

  function MetadataPath(documents: string): string {
    AppendingPathComponent(KeystoreDir(documents), WalletsMetadataName)
  }

  function KeystoreFilePath(documents: string, fileName: string): string {
    KeystoreDir(documents) + "/" + fileName + DotJson
  }

  /** The keystore directory can be used: it is there, or it can be created. */
  predicate DirectoryUsable(fs: Fs, documents: string) {
    Exists(fs, KeystoreDir(documents)) || KeystoreDir(documents) !in fs.readOnly
  }

  function CreateDirectoryIfNeeded(fs: Fs, path: string): (s: Step<()>)
    ensures s.result.Success? <==> Exists(fs, path) || path !in fs.readOnly
    ensures s.result.Failure? ==> s == Step(fs, Failure(FailedToCreateDirectory))
    ensures s.result.Success? ==> Exists(s.fs, path)
    ensures Exists(fs, path) ==> s.fs == fs
  {
    if Exists(fs, path) then Step(fs, Success(()))
    else
      match CreateDirectory(fs, path)
      case Some(fs') => Step(fs', Success(()))
      case None => Step(fs, Failure(FailedToCreateDirectory))
  }

  /** Creates the index file holding the empty list; an existing entry is
      never touched. */
  function CreateFileIfNeeded(fs: Fs, path: string): (s: Step<()>)
    ensures Exists(fs, path) ==> s == Step(fs, Success(()))
    ensures !Exists(fs, path) && Writable(fs, path) ==>
              s == Step(fs.(entries := fs.entries[path := File(EmptyList)]), Success(()))
    ensures !Exists(fs, path) && !Writable(fs, path) ==>
              s == Step(fs, Failure(FailedToCreateFile))
  {
    if Exists(fs, path) then Step(fs, Success(()))
    else
      match WriteFile(fs, path, EmptyList)
      case Some(fs') => Step(fs', Success(()))
      case None => Step(fs, Failure(FailedToCreateFile))
  }

  function DedicatedKeystoreDirPath(fs: Fs): (s: Step<string>)
    ensures fs.documents.None? ==> s == Step(fs, Failure(UserDirectoryNotFound))
    ensures s.result.Success? <==> fs.documents.Some? && DirectoryUsable(fs, fs.documents.value)
    ensures s.result.Success? ==>
              s.result.value == KeystoreDir(fs.documents.value) && Exists(s.fs, s.result.value)
  {
    match fs.documents
    case None => Step(fs, Failure(UserDirectoryNotFound))
    case Some(documents) =>
      var dir := KeystoreDir(documents);
      var made := CreateDirectoryIfNeeded(fs, dir);
      if made.result.Failure? then Step(made.fs, Failure(made.result.error))
      else Step(made.fs, Success(dir))
  }

  function WalletsMetadataFilePath(fs: Fs): (s: Step<string>)
    ensures fs.documents.None? ==> s == Step(fs, Failure(UserDirectoryNotFound))
    ensures s.result.Success? ==>
              fs.documents.Some? && s.result.value == MetadataPath(fs.documents.value)
              && Exists(s.fs, KeystoreDir(fs.documents.value)) && Exists(s.fs, s.result.value)
  {
    match fs.documents
    case None => Step(fs, Failure(UserDirectoryNotFound))
    case Some(documents) =>
      var dir := KeystoreDir(documents);
      var file := AppendingPathComponent(dir, WalletsMetadataName);
      var made := CreateDirectoryIfNeeded(fs, dir);
      if made.result.Failure? then Step(made.fs, Failure(made.result.error))
      else
        var created := CreateFileIfNeeded(made.fs, file);
        if created.result.Failure? then Step(created.fs, Failure(created.result.error))
        else Step(created.fs, Success(file))
  }

  /** Reads and decodes the whole index. Each error has one cause: no
      documents directory, a keystore directory that cannot be created, an
      index file that cannot be created, an unreadable or undecodable file. */
  function LoadWalletMetadata(fs: Fs): (s: Step<seq<WalletMetadata>>)
    ensures fs.documents.None? ==> s == Step(fs, Failure(UserDirectoryNotFound))
    ensures fs.documents.Some? && !DirectoryUsable(fs, fs.documents.value) ==>
              s == Step(fs, Failure(FailedToCreateDirectory))
    ensures fs.documents.Some? && DirectoryUsable(fs, fs.documents.value)
            && !Exists(fs, MetadataPath(fs.documents.value))
            && !Writable(fs, MetadataPath(fs.documents.value)) ==>
              s.result == Failure(FailedToCreateFile)
    ensures s.result.Success? ==>
              var path := MetadataPath(fs.documents.value);
              path in s.fs.entries && s.fs.entries[path].File?
              && Decode(s.fs.entries[path].contents) == Some(s.result.value)
  {
    var located := WalletsMetadataFilePath(fs);
    if located.result.Failure? then Step(located.fs, Failure(located.result.error))
    else
      match ReadFile(located.fs, located.result.value)
      case None => Step(located.fs, Failure(ReadFailed))
      case Some(data) =>
        match Decode(data)
        case None => Step(located.fs, Failure(DecodingFailed))
        case Some(wallets) => Step(located.fs, Success(wallets))
  }

  /** Read the whole index, append in memory, rewrite the whole file. */
  function AddWalletMetadata(fs: Fs, newUser: WalletMetadata): (s: Step<()>)
    ensures LoadWalletMetadata(fs).result.Failure? ==>
              s == Step(LoadWalletMetadata(fs).fs, Failure(LoadWalletMetadata(fs).result.error))
    ensures s.result.Success? ==>
              fs.documents.Some? && LoadWalletMetadata(fs).result.Success?
              && var path := MetadataPath(fs.documents.value);
              path in s.fs.entries
              && s.fs.entries[path] == File(Encode(LoadWalletMetadata(fs).result.value + [newUser]))
  {
    var loaded := LoadWalletMetadata(fs);
    if loaded.result.Failure? then Step(loaded.fs, Failure(loaded.result.error))
    else
      var data := Encode(loaded.result.value + [newUser]);
      var located := WalletsMetadataFilePath(loaded.fs);
      if located.result.Failure? then Step(located.fs, Failure(located.result.error))
      else
        match WriteFile(located.fs, located.result.value, data)
        case None => Step(located.fs, Failure(WriteFailed))
        case Some(fs') => Step(fs', Success(()))
  }

  /** Writes `<keystore dir>/<fileName>.json`. The keystore parameters are
      encoded before the directory is looked up, and the `Bool` that
      `createFile` returns is dropped, so a failed write still succeeds. */
  function AddKeystore(fs: Fs, keystore: Keystore, fileName: string): (s: Step<()>)
    ensures keystore.encodedParams.None? ==> s == Step(fs, Failure(KeystoreEncodingFailed))
    ensures s.result.Success? <==>
              keystore.encodedParams.Some? && fs.documents.Some?
              && DirectoryUsable(fs, fs.documents.value)
  {
    match keystore.encodedParams
    case None => Step(fs, Failure(KeystoreEncodingFailed))
    case Some(data) =>
      var dir := DedicatedKeystoreDirPath(fs);
      if dir.result.Failure? then Step(dir.fs, Failure(dir.result.error))
      else
        var filePath := dir.result.value + "/" + fileName + DotJson;
        var created := CreateFile(dir.fs, filePath, data);
        Step(created.0, Success(()))
  }

  function StoreWallet(fs: Fs, keystore: Keystore, address: string, userRepresentationName: string): (s: Step<()>)
    ensures AddKeystore(fs, keystore, address).result.Failure? ==> s == AddKeystore(fs, keystore, address)
    ensures s.result.Success? ==>
              var loaded := LoadWalletMetadata(AddKeystore(fs, keystore, address).fs);
              fs.documents.Some? && loaded.result.Success?
              && MetadataPath(fs.documents.value) in s.fs.entries
              && s.fs.entries[MetadataPath(fs.documents.value)]
                 == File(Encode(loaded.result.value + [WalletMetadata(userRepresentationName, address)]))
  {
    var added := AddKeystore(fs, keystore, address);
    if added.result.Failure? then added
    else AddWalletMetadata(added.fs, WalletMetadata(userRepresentationName, address))
  }

  function RetrieveExistingWalletsMetadata(fs: Fs): (s: Step<seq<WalletMetadata>>)
    ensures s.result.Success? ==>
              fs.documents.Some?
              && var path := MetadataPath(fs.documents.value);
              path in s.fs.entries && s.fs.entries[path].File?
              && Decode(s.fs.entries[path].contents) == Some(s.result.value)
  {
    LoadWalletMetadata(fs)
  }

  // ---------------------------------------------------------------- paths

  lemma FileNameIsNotIndexName(fileName: string)
    requires fileName != "walletsMetadata"
    ensures fileName + DotJson != WalletsMetadataName
  {
    if |fileName| == 15 {
      assert (fileName + DotJson)[..15] == fileName;
      assert WalletsMetadataName[..15] == "walletsMetadata";
    }
  }

  lemma PrefixCancels(prefix: string, a: string, b: string)
    ensures a != b ==> prefix + a != prefix + b
  {
    assert (prefix + a)[|prefix|..] == a;
    assert (prefix + b)[|prefix|..] == b;
  }

  /** A keystore file, the index file and the keystore directory are three
      different paths, unless a wallet's address is literally the index
      file's base name. */
  lemma KeystorePathIsDistinct(documents: string, fileName: string)
    requires fileName != "walletsMetadata"
    ensures KeystoreFilePath(documents, fileName) != MetadataPath(documents)
    ensures KeystoreFilePath(documents, fileName) != KeystoreDir(documents)
    ensures MetadataPath(documents) != KeystoreDir(documents)
  {
    var prefix := KeystoreDir(documents) + "/";
    assert KeystoreFilePath(documents, fileName) == prefix + (fileName + DotJson);
    assert MetadataPath(documents) == prefix + WalletsMetadataName;
    FileNameIsNotIndexName(fileName);
    PrefixCancels(prefix, fileName + DotJson, WalletsMetadataName);
  }

  // ------------------------------------------------------- the index file

  /** Loading only ever adds entries: an existing file or directory, the
      index file among them, is never overwritten. */
  lemma LoadNeverOverwrites(fs: Fs, path: string)
    requires path in fs.entries
    ensures var s := LoadWalletMetadata(fs);
            path in s.fs.entries && s.fs.entries[path] == fs.entries[path]
            && s.fs.documents == fs.documents && s.fs.readOnly == fs.readOnly
  {
  }

  /** On first access the index is created holding the empty list, and
      loading it yields no wallets. */
  lemma FirstAccessCreatesEmptyIndex(fs: Fs)
    requires fs.documents.Some?
    requires DirectoryUsable(fs, fs.documents.value)
    requires MetadataPath(fs.documents.value) !in fs.entries
    requires MetadataPath(fs.documents.value) !in fs.readOnly
    ensures var s := LoadWalletMetadata(fs);
            s.result == Success([])
            && s.fs.entries[MetadataPath(fs.documents.value)] == File(EmptyList)
  {
  }

  /** Loading twice is loading once: the second load finds what the first
      one left and changes nothing. */
  lemma LoadIdempotent(fs: Fs)
    ensures var s := LoadWalletMetadata(fs);
            LoadWalletMetadata(s.fs) == s
  {
    LocateIdempotent(fs);
  }

  /** Locating the index a second time finds what the first attempt left. */
  lemma LocateIdempotent(fs: Fs)
    ensures var l := WalletsMetadataFilePath(fs);
            WalletsMetadataFilePath(l.fs) == l
  {
    if fs.documents.Some? {
      KeystorePathIsDistinct(fs.documents.value, "");
    }
  }

  /** The list retrieved is the list last written to the index file. */
  lemma RetrieveReturnsLastWritten(fs: Fs, wallets: seq<WalletMetadata>)
    requires fs.documents.Some?
    requires KeystoreDir(fs.documents.value) in fs.entries
    requires MetadataPath(fs.documents.value) in fs.entries
    requires fs.entries[MetadataPath(fs.documents.value)] == File(Encode(wallets))
    ensures RetrieveExistingWalletsMetadata(fs) == Step(fs, Success(wallets))
  {
    DecodeEncode(wallets);
  }

  /** A successful append leaves the old list, in its order, followed by the
      new record; nothing about the record (its address included) is checked
      against what is already stored. */
  lemma AppendExtendsIndex(fs: Fs, newUser: WalletMetadata)
    requires AddWalletMetadata(fs, newUser).result.Success?
    ensures var before := LoadWalletMetadata(fs);
            var after := AddWalletMetadata(fs, newUser);
            before.result.Success?
            && LoadWalletMetadata(after.fs) == Step(after.fs, Success(before.result.value + [newUser]))
  {
    var before := LoadWalletMetadata(fs);
    var after := AddWalletMetadata(fs, newUser);
    var documents := fs.documents.value;
    KeystorePathIsDistinct(documents, "");
    assert KeystoreDir(documents) in after.fs.entries;
    DecodeEncode(before.result.value + [newUser]);
    RetrieveReturnsLastWritten(after.fs, before.result.value + [newUser]);
  }

  /** Whether an append succeeds does not depend on the record appended, so a
      duplicate address is stored like any other. */
  lemma AppendAcceptsAnyRecord(fs: Fs, m: WalletMetadata, m': WalletMetadata)
    ensures AddWalletMetadata(fs, m).result.Success? <==> AddWalletMetadata(fs, m').result.Success?
  {
  }

  // ---------------------------------------------------------- the keystore

  /** The keystore lands at `<documents>/keystore/<fileName>.json` with the
      encoded parameters as content. */
  lemma KeystoreWrittenAtAddressPath(fs: Fs, keystore: Keystore, fileName: string)
    requires fs.documents.Some? && keystore.encodedParams.Some?
    requires DirectoryUsable(fs, fs.documents.value)
    requires fileName != "walletsMetadata"
    requires Writable(fs, fs.documents.value + "/keystore/" + fileName + ".json")
    ensures var s := AddKeystore(fs, keystore, fileName);
            s.result == Success(())
            && fs.documents.value + "/keystore/" + fileName + ".json" in s.fs.entries
            && s.fs.entries[fs.documents.value + "/keystore/" + fileName + ".json"]
               == File(keystore.encodedParams.value)
  {
    var documents := fs.documents.value;
    var path := KeystoreFilePath(documents, fileName);
    assert path == documents + "/keystore/" + fileName + ".json";
    KeystorePathIsDistinct(documents, fileName);
    var dir := DedicatedKeystoreDirPath(fs);
    assert dir.result == Success(KeystoreDir(documents));
    assert Writable(dir.fs, path);
    var s := AddKeystore(fs, keystore, fileName);
    assert s.fs == CreateFile(dir.fs, path, keystore.encodedParams.value).0;
    assert s.fs.entries[path] == File(keystore.encodedParams.value);
  }

  /** A keystore write that fails goes unreported: the store still succeeds
      and goes on to append the index record. */
  lemma KeystoreWriteFailureIgnored(fs: Fs, keystore: Keystore, address: string, name: string)
    requires fs.documents.Some? && keystore.encodedParams.Some?
    requires DirectoryUsable(fs, fs.documents.value)
    requires !Writable(fs, KeystoreFilePath(fs.documents.value, address))
    ensures var added := AddKeystore(fs, keystore, address);
            added.result == Success(())
            && (KeystoreFilePath(fs.documents.value, address) in added.fs.entries
                <==> KeystoreFilePath(fs.documents.value, address) in fs.entries)
            && StoreWallet(fs, keystore, address, name)
               == AddWalletMetadata(added.fs, WalletMetadata(name, address))
  {
  }

  /** The keystore file is written first and is not rolled back: it is still
      there after the store returns, whether the index append succeeded or
      threw. */
  lemma KeystoreSurvivesIndexFailure(fs: Fs, keystore: Keystore, address: string, name: string)
    requires fs.documents.Some? && keystore.encodedParams.Some?
    requires DirectoryUsable(fs, fs.documents.value)
    requires address != "walletsMetadata"
    requires Writable(fs, KeystoreFilePath(fs.documents.value, address))
    ensures var stored := StoreWallet(fs, keystore, address, name);
            var path := KeystoreFilePath(fs.documents.value, address);
            path in stored.fs.entries && stored.fs.entries[path] == File(keystore.encodedParams.value)
  {
    var documents := fs.documents.value;
    var path := KeystoreFilePath(documents, address);
    KeystorePathIsDistinct(documents, address);
    var added := AddKeystore(fs, keystore, address);
    assert added.fs.entries[path] == File(keystore.encodedParams.value);
    LoadNeverOverwrites(added.fs, path);
  }

  /** Writing a keystore file does not change what the index reads as. */
  lemma LoadUnaffectedByKeystore(fs: Fs, keystore: Keystore, address: string)
    requires address != "walletsMetadata"
    requires AddKeystore(fs, keystore, address).result.Success?
    ensures LoadWalletMetadata(AddKeystore(fs, keystore, address).fs).result
            == LoadWalletMetadata(fs).result
  {
    var documents := fs.documents.value;
    KeystorePathIsDistinct(documents, address);
    var dir := DedicatedKeystoreDirPath(fs);
    LoadAfterDirectory(fs);
    var path := KeystoreFilePath(documents, address);
    assert dir.result.value + "/" + address + DotJson == path;
    var created := CreateFile(dir.fs, path, keystore.encodedParams.value);
    if created.1 {
      LoadIgnoresOtherFile(dir.fs, path, keystore.encodedParams.value);
    }
  }

  /** Creating the keystore directory first does not change what loading
      finds: loading creates it anyway. */
  lemma LoadAfterDirectory(fs: Fs)
    requires fs.documents.Some? && DirectoryUsable(fs, fs.documents.value)
    ensures LoadWalletMetadata(CreateDirectoryIfNeeded(fs, KeystoreDir(fs.documents.value)).fs).result
            == LoadWalletMetadata(fs).result
  {
  }

  /** Writing a file other than the keystore directory and the index does
      not change what loading finds, once the directory exists. */
  lemma LoadIgnoresOtherFile(fs: Fs, path: string, contents: string)
    requires fs.documents.Some? && KeystoreDir(fs.documents.value) in fs.entries
    requires path != KeystoreDir(fs.documents.value) && path != MetadataPath(fs.documents.value)
    ensures LoadWalletMetadata(fs.(entries := fs.entries[path := File(contents)])).result
            == LoadWalletMetadata(fs).result
  {
    var meta := MetadataPath(fs.documents.value);
    var fs' := fs.(entries := fs.entries[path := File(contents)]);
    assert Exists(fs', KeystoreDir(fs.documents.value));
    assert Exists(fs', meta) == Exists(fs, meta);
    assert Writable(fs', meta) == Writable(fs, meta);
    assert ReadFile(fs', meta) == ReadFile(fs, meta);
  }

  /** A successful store leaves the index with exactly one more entry, the
      new wallet's name and address, after the ones it had. */
  lemma StoreWalletAppendsEntry(fs: Fs, keystore: Keystore, address: string, name: string)
    requires address != "walletsMetadata"
    requires StoreWallet(fs, keystore, address, name).result.Success?
    ensures LoadWalletMetadata(fs).result.Success?
    ensures RetrieveExistingWalletsMetadata(StoreWallet(fs, keystore, address, name).fs).result
            == Success(LoadWalletMetadata(fs).result.value + [WalletMetadata(name, address)])
  {
    var added := AddKeystore(fs, keystore, address);
    LoadUnaffectedByKeystore(fs, keystore, address);
    AppendExtendsIndex(added.fs, WalletMetadata(name, address));
  }
}
