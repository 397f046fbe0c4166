/** The slice of the device file system the wallet store uses, as a value:
    a map from absolute path to entry, the documents directory as
    `FileManager.urls(for: .documentDirectory, in: .userDomainMask).first`
    reports it, and the set of paths where creating or writing fails. */
module FileSystem {
  import opened Wrappers

  datatype Entry = Directory | File(contents: string)

  datatype Fs = Fs(
    documents: Option<string>,
    entries: map<string, Entry>,
    readOnly: set<string>
  )

  /** `URL.appendingPathComponent(_:)` read back through `.path`. */
  function AppendingPathComponent(dir: string, component: string): string {
    dir + "/" + component
  }

  /** `FileManager.fileExists(atPath:)`: true for files and directories alike. */
  predicate Exists(fs: Fs, path: string) {
    path in fs.entries
  }

  /** A file can be created or replaced at `path`. */
  predicate Writable(fs: Fs, path: string) {
    path !in fs.readOnly && (path in fs.entries ==> fs.entries[path].File?)
  }

  /** `createDirectory(at:withIntermediateDirectories:attributes:)`; `None` when it throws. */
  function CreateDirectory(fs: Fs, path: string): Option<Fs> {
    if path in fs.readOnly then None
    else Some(fs.(entries := fs.entries[path := Directory]))
  }

  /** `Data.write(to:)` and `String.write(to:atomically:encoding:)`; `None` when they throw. */
  function WriteFile(fs: Fs, path: string, contents: string): Option<Fs> {
    if Writable(fs, path) then Some(fs.(entries := fs.entries[path := File(contents)]))
    else None
  }

  /** `FileManager.createFile(atPath:contents:)`: never throws, reports failure as `false`. */
  function CreateFile(fs: Fs, path: string, contents: string): (Fs, bool) {
    match WriteFile(fs, path, contents)
    case Some(fs') => (fs', true)
    case None => (fs, false)
  }

  /** `Data(contentsOf:)`; `None` when it throws. */
  function ReadFile(fs: Fs, path: string): Option<string> {
    if path in fs.entries && fs.entries[path].File? then Some(fs.entries[path].contents)
    else None
  }
}
