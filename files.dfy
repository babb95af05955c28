/** What the core asks of the file system.  The helper that answers these
    questions (FileSystemManager) is not part of this model: its answers are
    given as data, and nothing here assumes how paths are joined or how the
    next snapshot directory is named. */
module Files {
  import opened Common

  datatype FileSystemView = FileSystemView(
    /** Paths that exist. */
    existing: set<string>,
    /** Paths that are directories. */
    directories: set<string>,
    readable: set<string>,
    writable: set<string>,
    /** `getChildDirectoryIfExists(parent, name)` for each pair that has
        such a child directory. */
    children: map<(string, string), string>)

  /** `FileSystemManager.getChildDirectoryIfExists(parent, name)`: null
      when `parent` has no child directory called `name`. */
  function ChildDirectoryIfExists(fs: FileSystemView, parent: string, name: string): (r: Option<string>)
    ensures r.Some? <==> (parent, name) in fs.children
  {
    if (parent, name) in fs.children then Some(fs.children[(parent, name)]) else None
  }

  /** A directory the process may both read and write. */
  predicate UsableDirectory(fs: FileSystemView, path: string)
  {
    path in fs.directories && path in fs.readable && path in fs.writable
  }
}
