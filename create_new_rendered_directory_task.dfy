/** The first pipeline stage: stage a new content directory.  It allocates
    the next directory in the sequence, clones the local checkout into it,
    strips the clone's `.git` metadata and publishes the directory to the
    run's shared property map under "nextDirectory". */
module CreateNewRenderedDirectory {
  import opened Common
  import opened Files
  import opened Git
  import opened Tasks

  /** What `FileSystemManager.getNextDirInSequence(lastDirectory)` does. */
  datatype Allocation = Allocated(dir: string) | NoDirectory | AllocationThrew

  /** The calls through which the stage changes the disk, in order. */
  datatype Effect =
    | CloneInto(source: string, target: string)
    | CloseClone(target: string)
    | DeleteDeep(path: Option<string>)

  class CreateNewRenderedDirectoryTask {
    const service: GitService
    const lastDirectory: string
    const properties: StringTable
    const previous: Predecessor

    constructor (service: GitService, lastDirectory: string, properties: StringTable, previous: Predecessor)
      ensures this.service == service && this.lastDirectory == lastDirectory
      ensures this.properties == properties && this.previous == previous
    {
      this.service := service;
      this.lastDirectory := lastDirectory;
      this.properties := properties;
      this.previous := previous;
    }

    /** `call()`.  The collaborators' answers are parameters: the allocated
        directory, the paths that exist before the clone, the repository a
        clone produces (None when cloning throws), the file system as the
        `.git` lookup sees it after the clone, and whether deleting throws. */
    method Call(allocation: Allocation, existing: set<string>, produced: Option<RepoImage>,
                fs: FileSystemView, deleteFails: bool)
      returns (r: Result<bool, TaskError>, effects: seq<Effect>)
      modifies properties
      ensures PredecessorError(previous).Some? ==>
        r == Err(PredecessorError(previous).value) && effects == []
      ensures PredecessorError(previous).None? ==> r.Ok?
      ensures r == Ok(true) <==>
        && PredecessorError(previous).None?
        && allocation.Allocated? && allocation.dir !in existing
        && produced.Some? && !deleteFails
      ensures r != Ok(true) ==> properties.entries == old(properties.entries)
      ensures r == Ok(true) ==>
        properties.entries == old(properties.entries)[NextDirectoryKey := allocation.dir]
      // once the clone succeeded it is closed and its `.git` child deleted,
      // whether or not the deletion then throws
      ensures PredecessorError(previous).None? && allocation.Allocated? && allocation.dir !in existing && produced.Some? ==>
        effects == [CloneInto(service.gitDirectory, allocation.dir), CloseClone(allocation.dir),
                    DeleteDeep(ChildDirectoryIfExists(fs, allocation.dir, ".git"))]
      // no directory, or an existing target: nothing touches the disk
      ensures !(PredecessorError(previous).None? && allocation.Allocated? && allocation.dir !in existing) ==>
        effects == []
      // a clone that throws: only the attempted clone
      ensures PredecessorError(previous).None? && allocation.Allocated? && allocation.dir !in existing && produced.None? ==>
        effects == [CloneInto(service.gitDirectory, allocation.dir)]
      ensures effects != [] ==>
        allocation.Allocated? && effects[0] == CloneInto(service.gitDirectory, allocation.dir)
    {
      effects := [];
      var failure := PredecessorError(previous);
      if failure.Some? {
        return Err(failure.value), effects;
      }
      match allocation {
        case AllocationThrew =>
          r := Ok(false);
        case NoDirectory =>
          r := Ok(false);
        case Allocated(next) =>
          var clone := GitService.CloneRepo(service.gitDirectory, Some(next), existing, produced);
          if !clone.NotCloned? {
            effects := effects + [CloneInto(service.gitDirectory, next)];
          }
          match clone {
            case NotCloned =>
              r := Ok(false);
            case CloneThrew =>
              r := Ok(false);
            case Cloned(git) =>
              effects := effects + [CloseClone(next), DeleteDeep(ChildDirectoryIfExists(fs, next, ".git"))];
              if deleteFails {
                r := Ok(false);
              } else {
                properties.entries := properties.entries[NextDirectoryKey := next];
                r := Ok(true);
              }
          }
      }
    }
  }
}
