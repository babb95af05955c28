/** What the two pipeline stages share: the string tables they update in
    place, the result a stage reads from its predecessor, and how a stage
    ends. */
module Tasks {
  import opened Common

  /** A `Map<String,String>` or `java.util.Properties` object updated in place. */
  class StringTable {
    var entries: map<string, string>

    constructor (entries: map<string, string>)
      ensures this.entries == entries
    {
      this.entries := entries;
    }

    /** `remove(key)`. */
    method Remove(key: string)
      modifies this
      ensures entries == old(entries) - {key}
    {
      entries := entries - {key};
    }
  }

  /** The shared property under which the staging stage publishes the
      directory it prepared and the configuration stage reads it. */
  const NextDirectoryKey: string := "nextDirectory"

  /** What `previousTask.get()` gives a stage: no previous task (or a null
      result), a boolean result, or the exception the previous task threw. */
  datatype Predecessor = NoResult | Finished(ok: bool) | Crashed

  datatype TaskError =
    | PreviousTaskFailed   // "Previous task failed"
    | PreviousTaskThrew    // the ExecutionException from `get()`
    | NullValue            // a NullPointerException on a missing value

  /** The error with which a stage stops before doing anything, if any. */
  function PredecessorError(p: Predecessor): (e: Option<TaskError>)
    ensures e.Some? <==> p == Finished(false) || p == Crashed
    ensures p == Finished(false) ==> e == Some(PreviousTaskFailed)
  {
    match p
    case NoResult => None
    case Finished(ok) => if ok then None else Some(PreviousTaskFailed)
    case Crashed => Some(PreviousTaskThrew)
  }

  /** A stage's result as its successor sees it through the future. */
  function AsPredecessor(r: Result<bool, TaskError>): (p: Predecessor)
    ensures PredecessorError(p).None? <==> r == Ok(true)
  {
    match r
    case Ok(b) => Finished(b)
    case Err(_) => Crashed
  }
}
