/** The node's append-only history log, as the pipeline and the maintenance
    action use it.  The manager's own implementation (index assignment,
    persistence, queries) is not part of this model: an event is an opaque
    record appended to a sequence. */
module History {
  import opened Common

  /** The arguments of the two `logEvent` overloads the core calls (a Java
      string argument may be null, hence the options). */
  datatype HistoryEvent =
    | UpdateEvent(branch: string, revision: string, openId: Option<string>,
                  directory: string, comment: Option<string>, revertible: bool)
    | MaintenanceEvent(maintenance: bool, openId: Option<string>, comment: Option<string>)

  datatype LogError = LogWriteFailed

  class HistoryManager {
    /** Every event logged so far, oldest first. */
    var events: seq<HistoryEvent>
    /** Whether `logEvent` currently throws (the log cannot be written). */
    var failing: bool

    constructor (failing: bool)
      ensures events == [] && this.failing == failing
    {
      events := [];
      this.failing := failing;
    }

    /** `logEvent(...)`: appends one event, or throws and appends nothing. */
    method LogEvent(e: HistoryEvent) returns (r: Outcome<LogError>)
      modifies this`events
      ensures r.Pass? <==> !failing
      ensures events == if r.Pass? then old(events) + [e] else old(events)
    {
      if failing {
        r := Fail(LogWriteFailed);
      } else {
        events := events + [e];
        r := Pass;
      }
    }
  }
}
