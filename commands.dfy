/** The cluster's command layer: the closed set of message kinds, the
    table that maps each kind to the action handling it, and the action
    behind MAINTENANCE, which toggles the site-down page and logs the
    toggle. */
module Commands {
  import opened Common
  import opened History

  /** The closed set of command kinds a node understands. */
  datatype ProtocolMessage =
    | CURRENT_STATE | STATE_UPDATE | SYNC | UPDATE | UPDATE_DONE | UPDATE_FAILED | MAINTENANCE

  /** The kind a binding name stands for (`ProtocolMessage.valueOf`), none
      for a name that is not a kind. */
  function KindOf(name: string): (k: Option<ProtocolMessage>)
  {
    if name == "CURRENT_STATE" then Some(CURRENT_STATE)
    else if name == "STATE_UPDATE" then Some(STATE_UPDATE)
    else if name == "SYNC" then Some(SYNC)
    else if name == "UPDATE" then Some(UPDATE)
    else if name == "UPDATE_DONE" then Some(UPDATE_DONE)
    else if name == "UPDATE_FAILED" then Some(UPDATE_FAILED)
    else if name == "MAINTENANCE" then Some(MAINTENANCE)
    else None
  }

  /** The name under which the action for `kind` is bound (`@Named`): the
      kind's own name, so distinct kinds are bound under distinct names. */
  function KindName(kind: ProtocolMessage): (name: string)
    ensures KindOf(name) == Some(kind)
  {
    match kind
    case CURRENT_STATE => "CURRENT_STATE"
    case STATE_UPDATE => "STATE_UPDATE"
    case SYNC => "SYNC"
    case UPDATE => "UPDATE"
    case UPDATE_DONE => "UPDATE_DONE"
    case UPDATE_FAILED => "UPDATE_FAILED"
    case MAINTENANCE => "MAINTENANCE"
  }

  /** A received message: its kind, its parameters and the node it came from. */
  datatype Message = Message(kind: ProtocolMessage, params: map<string, string>, source: string)

  /** What an action is handed for one execution. */
  datatype CommandContext = CommandContext(source: string, message: Message)

  /** The site-down (maintenance page) switch. */
  class SiteDownService {
    var on: bool

    constructor (on: bool)
      ensures this.on == on
    {
      this.on := on;
    }

    method Start()
      modifies this
      ensures on
    {
      on := true;
    }

    method Stop()
      modifies this
      ensures !on
    {
      on := false;
    }

    function IsOn(): (r: bool)
      reads this
      ensures r <==> on
    {
      on
    }
  }

  /** The message's "state" parameter, when present and equal to `word`
      ignoring case. */
  predicate StateIs(params: map<string, string>, word: string): (r: bool)
    ensures r ==> "state" in params && |params["state"]| == |word|
    ensures Get(params, "state") == Some(word) ==> r
  {
    Get(params, "state").Some? && EqualsIgnoreCase(params["state"], word)
  }

  /** The comment the maintenance action logs: the "comment" parameter, but
      only when a "state" parameter came with it; the empty string
      otherwise. */
  function LoggedComment(params: map<string, string>): (c: string)
    ensures "state" in params && "comment" in params ==> c == params["comment"]
    ensures "state" !in params ==> c == ""
    ensures "comment" !in params ==> c == ""
  {
    var state := Get(params, "state");
    if state.Some? && Get(params, "comment").Some? then params["comment"] else ""
  }

  /** The site-down flag after the action, from the flag before it. */
  function FlagAfter(on: bool, params: map<string, string>): (r: bool)
    ensures StateIs(params, "on") ==> r
    ensures StateIs(params, "off") ==> !r
    ensures !StateIs(params, "on") && !StateIs(params, "off") ==> r == on
  {
    if StateIs(params, "on") then true else if StateIs(params, "off") then false else on
  }

  /** The action for MAINTENANCE messages. */
  class MaintenanceCommandAction {
    const manager: HistoryManager
    const siteDownService: SiteDownService

    constructor (manager: HistoryManager, siteDownService: SiteDownService)
      ensures this.manager == manager && this.siteDownService == siteDownService
    {
      this.manager := manager;
      this.siteDownService := siteDownService;
    }

    /** `execute(ctx)`: switches the page on or off as "state" asks, then
        logs one maintenance event carrying the resulting flag; a failing
        log propagates as the error. */
    method Execute(ctx: CommandContext) returns (r: Result<bool, LogError>)
      modifies manager`events, siteDownService
      ensures siteDownService.on == FlagAfter(old(siteDownService.on), ctx.message.params)
      ensures r.Ok? <==> !manager.failing
      ensures r.Ok? ==> r.value
      ensures manager.events == old(manager.events) +
        if r.Ok? then [MaintenanceEvent(siteDownService.on, Some(""), Some(LoggedComment(ctx.message.params)))] else []
    {
      var params := ctx.message.params;
      var comment := "";
      var state := Get(params, "state");
      if state.Some? {
        var given := Get(params, "comment");
        if given.Some? {
          comment := given.value;
        }
        if EqualsIgnoreCase(state.value, "on") {
          siteDownService.Start();
        } else if EqualsIgnoreCase(state.value, "off") {
          siteDownService.Stop();
        }
      }
      var logged := manager.LogEvent(MaintenanceEvent(siteDownService.IsOn(), Some(""), Some(comment)));
      if logged.Fail? {
        return Err(logged.error);
      }
      r := Ok(true);
    }

    /** `handleFailure(ctx, e)`: does nothing. */
    method HandleFailure(ctx: CommandContext, e: LogError)
      ensures manager.events == old(manager.events) && siteDownService.on == old(siteDownService.on)
    {
    }
  }

  /** The dispatch table's provider.  The seven actions are injected by
      name; the table is built on the first request and the same table is
      handed out from then on. */
  class CommandMapProvider<A> {
    /** The actions as bound by name in the injector. */
    ghost const bindings: map<string, A>

    const currentState: A
    const stateUpdate: A
    const sync: A
    const update: A
    const updateDone: A
    const updateFailed: A
    const maintenance: A

    /** The table once built; None until the first `get`. */
    var actionMap: Option<map<ProtocolMessage, A>>
    /** How many times the table has been built. */
    ghost var builds: nat

    constructor (bindings: map<string, A>)
      requires forall k: ProtocolMessage :: KindName(k) in bindings
      ensures this.bindings == bindings
      ensures actionMap.None? && builds == 0
      ensures Valid()
    {
      this.bindings := bindings;
      currentState := bindings[KindName(CURRENT_STATE)];
      stateUpdate := bindings[KindName(STATE_UPDATE)];
      sync := bindings[KindName(SYNC)];
      update := bindings[KindName(UPDATE)];
      updateDone := bindings[KindName(UPDATE_DONE)];
      updateFailed := bindings[KindName(UPDATE_FAILED)];
      maintenance := bindings[KindName(MAINTENANCE)];
      actionMap := None;
      builds := 0;
    }

    /** Each injected field holds the action bound under its kind's name,
        and the table exists exactly when it has been built once. */
    ghost predicate Valid()
      reads this
    {
      && (forall k: ProtocolMessage :: KindName(k) in bindings)
      && currentState == bindings[KindName(CURRENT_STATE)]
      && stateUpdate == bindings[KindName(STATE_UPDATE)]
      && sync == bindings[KindName(SYNC)]
      && update == bindings[KindName(UPDATE)]
      && updateDone == bindings[KindName(UPDATE_DONE)]
      && updateFailed == bindings[KindName(UPDATE_FAILED)]
      && maintenance == bindings[KindName(MAINTENANCE)]
      && (actionMap.Some? ==> forall k: ProtocolMessage ::
            k in actionMap.value && actionMap.value[k] == bindings[KindName(k)])
      && (actionMap.None? <==> builds == 0)
      && builds <= 1
    }

    /** `get()`. */
    method Get() returns (table: map<ProtocolMessage, A>)
      requires Valid()
      modifies this`actionMap, this`builds
      ensures Valid()
      ensures forall k: ProtocolMessage :: k in table && table[k] == bindings[KindName(k)]
      ensures old(actionMap).Some? ==> table == old(actionMap).value && builds == old(builds)
      ensures actionMap == Some(table) && builds == 1
    {
      if actionMap.None? {
        var m: map<ProtocolMessage, A> := map[];
        m := m[CURRENT_STATE := currentState];
        m := m[STATE_UPDATE := stateUpdate];
        m := m[SYNC := sync];
        m := m[UPDATE := update];
        m := m[UPDATE_DONE := updateDone];
        m := m[UPDATE_FAILED := updateFailed];
        m := m[MAINTENANCE := maintenance];
        forall k: ProtocolMessage
          ensures k in m && m[k] == bindings[KindName(k)]
        {
          match k
          case CURRENT_STATE =>
          case STATE_UPDATE =>
          case SYNC =>
          case UPDATE =>
          case UPDATE_DONE =>
          case UPDATE_FAILED =>
          case MAINTENANCE =>
        }
        actionMap := Some(m);
        builds := builds + 1;
      }
      table := actionMap.value;
    }
  }
}
