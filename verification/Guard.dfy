/** The action guard: holding calls within a budget, recording outcomes and issuing the completion verdict
    of one turn. */
module Guard {
  import opened Wrappers
  import opened GuardResults

  datatype Intent = Intent(action: bool, domains: set<string>, explicitLocal: bool, destinations: set<string>)

  datatype Route = Route(signature: string, domain: string)

  /** The name and command patterns. Local tools have plain names, so a connected tool is never a local
      route and never a memory tool. */
  datatype Classifier = Classifier(connected: string -> bool, writing: string -> bool, memory: string -> bool,
                                   factSearch: string -> bool, domains: string -> set<string>,
                                   local: Call -> Option<Route>, reading: Call -> bool,
                                   operation: Call -> string, query: Call -> string, reader: Reader)

  predicate IsWrite(c: Classifier, name: string) {
    c.connected(name) && c.writing(name)
  }

  predicate IsMemoryTool(c: Classifier, name: string) {
    !c.connected(name) && c.memory(name)
  }

  function LocalRoute(c: Classifier, call: Call): Option<Route> {
    if c.connected(call.name) then None else c.local(call)
  }

  datatype Hold = Redirect(signature: string, tools: set<string>) | KnownFailure(signature: string) | Checkpoint(tool: string)

  datatype Decision = Allow | Block(hold: Hold)

  datatype Entry = Entry(tool: string, status: Status)

  datatype Turn = Turn(intent: Intent, visible: set<string>, decisions: seq<Decision>, attempts: seq<string>,
                       accepted: seq<string>, failed: seq<string>, unconfirmed: seq<string>, undispatched: seq<string>,
                       outcomes: map<string, Entry>, localAccepted: seq<string>, queries: seq<string>,
                       checkpointed: set<string>)

  datatype Config = Config(checkpoint: bool, maxBlocks: int)

  function Fresh(intent: Intent, visible: set<string>): Turn {
    Turn(intent, visible, [], [], [], [], [], [], map[], [], [], {})
  }

  // ---- before a call --------------------------------------------------------

  /** Number of holds issued in this turn. */
  function Blocks(ds: seq<Decision>): nat {
    if ds == [] then 0 else Blocks(ds[..|ds| - 1]) + if ds[|ds| - 1].Block? then 1 else 0
  }

  predicate MemoryVisible(c: Classifier, t: Turn) {
    exists n :: n in t.visible && (IsMemoryTool(c, n) || c.factSearch(n))
  }

  /** The connected tools that could do what a local route would do. */
  function Substitutes(c: Classifier, t: Turn, call: Call, domain: string): set<string> {
    var targets := if domain == "*" then t.intent.domains else {domain} * t.intent.domains;
    var tools := set n | n in t.visible && c.connected(n) && c.domains(n) * targets != {};
    if !t.intent.action || targets == {} then {}
    else if c.reading(call) then if exists n :: n in tools && !IsWrite(c, n) then tools else {}
    else if exists n :: n in tools && IsWrite(c, n) then tools else {}
  }

  /** `_decide`; `known` are the routes with a recorded failure. */
  function Decide(c: Classifier, cfg: Config, known: set<string>, t: Turn, call: Call): Decision {
    if Blocks(t.decisions) >= cfg.maxBlocks then Allow
    else
      var route := LocalRoute(c, call);
      if route.Some? && !t.intent.explicitLocal && Substitutes(c, t, call, route.value.domain) != {} then
        Block(Redirect(route.value.signature, Substitutes(c, t, call, route.value.domain)))
      else if route.Some? && !t.intent.explicitLocal && route.value.signature in known then
        Block(KnownFailure(route.value.signature))
      else if cfg.checkpoint && IsWrite(c, call.name) && call.name !in t.checkpointed && MemoryVisible(c, t) then
        Block(Checkpoint(call.name))
      else Allow
  }

  /** The first hold among the calls of a wrapper. */
  function FirstBlock(c: Classifier, cfg: Config, known: set<string>, t: Turn, calls: seq<Call>): Decision {
    if calls == [] then Allow
    else if Decide(c, cfg, known, t, calls[0]).Block? then Decide(c, cfg, known, t, calls[0])
    else FirstBlock(c, cfg, known, t, calls[1..])
  }

  function WriteNames(c: Classifier, calls: seq<Call>): seq<string> {
    if calls == [] then []
    else
      var last := calls[|calls| - 1].name;
      WriteNames(c, calls[..|calls| - 1]) + if !IsMemoryTool(c, last) && IsWrite(c, last) then [last] else []
  }

  function Queries(c: Classifier, calls: seq<Call>): seq<string> {
    if calls == [] then []
    else
      var last := calls[|calls| - 1];
      Queries(c, calls[..|calls| - 1]) + if IsMemoryTool(c, last.name) then [c.query(last)] else []
  }

  /** `before_call` on the effective calls of one proposed call. */
  function Before(c: Classifier, cfg: Config, known: set<string>, t: Turn, calls: seq<Call>): Turn {
    var d := FirstBlock(c, cfg, known, t, calls);
    var held := t.(decisions := t.decisions + [d]);
    match d
    case Block(Checkpoint(tool)) => held.(checkpointed := t.checkpointed + {tool})
    case Block(_) => held
    case Allow => held.(attempts := t.attempts + WriteNames(c, calls), queries := t.queries + Queries(c, calls))
  }

  // ---- after a call ---------------------------------------------------------

  datatype Reply = Reply(call: Call, status: Status)

  function Zip(calls: seq<Call>, statuses: seq<Status>): seq<Reply>
    requires |calls| == |statuses|
  {
    seq(|calls|, i requires 0 <= i < |calls| => Reply(calls[i], statuses[i]))
  }

  predicate Dispatches(c: Classifier, r: Reply) {
    IsWrite(c, r.call.name) && r.status != Undispatched
  }

  /** One turn of the loop of `after_call`. */
  function Record(c: Classifier, t: Turn, r: Reply): Turn {
    var name, key := r.call.name, c.operation(r.call);
    var local := LocalRoute(c, r.call);
    var t1 := if local.Some? && r.status == Accepted
              then t.(localAccepted := t.localAccepted + [local.value.signature]) else t;
    if !IsWrite(c, name) then t1
    else
      match r.status
      case Undispatched => t1.(undispatched := t.undispatched + [name])
      case _ =>
        var t2 := match r.status
                  case Accepted => t1.(accepted := t.accepted + [name])
                  case Failed => t1.(failed := t.failed + [name])
                  case _ => t1.(unconfirmed := t.unconfirmed + [name]);
        if key in t.outcomes && t.outcomes[key].status == Accepted then t2
        else t2.(outcomes := t.outcomes[key := Entry(name, r.status)])
  }

  function After(c: Classifier, t: Turn, replies: seq<Reply>): Turn {
    if replies == [] then t else Record(c, After(c, t, replies[..|replies| - 1]), replies[|replies| - 1])
  }

  // ---- the verdict ----------------------------------------------------------

  datatype Shortfall = WrongDestination | NotConfirmed | Rejected | NotDispatched | NotAttempted

  datatype Verdict =
    | NoActionRequested(accepted: seq<string>)
    | CompletedLocal(accepted: seq<string>)
    | UnverifiedLocal
    | Completed(accepted: seq<string>)
    | Partial(accepted: seq<string>, missing: set<string>)
    | NotCompleted(reason: Shortfall, tools: seq<string>)

  /** An accepted write fits unless both the request and the tool name destinations and they differ. */
  predicate Requested(c: Classifier, intent: Intent, name: string) {
    intent.destinations == {} || c.domains(name) == {} || c.domains(name) * intent.destinations != {}
  }

  function Matched(c: Classifier, intent: Intent, names: seq<string>): (r: seq<string>)
    ensures forall n :: n in r <==> n in names && Requested(c, intent, n)
  {
    if names == [] then []
    else Matched(c, intent, names[..|names| - 1])
         + if Requested(c, intent, names[|names| - 1]) then [names[|names| - 1]] else []
  }

  function Missing(outcomes: map<string, Entry>): set<string> {
    set k | k in outcomes && outcomes[k].status != Accepted :: outcomes[k].tool
  }

  function Judge(c: Classifier, t: Turn): Verdict {
    if !t.intent.action then NoActionRequested(t.accepted)
    else if t.intent.explicitLocal then
      if t.localAccepted != [] then CompletedLocal(t.localAccepted)
      else if t.accepted != [] then CompletedLocal(t.accepted) else UnverifiedLocal
    else
      var matched := Matched(c, t.intent, t.accepted);
      if matched != [] then
        if Missing(t.outcomes) != {} then Partial(matched, Missing(t.outcomes)) else Completed(matched)
      else if t.accepted != [] then NotCompleted(WrongDestination, t.accepted)
      else if t.unconfirmed != [] then NotCompleted(NotConfirmed, t.unconfirmed)
      else if t.failed != [] then NotCompleted(Rejected, t.failed)
      else if t.undispatched != [] then NotCompleted(NotDispatched, t.undispatched)
      else NotCompleted(NotAttempted, [])
  }

  // ---- one turn -------------------------------------------------------------

  /** Host events carry raw calls and raw results: the effective calls and their statuses are read off them. */
  datatype Event =
    | Visible(names: set<string>)
    | Proposed(name: string, arguments: Json, known: set<string>)
    | Returned(name: string, arguments: Json, result: Json)

  /** The effective calls behind a call; a wrapper with a tool name that is no text has none. */
  function Effective(name: string, arguments: Json): seq<Call> {
    match Unwrap(name, arguments)
    case Ok(calls) => calls
    case Err(_) => []
  }

  /** The effective calls with the status the result gives each of them. */
  function Replies(c: Classifier, name: string, arguments: Json, result: Json): (r: seq<Reply>)
    ensures |r| == |Effective(name, arguments)|
  {
    var calls := Effective(name, arguments);
    Zip(calls, PerCallStatus(c.reader, result, |calls|))
  }

  function Handle(c: Classifier, cfg: Config, t: Turn, e: Event): Turn {
    match e
    case Visible(names) => t.(visible := t.visible + names)
    case Proposed(name, arguments, known) => Before(c, cfg, known, t, Effective(name, arguments))
    case Returned(name, arguments, result) => After(c, t, Replies(c, name, arguments, result))
  }

  function Play(c: Classifier, cfg: Config, t: Turn, events: seq<Event>): Turn {
    if events == [] then t else Handle(c, cfg, Play(c, cfg, t, events[..|events| - 1]), events[|events| - 1])
  }

  /** The replies an event brings. */
  function RepliesOf(c: Classifier, e: Event): seq<Reply> {
    if e.Returned? then Replies(c, e.name, e.arguments, e.result) else []
  }

  /** All replies of a turn, in order. */
  function History(c: Classifier, events: seq<Event>): seq<Reply> {
    if events == [] then [] else History(c, events[..|events| - 1]) + RepliesOf(c, events[|events| - 1])
  }
}
