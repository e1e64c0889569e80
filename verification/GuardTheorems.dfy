/** The guard's records refine the history of a turn, and its holds stay within their bounds. */
module GuardTheorems {
  import opened Wrappers
  import opened GuardResults
  import opened Guard

  // ---- outcomes refine the history ------------------------------------------

  /** Reply `i` was dispatched for operation `key`. */
  predicate DispatchedFor(c: Classifier, h: seq<Reply>, i: nat, key: string) {
    i < |h| && Dispatches(c, h[i]) && c.operation(h[i].call) == key
  }

  predicate AcceptedFor(c: Classifier, h: seq<Reply>, i: nat, key: string) {
    DispatchedFor(c, h, i, key) && h[i].status == Accepted
  }

  /** No later reply was dispatched for the same operation. */
  ghost predicate LastFor(c: Classifier, h: seq<Reply>, i: nat, key: string) {
    DispatchedFor(c, h, i, key) && forall j :: i < j < |h| ==> !DispatchedFor(c, h, j, key)
  }

  /** An operation is recorded exactly when it was dispatched; it is accepted exactly when some reply for it
      was accepted, and otherwise shows its last dispatched reply. */
  ghost predicate OutcomeOk(c: Classifier, h: seq<Reply>, outcomes: map<string, Entry>, key: string) {
    && (key in outcomes <==> exists i: nat :: DispatchedFor(c, h, i, key))
    && (key in outcomes ==>
          && (outcomes[key].status == Accepted <==> exists i: nat :: AcceptedFor(c, h, i, key))
          && (outcomes[key].status != Accepted ==>
                exists i: nat :: LastFor(c, h, i, key) && outcomes[key] == Entry(h[i].call.name, h[i].status)))
  }

  function Tools(c: Classifier, h: seq<Reply>, s: Status): seq<string> {
    if h == [] then []
    else
      var r := h[|h| - 1];
      Tools(c, h[..|h| - 1], s) + if IsWrite(c, r.call.name) && r.status == s then [r.call.name] else []
  }

  function Locals(c: Classifier, h: seq<Reply>): seq<string> {
    if h == [] then []
    else
      var r := h[|h| - 1];
      Locals(c, h[..|h| - 1])
      + if LocalRoute(c, r.call).Some? && r.status == Accepted then [LocalRoute(c, r.call).value.signature] else []
  }

  ghost predicate Refines(c: Classifier, t: Turn, h: seq<Reply>) {
    && t.accepted == Tools(c, h, Accepted) && t.failed == Tools(c, h, Failed)
    && t.unconfirmed == Tools(c, h, Unconfirmed) && t.undispatched == Tools(c, h, Undispatched)
    && t.localAccepted == Locals(c, h)
    && forall key :: OutcomeOk(c, h, t.outcomes, key)
  }

  lemma DispatchedSnoc(c: Classifier, h: seq<Reply>, r: Reply, key: string)
    ensures forall i: nat :: i < |h| ==> (DispatchedFor(c, h + [r], i, key) <==> DispatchedFor(c, h, i, key))
    ensures DispatchedFor(c, h + [r], |h|, key) <==> Dispatches(c, r) && c.operation(r.call) == key
    ensures forall i: nat :: i < |h| ==> (h + [r])[i] == h[i]
    ensures (h + [r])[|h|] == r
  {
  }

  /** A reply that is not dispatched for `key` leaves its outcome in order. */
  lemma OutcomeKept(c: Classifier, h: seq<Reply>, r: Reply, outcomes: map<string, Entry>, key: string)
    requires OutcomeOk(c, h, outcomes, key)
    requires !(Dispatches(c, r) && c.operation(r.call) == key)
    ensures OutcomeOk(c, h + [r], outcomes, key)
  {
    DispatchedSnoc(c, h, r, key);
    var h' := h + [r];
    if i: nat :| DispatchedFor(c, h, i, key) {
      assert DispatchedFor(c, h', i, key);
    }
    if i: nat :| AcceptedFor(c, h, i, key) {
      assert AcceptedFor(c, h', i, key);
    }
    assert forall i: nat :: AcceptedFor(c, h', i, key) ==> AcceptedFor(c, h, i, key);
    if key in outcomes && outcomes[key].status != Accepted {
      var i: nat :| LastFor(c, h, i, key) && outcomes[key] == Entry(h[i].call.name, h[i].status);
      assert LastFor(c, h', i, key);
    }
  }

  /** A dispatched reply settles its operation, unless it was accepted before. */
  lemma OutcomeSet(c: Classifier, h: seq<Reply>, r: Reply, outcomes: map<string, Entry>, key: string)
    requires OutcomeOk(c, h, outcomes, key) && Dispatches(c, r) && c.operation(r.call) == key
    ensures var outcomes' := if key in outcomes && outcomes[key].status == Accepted then outcomes
                             else outcomes[key := Entry(r.call.name, r.status)];
            OutcomeOk(c, h + [r], outcomes', key)
  {
    DispatchedSnoc(c, h, r, key);
    var h' := h + [r];
    assert DispatchedFor(c, h', |h|, key);
    if key in outcomes && outcomes[key].status == Accepted {
      var i: nat :| AcceptedFor(c, h, i, key);
      assert AcceptedFor(c, h', i, key);
    } else {
      assert LastFor(c, h', |h|, key);
      assert r.status == Accepted ==> AcceptedFor(c, h', |h|, key);
      forall i: nat | i < |h|
        ensures !AcceptedFor(c, h', i, key)
      {
        assert DispatchedFor(c, h', i, key) <==> DispatchedFor(c, h, i, key);
        assert !AcceptedFor(c, h, i, key);
      }
    }
  }

  lemma RecordLists(c: Classifier, t: Turn, h: seq<Reply>, r: Reply)
    requires t.accepted == Tools(c, h, Accepted) && t.failed == Tools(c, h, Failed)
    requires t.unconfirmed == Tools(c, h, Unconfirmed) && t.undispatched == Tools(c, h, Undispatched)
    requires t.localAccepted == Locals(c, h)
    ensures var t', h' := Record(c, t, r), h + [r];
            && t'.accepted == Tools(c, h', Accepted) && t'.failed == Tools(c, h', Failed)
            && t'.unconfirmed == Tools(c, h', Unconfirmed) && t'.undispatched == Tools(c, h', Undispatched)
            && t'.localAccepted == Locals(c, h')
  {
    assert (h + [r])[..|h|] == h && (h + [r])[|h|] == r;
  }

  lemma RecordOutcome(c: Classifier, t: Turn, h: seq<Reply>, r: Reply, key: string)
    requires OutcomeOk(c, h, t.outcomes, key)
    ensures OutcomeOk(c, h + [r], Record(c, t, r).outcomes, key)
  {
    hide OutcomeOk;
    if Dispatches(c, r) && c.operation(r.call) == key {
      OutcomeSet(c, h, r, t.outcomes, key);
    } else {
      OutcomeKept(c, h, r, t.outcomes, key);
      SameOutcome(c, h + [r], t.outcomes, Record(c, t, r).outcomes, key);
    }
  }

  lemma RecordRefines(c: Classifier, t: Turn, h: seq<Reply>, r: Reply)
    requires Refines(c, t, h)
    ensures Refines(c, Record(c, t, r), h + [r])
  {
    hide OutcomeOk, Record, Tools, Locals;
    RecordLists(c, t, h, r);
    forall key
      ensures OutcomeOk(c, h + [r], Record(c, t, r).outcomes, key)
    {
      RecordOutcome(c, t, h, r, key);
    }
  }

  lemma SameOutcome(c: Classifier, h: seq<Reply>, a: map<string, Entry>, b: map<string, Entry>, key: string)
    requires OutcomeOk(c, h, a, key) && (key in a <==> key in b) && (key in a ==> a[key] == b[key])
    ensures OutcomeOk(c, h, b, key)
  {
  }

  lemma {:induction false} AfterRefines(c: Classifier, t: Turn, h: seq<Reply>, replies: seq<Reply>)
    requires Refines(c, t, h)
    ensures Refines(c, After(c, t, replies), h + replies)
    decreases |replies|
  {
    hide Refines, Record;
    if replies == [] {
      assert h + replies == h;
    } else {
      var n := |replies| - 1;
      AfterRefines(c, t, h, replies[..n]);
      RecordRefines(c, After(c, t, replies[..n]), h + replies[..n], replies[n]);
      assert h + replies == (h + replies[..n]) + [replies[n]];
    }
  }

  lemma {:induction false} PlayRefines(c: Classifier, cfg: Config, intent: Intent, visible: set<string>, events: seq<Event>)
    ensures Refines(c, Play(c, cfg, Fresh(intent, visible), events), History(c, events))
    ensures Play(c, cfg, Fresh(intent, visible), events).intent == intent
    decreases |events|
  {
    hide Refines, Handle, RepliesOf;
    if events == [] {
      FreshRefines(c, intent, visible);
    } else {
      var n := |events| - 1;
      PlayRefines(c, cfg, intent, visible, events[..n]);
      HandleRefines(c, cfg, Play(c, cfg, Fresh(intent, visible), events[..n]), History(c, events[..n]), events[n]);
    }
  }

  lemma FreshRefines(c: Classifier, intent: Intent, visible: set<string>)
    ensures Refines(c, Fresh(intent, visible), [])
  {
  }

  lemma HandleRefines(c: Classifier, cfg: Config, t: Turn, h: seq<Reply>, e: Event)
    requires Refines(c, t, h)
    ensures Refines(c, Handle(c, cfg, t, e), h + RepliesOf(c, e)) && Handle(c, cfg, t, e).intent == t.intent
  {
    hide FirstBlock, WriteNames, Queries, OutcomeOk, Tools, Locals, Replies;
    if e.Returned? {
      AfterRefines(c, t, h, RepliesOf(c, e));
      AfterKeepsIntent(c, t, RepliesOf(c, e));
    } else {
      assert h + RepliesOf(c, e) == h;
    }
  }

  lemma {:induction false} AfterKeepsIntent(c: Classifier, t: Turn, replies: seq<Reply>)
    ensures After(c, t, replies).intent == t.intent
    decreases |replies|
  {
    if replies != [] {
      AfterKeepsIntent(c, t, replies[..|replies| - 1]);
    }
  }

  /** The outcome map of any turn, read off the replies of that turn. */
  lemma OutcomesFollowHistory(c: Classifier, cfg: Config, intent: Intent, visible: set<string>, events: seq<Event>,
                              key: string)
    ensures OutcomeOk(c, History(c, events), Play(c, cfg, Fresh(intent, visible), events).outcomes, key)
  {
    PlayRefines(c, cfg, intent, visible, events);
  }

  // ---- the verdict refines the history --------------------------------------

  ghost predicate SomeWrite(c: Classifier, h: seq<Reply>, s: Status) {
    exists i :: 0 <= i < |h| && IsWrite(c, h[i].call.name) && h[i].status == s
  }

  /** An accepted write that fits the requested destinations. */
  ghost predicate SomeFitting(c: Classifier, intent: Intent, h: seq<Reply>) {
    exists i :: 0 <= i < |h| && IsWrite(c, h[i].call.name) && h[i].status == Accepted
                && Requested(c, intent, h[i].call.name)
  }

  ghost predicate SomeLocal(c: Classifier, h: seq<Reply>) {
    exists i :: 0 <= i < |h| && LocalRoute(c, h[i].call).Some? && h[i].status == Accepted
  }

  ghost predicate Settled(c: Classifier, h: seq<Reply>, key: string) {
    exists i: nat :: AcceptedFor(c, h, i, key)
  }

  /** Every dispatched operation has an accepted reply. */
  ghost predicate AllSettled(c: Classifier, h: seq<Reply>) {
    forall i :: 0 <= i < |h| && Dispatches(c, h[i]) ==> Settled(c, h, c.operation(h[i].call))
  }

  /** The verdict as a function of the request and the replies alone. */
  ghost predicate VerdictOk(c: Classifier, intent: Intent, h: seq<Reply>, v: Verdict) {
    if !intent.action then v.NoActionRequested?
    else if intent.explicitLocal then
      if SomeLocal(c, h) || SomeWrite(c, h, Accepted) then v.CompletedLocal? else v.UnverifiedLocal?
    else if SomeFitting(c, intent, h) then
      if AllSettled(c, h) then v.Completed? else v.Partial?
    else
      v.NotCompleted?
      && v.reason == if SomeWrite(c, h, Accepted) then WrongDestination
                     else if SomeWrite(c, h, Unconfirmed) then NotConfirmed
                     else if SomeWrite(c, h, Failed) then Rejected
                     else if SomeWrite(c, h, Undispatched) then NotDispatched
                     else NotAttempted
  }

  lemma {:induction false} ToolsAre(c: Classifier, h: seq<Reply>, s: Status, n: string)
    ensures n in Tools(c, h, s)
            <==> exists i :: 0 <= i < |h| && IsWrite(c, h[i].call.name) && h[i].status == s && h[i].call.name == n
    decreases |h|
  {
    if h != [] {
      var m := |h| - 1;
      ToolsAre(c, h[..m], s, n);
      if n in Tools(c, h[..m], s) {
        var i :| 0 <= i < m && IsWrite(c, h[..m][i].call.name) && h[..m][i].status == s && h[..m][i].call.name == n;
        assert h[i] == h[..m][i];
      }
      if i :| 0 <= i < |h| && IsWrite(c, h[i].call.name) && h[i].status == s && h[i].call.name == n {
        assert i < m ==> h[i] == h[..m][i];
      }
    }
  }

  lemma ToolsPresent(c: Classifier, h: seq<Reply>, s: Status)
    ensures Tools(c, h, s) != [] <==> SomeWrite(c, h, s)
  {
    if Tools(c, h, s) != [] {
      ToolsAre(c, h, s, Tools(c, h, s)[0]);
    }
    if i :| 0 <= i < |h| && IsWrite(c, h[i].call.name) && h[i].status == s {
      ToolsAre(c, h, s, h[i].call.name);
    }
  }

  lemma {:induction false} LocalsPresent(c: Classifier, h: seq<Reply>)
    ensures Locals(c, h) != [] <==> SomeLocal(c, h)
    decreases |h|
  {
    if h != [] {
      var m := |h| - 1;
      LocalsPresent(c, h[..m]);
      if SomeLocal(c, h[..m]) {
        var i :| 0 <= i < m && LocalRoute(c, h[..m][i].call).Some? && h[..m][i].status == Accepted;
        assert h[i] == h[..m][i];
      }
      if i :| 0 <= i < |h| && LocalRoute(c, h[i].call).Some? && h[i].status == Accepted {
        assert i < m ==> h[i] == h[..m][i];
      }
    }
  }

  lemma FittingPresent(c: Classifier, intent: Intent, h: seq<Reply>)
    ensures Matched(c, intent, Tools(c, h, Accepted)) != [] <==> SomeFitting(c, intent, h)
  {
    var matched := Matched(c, intent, Tools(c, h, Accepted));
    if matched != [] {
      assert matched[0] in matched;
      ToolsAre(c, h, Accepted, matched[0]);
    }
    if i :| 0 <= i < |h| && IsWrite(c, h[i].call.name) && h[i].status == Accepted
            && Requested(c, intent, h[i].call.name) {
      ToolsAre(c, h, Accepted, h[i].call.name);
      assert h[i].call.name in matched;
    }
  }

  lemma MissingAreUnsettled(c: Classifier, h: seq<Reply>, outcomes: map<string, Entry>)
    requires forall key :: OutcomeOk(c, h, outcomes, key)
    ensures Missing(outcomes) == {} <==> AllSettled(c, h)
  {
    hide AcceptedFor, LastFor;
    forall k | k in outcomes
      ensures outcomes[k].status == Accepted <==> Settled(c, h, k)
      ensures exists i: nat :: DispatchedFor(c, h, i, k)
    {
      assert OutcomeOk(c, h, outcomes, k);
    }
    if AllSettled(c, h) {
      forall k | k in outcomes
        ensures outcomes[k].status == Accepted
      {
        var i: nat :| DispatchedFor(c, h, i, k);
      }
    }
    if Missing(outcomes) == {} {
      forall i | 0 <= i < |h| && Dispatches(c, h[i])
        ensures Settled(c, h, c.operation(h[i].call))
      {
        var key := c.operation(h[i].call);
        assert DispatchedFor(c, h, i, key) && OutcomeOk(c, h, outcomes, key);
        assert outcomes[key].tool !in Missing(outcomes);
      }
    }
  }

  /** The verdict of any turn is the stated function of its request and its replies. */
  lemma VerdictFollowsHistory(c: Classifier, cfg: Config, intent: Intent, visible: set<string>, events: seq<Event>)
    ensures VerdictOk(c, intent, History(c, events), Judge(c, Play(c, cfg, Fresh(intent, visible), events)))
  {
    var h, t := History(c, events), Play(c, cfg, Fresh(intent, visible), events);
    PlayRefines(c, cfg, intent, visible, events);
    ToolsPresent(c, h, Accepted);
    ToolsPresent(c, h, Unconfirmed);
    ToolsPresent(c, h, Failed);
    ToolsPresent(c, h, Undispatched);
    LocalsPresent(c, h);
    FittingPresent(c, intent, h);
    MissingAreUnsettled(c, h, t.outcomes);
    hide Missing, Matched, AllSettled, SomeFitting, SomeWrite, SomeLocal, Tools, Locals, OutcomeOk, Play, History;
  }

  /** The last dispatched reply of an operation that was never accepted is a call of the tool `n`. */
  ghost predicate LeftOpen(c: Classifier, h: seq<Reply>, n: string) {
    exists i: nat, key :: LastFor(c, h, i, key) && !Settled(c, h, key) && h[i].call.name == n
  }

  /** The tools a verdict names. */
  ghost predicate NamesOk(c: Classifier, intent: Intent, h: seq<Reply>, v: Verdict) {
    match v
    case NoActionRequested(names) => names == Tools(c, h, Accepted)
    case CompletedLocal(names) => names == if Locals(c, h) != [] then Locals(c, h) else Tools(c, h, Accepted)
    case UnverifiedLocal => true
    case Completed(names) => forall n :: n in names <==> n in Tools(c, h, Accepted) && Requested(c, intent, n)
    case Partial(names, missing) =>
      && (forall n :: n in names <==> n in Tools(c, h, Accepted) && Requested(c, intent, n))
      && (forall n :: n in missing <==> LeftOpen(c, h, n))
    case NotCompleted(reason, names) =>
      (match reason
       case WrongDestination => names == Tools(c, h, Accepted)
       case NotConfirmed => names == Tools(c, h, Unconfirmed)
       case Rejected => names == Tools(c, h, Failed)
       case NotDispatched => names == Tools(c, h, Undispatched)
       case NotAttempted => names == [])
  }

  lemma MissingAreOpen(c: Classifier, h: seq<Reply>, outcomes: map<string, Entry>, n: string)
    requires forall key :: OutcomeOk(c, h, outcomes, key)
    ensures n in Missing(outcomes) <==> LeftOpen(c, h, n)
  {
    hide AcceptedFor;
    if n in Missing(outcomes) {
      var key :| key in outcomes && outcomes[key].status != Accepted && outcomes[key].tool == n;
      assert OutcomeOk(c, h, outcomes, key);
      var i: nat :| LastFor(c, h, i, key) && outcomes[key] == Entry(h[i].call.name, h[i].status);
      assert !Settled(c, h, key);
    }
    if LeftOpen(c, h, n) {
      var i: nat, key :| LastFor(c, h, i, key) && !Settled(c, h, key) && h[i].call.name == n;
      assert OutcomeOk(c, h, outcomes, key);
      assert DispatchedFor(c, h, i, key) && key in outcomes;
      var j: nat :| LastFor(c, h, j, key) && outcomes[key] == Entry(h[j].call.name, h[j].status);
      assert i == j;
    }
  }

  /** The tools named in the verdict of any turn, read off its replies: partial success names exactly the tools
      of the operations left open. */
  lemma VerdictNames(c: Classifier, cfg: Config, intent: Intent, visible: set<string>, events: seq<Event>)
    ensures NamesOk(c, intent, History(c, events), Judge(c, Play(c, cfg, Fresh(intent, visible), events)))
  {
    hide Missing, LeftOpen, Tools, Locals, OutcomeOk, Play, History;
    var h, t := History(c, events), Play(c, cfg, Fresh(intent, visible), events);
    PlayRefines(c, cfg, intent, visible, events);
    forall n { MissingAreOpen(c, h, t.outcomes, n); }
  }

  /** "completed" is reported exactly when an action was requested, the route is not explicitly local, an
      accepted write fits the requested destinations, and every dispatched operation has an accepted reply. */
  lemma CompletedExactly(c: Classifier, cfg: Config, intent: Intent, visible: set<string>, events: seq<Event>)
    ensures Judge(c, Play(c, cfg, Fresh(intent, visible), events)).Completed?
            <==> intent.action && !intent.explicitLocal && SomeFitting(c, intent, History(c, events))
                 && AllSettled(c, History(c, events))
  {
    VerdictFollowsHistory(c, cfg, intent, visible, events);
    hide Judge, Play, AllSettled, SomeFitting, SomeWrite, SomeLocal;
  }

  // ---- holds stay within their bounds ---------------------------------------

  /** How often `tool` was held at the checkpoint. */
  function Checkpoints(ds: seq<Decision>, tool: string): nat {
    if ds == [] then 0
    else Checkpoints(ds[..|ds| - 1], tool) + if ds[|ds| - 1] == Block(Checkpoint(tool)) then 1 else 0
  }

  lemma Snoc(ds: seq<Decision>, d: Decision)
    ensures Blocks(ds + [d]) == Blocks(ds) + if d.Block? then 1 else 0
    ensures forall n :: Checkpoints(ds + [d], n) == Checkpoints(ds, n) + if d == Block(Checkpoint(n)) then 1 else 0
  {
    assert (ds + [d])[..|ds|] == ds;
  }

  /** A hold is issued within the budget, and a checkpoint hold only for a write tool not held before. */
  lemma {:induction false} FirstBlockOk(c: Classifier, cfg: Config, known: set<string>, t: Turn, calls: seq<Call>)
    ensures var d := FirstBlock(c, cfg, known, t, calls);
            d.Block? ==>
              && Blocks(t.decisions) < cfg.maxBlocks
              && (d.hold.Checkpoint? ==> IsWrite(c, d.hold.tool) && d.hold.tool !in t.checkpointed)
    decreases |calls|
  {
    if calls != [] {
      FirstBlockOk(c, cfg, known, t, calls[1..]);
    }
  }

  /** The number of holds is within the budget, and `checkpointed` are exactly the tools held once. */
  ghost predicate Bounded(cfg: Config, t: Turn) {
    && Blocks(t.decisions) <= (if cfg.maxBlocks > 0 then cfg.maxBlocks else 0)
    && forall n :: Checkpoints(t.decisions, n) == if n in t.checkpointed then 1 else 0
  }

  lemma BeforeBounded(c: Classifier, cfg: Config, known: set<string>, t: Turn, calls: seq<Call>)
    requires Bounded(cfg, t)
    ensures Bounded(cfg, Before(c, cfg, known, t, calls))
  {
    FirstBlockOk(c, cfg, known, t, calls);
    Snoc(t.decisions, FirstBlock(c, cfg, known, t, calls));
    hide Blocks, Checkpoints, FirstBlock, WriteNames, Queries;
  }

  lemma {:induction false} AfterKeepsHolds(c: Classifier, t: Turn, replies: seq<Reply>)
    ensures var t' := After(c, t, replies);
            t'.decisions == t.decisions && t'.checkpointed == t.checkpointed && t'.attempts == t.attempts
            && t'.visible == t.visible && t'.intent == t.intent
    decreases |replies|
  {
    if replies != [] {
      AfterKeepsHolds(c, t, replies[..|replies| - 1]);
    }
  }

  lemma {:induction false} PlayBounded(c: Classifier, cfg: Config, intent: Intent, visible: set<string>, events: seq<Event>)
    ensures Bounded(cfg, Play(c, cfg, Fresh(intent, visible), events))
    decreases |events|
  {
    if events != [] {
      var n := |events| - 1;
      PlayBounded(c, cfg, intent, visible, events[..n]);
      var t := Play(c, cfg, Fresh(intent, visible), events[..n]);
      match events[n]
      case Visible(_) =>
      case Proposed(name, arguments, known) => BeforeBounded(c, cfg, known, t, Effective(name, arguments));
      case Returned(name, arguments, result) => AfterKeepsHolds(c, t, Replies(c, name, arguments, result));
    }
  }

  /** In every turn the guard holds at most `maxBlocks` calls and each tool at most once at the checkpoint. */
  lemma HoldsAreBounded(c: Classifier, cfg: Config, intent: Intent, visible: set<string>, events: seq<Event>, tool: string)
    ensures var t := Play(c, cfg, Fresh(intent, visible), events);
            Blocks(t.decisions) <= (if cfg.maxBlocks > 0 then cfg.maxBlocks else 0) && Checkpoints(t.decisions, tool) <= 1
  {
    PlayBounded(c, cfg, intent, visible, events);
  }

  /** A held wrapper records neither attempts nor queries nor outcomes, whatever its other calls are. */
  lemma HeldRecordsNothing(c: Classifier, cfg: Config, known: set<string>, t: Turn, calls: seq<Call>)
    requires FirstBlock(c, cfg, known, t, calls).Block?
    ensures var t' := Before(c, cfg, known, t, calls);
            t' == t.(decisions := t'.decisions, checkpointed := t'.checkpointed)
            && t'.decisions == t.decisions + [FirstBlock(c, cfg, known, t, calls)]
  {
    hide FirstBlock;
  }

  /** The write tools of the proposals that were let through, in order. */
  function AllowedWrites(c: Classifier, cfg: Config, t: Turn, events: seq<Event>): seq<string> {
    if events == [] then []
    else
      var n := |events| - 1;
      AllowedWrites(c, cfg, t, events[..n])
      + match events[n]
        case Proposed(name, arguments, known) =>
          if FirstBlock(c, cfg, known, Play(c, cfg, t, events[..n]), Effective(name, arguments)).Allow?
          then WriteNames(c, Effective(name, arguments)) else []
        case _ => []
  }

  /** The attempts of a turn are exactly the writes of the wrappers that were let through: a held wrapper
      records no attempt, and nothing else does. */
  lemma {:induction false} AttemptsAreAllowedWrites(c: Classifier, cfg: Config, intent: Intent, visible: set<string>,
                                                    events: seq<Event>)
    ensures Play(c, cfg, Fresh(intent, visible), events).attempts
         == AllowedWrites(c, cfg, Fresh(intent, visible), events)
    decreases |events|
  {
    hide FirstBlock, WriteNames, Effective;
    if events != [] {
      var n := |events| - 1;
      AttemptsAreAllowedWrites(c, cfg, intent, visible, events[..n]);
      var t := Play(c, cfg, Fresh(intent, visible), events[..n]);
      match events[n]
      case Visible(_) =>
      case Proposed(name, arguments, known) =>
        if FirstBlock(c, cfg, known, t, Effective(name, arguments)).Block? {
          HeldRecordsNothing(c, cfg, known, t, Effective(name, arguments));
        }
      case Returned(name, arguments, result) =>
        AfterKeepsHolds(c, t, Replies(c, name, arguments, result));
    }
  }

  /** The memory searches of the proposals that were let through, in order. */
  function AllowedQueries(c: Classifier, cfg: Config, t: Turn, events: seq<Event>): seq<string> {
    if events == [] then []
    else
      var n := |events| - 1;
      AllowedQueries(c, cfg, t, events[..n])
      + match events[n]
        case Proposed(name, arguments, known) =>
          if FirstBlock(c, cfg, known, Play(c, cfg, t, events[..n]), Effective(name, arguments)).Allow?
          then Queries(c, Effective(name, arguments)) else []
        case _ => []
  }

  lemma {:induction false} AfterKeepsQueries(c: Classifier, t: Turn, replies: seq<Reply>)
    ensures After(c, t, replies).queries == t.queries
    decreases |replies|
  {
    if replies != [] {
      AfterKeepsQueries(c, t, replies[..|replies| - 1]);
    }
  }

  /** The queries of a turn are exactly the memory searches of the wrappers that were let through. */
  lemma {:induction false} QueriesAreAllowed(c: Classifier, cfg: Config, intent: Intent, visible: set<string>,
                                             events: seq<Event>)
    ensures Play(c, cfg, Fresh(intent, visible), events).queries == AllowedQueries(c, cfg, Fresh(intent, visible), events)
    decreases |events|
  {
    hide FirstBlock, Queries, Effective;
    if events != [] {
      var n := |events| - 1;
      QueriesAreAllowed(c, cfg, intent, visible, events[..n]);
      var t := Play(c, cfg, Fresh(intent, visible), events[..n]);
      match events[n]
      case Visible(_) =>
      case Proposed(name, arguments, known) =>
        if FirstBlock(c, cfg, known, t, Effective(name, arguments)).Block? {
          HeldRecordsNothing(c, cfg, known, t, Effective(name, arguments));
        }
      case Returned(name, arguments, result) =>
        AfterKeepsQueries(c, t, Replies(c, name, arguments, result));
    }
  }

  /** What a wrapper that was let through records: one entry for each write, one for each memory search. */
  lemma {:induction false} RecordedNames(c: Classifier, calls: seq<Call>, n: string)
    ensures n in WriteNames(c, calls)
            <==> exists i :: 0 <= i < |calls| && calls[i].name == n && c.connected(n) && c.writing(n)
    ensures n in Queries(c, calls)
            <==> exists i :: 0 <= i < |calls| && !c.connected(calls[i].name) && c.memory(calls[i].name) && c.query(calls[i]) == n
    decreases |calls|
  {
    if calls != [] {
      var m := |calls| - 1;
      var init := calls[..m];
      RecordedNames(c, init, n);
      assert forall i :: 0 <= i < m ==> init[i] == calls[i];
      if n in WriteNames(c, init) {
        var i :| 0 <= i < |init| && init[i].name == n && c.connected(n) && c.writing(n);
        assert calls[i].name == n;
      }
      if n in Queries(c, init) {
        var i :| 0 <= i < |init| && !c.connected(init[i].name) && c.memory(init[i].name) && c.query(init[i]) == n;
        assert c.query(calls[i]) == n;
      }
    }
  }

  // ---- resubmission ---------------------------------------------------------

  /** Resubmitting one wrapper `times` times. */
  function Resubmit(c: Classifier, cfg: Config, known: set<string>, t: Turn, calls: seq<Call>, times: nat): Turn {
    if times == 0 then t else Before(c, cfg, known, Resubmit(c, cfg, known, t, calls, times - 1), calls)
  }

  /** The write tools of a wrapper that were not held yet. */
  function Unheld(c: Classifier, t: Turn, calls: seq<Call>): set<string> {
    set i | 0 <= i < |calls| && IsWrite(c, calls[i].name) && calls[i].name !in t.checkpointed :: calls[i].name
  }

  /** None of the calls is a local route, so only the checkpoint can hold them. */
  predicate NoLocalRoute(c: Classifier, calls: seq<Call>) {
    forall i :: 0 <= i < |calls| ==> LocalRoute(c, calls[i]).None?
  }

  function Min(a: int, b: int): int {
    if a < b then a else b
  }

  /** Holds still possible for a wrapper: its unheld write tools, within the remaining budget. */
  function Pending(c: Classifier, cfg: Config, t: Turn, calls: seq<Call>): nat {
    var room := Min(|Unheld(c, t, calls)|, cfg.maxBlocks - Blocks(t.decisions));
    if room < 0 then 0 else room
  }

  lemma {:induction false} FirstBlockIs(c: Classifier, cfg: Config, known: set<string>, t: Turn, calls: seq<Call>)
    requires cfg.checkpoint && MemoryVisible(c, t) && NoLocalRoute(c, calls)
    ensures var d := FirstBlock(c, cfg, known, t, calls);
            if Blocks(t.decisions) >= cfg.maxBlocks || Unheld(c, t, calls) == {} then d == Allow
            else d.Block? && d.hold.Checkpoint? && d.hold.tool in Unheld(c, t, calls)
    decreases |calls|
  {
    hide Blocks, MemoryVisible, Substitutes;
    if calls != [] {
      FirstBlockIs(c, cfg, known, t, calls[1..]);
      UnheldCons(c, t, calls);
      assert LocalRoute(c, calls[0]).None?;
    }
  }

  lemma UnheldCons(c: Classifier, t: Turn, calls: seq<Call>)
    requires calls != []
    ensures Unheld(c, t, calls)
            == Unheld(c, t, calls[1..])
               + if IsWrite(c, calls[0].name) && calls[0].name !in t.checkpointed then {calls[0].name} else {}
  {
    var rest := calls[1..];
    forall n | n in Unheld(c, t, calls)
      ensures n == calls[0].name || n in Unheld(c, t, rest)
    {
      var i :| 0 <= i < |calls| && IsWrite(c, calls[i].name) && calls[i].name !in t.checkpointed && calls[i].name == n;
      assert i > 0 ==> rest[i - 1] == calls[i];
    }
    forall n | n in Unheld(c, t, rest)
      ensures n in Unheld(c, t, calls)
    {
      var i :| 0 <= i < |rest| && IsWrite(c, rest[i].name) && rest[i].name !in t.checkpointed && rest[i].name == n;
      assert calls[i + 1] == rest[i];
    }
  }

  /** One submission uses up exactly one pending hold, or is allowed when none is left. */
  lemma SubmissionStep(c: Classifier, cfg: Config, known: set<string>, t: Turn, calls: seq<Call>)
    requires cfg.checkpoint && MemoryVisible(c, t) && NoLocalRoute(c, calls)
    ensures var t' := Before(c, cfg, known, t, calls);
            && MemoryVisible(c, t')
            && (FirstBlock(c, cfg, known, t, calls).Block? <==> Pending(c, cfg, t, calls) > 0)
            && Pending(c, cfg, t', calls) == (if Pending(c, cfg, t, calls) > 0 then Pending(c, cfg, t, calls) - 1 else 0)
            && Blocks(t'.decisions) == Blocks(t.decisions) + if Pending(c, cfg, t, calls) > 0 then 1 else 0
  {
    hide FirstBlock, Blocks, Before, Unheld, MemoryVisible, NoLocalRoute;
    FirstBlockIs(c, cfg, known, t, calls);
    var d, t' := FirstBlock(c, cfg, known, t, calls), Before(c, cfg, known, t, calls);
    Snoc(t.decisions, d);
    BeforeShape(c, cfg, known, t, calls);
    StillVisible(c, t, t');
    if d.Block? {
      UnheldLess(c, t, t', calls, d.hold.tool);
    } else {
      UnheldSame(c, t, t', calls);
    }
  }

  lemma BeforeShape(c: Classifier, cfg: Config, known: set<string>, t: Turn, calls: seq<Call>)
    ensures var d, t' := FirstBlock(c, cfg, known, t, calls), Before(c, cfg, known, t, calls);
            && t'.decisions == t.decisions + [d] && t'.visible == t.visible
            && t'.checkpointed == t.checkpointed + if d.Block? && d.hold.Checkpoint? then {d.hold.tool} else {}
  {
    hide FirstBlock, WriteNames, Queries;
  }

  lemma StillVisible(c: Classifier, t: Turn, t': Turn)
    requires MemoryVisible(c, t) && t'.visible == t.visible
    ensures MemoryVisible(c, t')
  {
  }

  lemma UnheldLess(c: Classifier, t: Turn, t': Turn, calls: seq<Call>, tool: string)
    requires t'.checkpointed == t.checkpointed + {tool} && tool in Unheld(c, t, calls)
    ensures |Unheld(c, t', calls)| == |Unheld(c, t, calls)| - 1
  {
    assert Unheld(c, t', calls) == Unheld(c, t, calls) - {tool};
  }

  lemma UnheldSame(c: Classifier, t: Turn, t': Turn, calls: seq<Call>)
    requires t'.checkpointed == t.checkpointed
    ensures Unheld(c, t', calls) == Unheld(c, t, calls)
  {
  }

  /** With memory visible, resubmitting a wrapper without local routes holds it exactly min(k, budget left)
      times, k being its distinct unheld write tools, and lets it through from then on. */
  lemma {:induction false} ResubmissionHeldExactly(c: Classifier, cfg: Config, known: set<string>, t: Turn,
                                                   calls: seq<Call>, times: nat)
    requires cfg.checkpoint && MemoryVisible(c, t) && NoLocalRoute(c, calls)
    ensures var held := Pending(c, cfg, t, calls);
            var t' := Resubmit(c, cfg, known, t, calls, times);
            && MemoryVisible(c, t')
            && Pending(c, cfg, t', calls) == (if times < held then held - times else 0)
            && Blocks(t'.decisions) == Blocks(t.decisions) + Min(times, held)
            && (FirstBlock(c, cfg, known, t', calls) == Allow <==> times >= held)
    decreases times
  {
    hide Before, FirstBlock, Pending, Blocks, MemoryVisible, NoLocalRoute;
    if times > 0 {
      ResubmissionHeldExactly(c, cfg, known, t, calls, times - 1);
      SubmissionStep(c, cfg, known, Resubmit(c, cfg, known, t, calls, times - 1), calls);
    }
    SubmissionStep(c, cfg, known, Resubmit(c, cfg, known, t, calls, times), calls);
  }

  // ---- when a call is held --------------------------------------------------

  /** The call takes a local route of the given kind that the user did not ask for. */
  ghost predicate Detours(c: Classifier, t: Turn, call: Call, route: Route) {
    LocalRoute(c, call) == Some(route) && !t.intent.explicitLocal
  }

  /** A visible connected tool for a domain of the request that the route would serve. */
  ghost predicate Serves(c: Classifier, t: Turn, route: Route, n: string) {
    && n in t.visible && c.connected(n)
    && exists d :: d in c.domains(n) && d in t.intent.domains && (route.domain == "*" || route.domain == d)
  }

  /** An action was requested and some connected tool could take the call: one that reads for a reading call,
      one that writes for any other. */
  ghost predicate HasSubstitute(c: Classifier, t: Turn, call: Call, route: Route) {
    t.intent.action && exists n :: Serves(c, t, route, n) && (c.reading(call) <==> !IsWrite(c, n))
  }

  lemma SubstitutesExactly(c: Classifier, t: Turn, call: Call, route: Route)
    ensures Substitutes(c, t, call, route.domain) != {} <==> HasSubstitute(c, t, call, route)
    ensures HasSubstitute(c, t, call, route) ==>
              forall n :: n in Substitutes(c, t, call, route.domain) <==> Serves(c, t, route, n)
  {
    var domain := route.domain;
    var targets := if domain == "*" then t.intent.domains else {domain} * t.intent.domains;
    var tools := set n | n in t.visible && c.connected(n) && c.domains(n) * targets != {};
    forall n
      ensures n in tools <==> Serves(c, t, route, n)
    {
      if n in tools {
        var d :| d in c.domains(n) * targets;
        assert Serves(c, t, route, n);
      }
      if Serves(c, t, route, n) {
        var d :| d in c.domains(n) && d in t.intent.domains && (route.domain == "*" || route.domain == d);
        assert d in c.domains(n) * targets;
      }
    }
    if n :| Serves(c, t, route, n) {
      assert n in tools && targets != {};
    }
  }

  /** A memory tool or the fact search is visible. */
  ghost predicate CanSearch(c: Classifier, t: Turn) {
    exists n :: n in t.visible && ((c.memory(n) && !c.connected(n)) || c.factSearch(n))
  }

  lemma SearchIs(c: Classifier, t: Turn)
    ensures MemoryVisible(c, t) <==> CanSearch(c, t)
  {
  }

  /** The tools a turn sees are those it began with and all that became visible since. */
  lemma {:induction false} VisibleExactly(c: Classifier, cfg: Config, intent: Intent, visible: set<string>,
                                          events: seq<Event>, n: string)
    ensures n in Play(c, cfg, Fresh(intent, visible), events).visible
            <==> n in visible || exists m :: 0 <= m < |events| && events[m].Visible? && n in events[m].names
    decreases |events|
  {
    hide FirstBlock, WriteNames, Queries, Effective;
    if events != [] {
      var m := |events| - 1;
      var init := events[..m];
      VisibleExactly(c, cfg, intent, visible, init, n);
      assert forall i :: 0 <= i < m ==> init[i] == events[i];
      if i :| 0 <= i < |init| && init[i].Visible? && n in init[i].names {
        assert n in events[i].names;
      }
      var t := Play(c, cfg, Fresh(intent, visible), init);
      match events[m]
      case Visible(_) =>
      case Proposed(name, arguments, known) => BeforeShape(c, cfg, known, t, Effective(name, arguments));
      case Returned(name, arguments, result) => AfterKeepsHolds(c, t, Replies(c, name, arguments, result));
    }
  }

  /** Every decision, by its own condition: a detour is redirected while the budget lasts and a connected tool
      could do it, else held if the route is known to fail; a write is held once, if memory is visible. */
  lemma DecidesExactly(c: Classifier, cfg: Config, known: set<string>, t: Turn, call: Call)
    ensures var d := Decide(c, cfg, known, t, call);
            var budget := Blocks(t.decisions) < cfg.maxBlocks;
            && (d.Block? && d.hold.Redirect?
                <==> budget && exists route :: Detours(c, t, call, route) && HasSubstitute(c, t, call, route))
            && (d.Block? && d.hold.KnownFailure?
                <==> budget && exists route :: Detours(c, t, call, route) && !HasSubstitute(c, t, call, route)
                                               && route.signature in known)
            && (d.Block? && d.hold.Checkpoint?
                <==> && budget && cfg.checkpoint && c.connected(call.name) && c.writing(call.name)
                     && call.name !in t.checkpointed && CanSearch(c, t))
            && (d.Block? && d.hold.Redirect? ==>
                  forall route :: Detours(c, t, call, route) ==>
                                    d.hold.signature == route.signature
                                    && forall n :: n in d.hold.tools <==> Serves(c, t, route, n))
            && (d.Block? && d.hold.KnownFailure? ==>
                  forall route :: Detours(c, t, call, route) ==> d.hold.signature == route.signature)
            && (d.Block? && d.hold.Checkpoint? ==> d.hold.tool == call.name)
  {
    hide Substitutes, HasSubstitute, Serves, Blocks, MemoryVisible, CanSearch;
    SearchIs(c, t);
    var route := LocalRoute(c, call);
    if route.Some? {
      SubstitutesExactly(c, t, call, route.value);
    }
  }

  /** A wrapper is held exactly when one of its calls is, and then for the first such call. */
  lemma {:induction false} HeldForTheFirst(c: Classifier, cfg: Config, known: set<string>, t: Turn, calls: seq<Call>)
    ensures var d := FirstBlock(c, cfg, known, t, calls);
            && (d == Allow <==> forall i :: 0 <= i < |calls| ==> Decide(c, cfg, known, t, calls[i]) == Allow)
            && (d != Allow ==>
                  exists i :: 0 <= i < |calls| && d == Decide(c, cfg, known, t, calls[i])
                              && forall j :: 0 <= j < i ==> Decide(c, cfg, known, t, calls[j]) == Allow)
    decreases |calls|
  {
    hide Decide;
    if calls != [] {
      var rest, d := calls[1..], FirstBlock(c, cfg, known, t, calls);
      HeldForTheFirst(c, cfg, known, t, rest);
      assert forall i :: 0 < i < |calls| ==> calls[i] == rest[i - 1];
      if Decide(c, cfg, known, t, calls[0]) == Allow && d != Allow {
        var i :| 0 <= i < |rest| && d == Decide(c, cfg, known, t, rest[i])
                 && forall j :: 0 <= j < i ==> Decide(c, cfg, known, t, rest[j]) == Allow;
        assert d == Decide(c, cfg, known, t, calls[i + 1]);
        assert forall j :: 0 <= j < i + 1 ==> Decide(c, cfg, known, t, calls[j]) == Allow;
      }
    }
  }
}
