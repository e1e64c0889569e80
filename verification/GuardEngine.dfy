/** The guard as objects that are updated in place: the turn record and the session table. */
module GuardEngine {
  import opened Wrappers
  import opened GuardResults
  import opened Guard
  import opened GuardSessions

  class TurnState {
    const intent: Intent
    var visible: set<string>
    var decisions: seq<Decision>
    var attempts: seq<string>
    var accepted: seq<string>
    var failed: seq<string>
    var unconfirmed: seq<string>
    var undispatched: seq<string>
    var outcomes: map<string, Entry>
    var localAccepted: seq<string>
    var queries: seq<string>
    var checkpointed: set<string>

    ghost function View(): Turn
      reads this
    {
      Turn(intent, visible, decisions, attempts, accepted, failed, unconfirmed, undispatched, outcomes,
           localAccepted, queries, checkpointed)
    }

    constructor (intent: Intent, visible: set<string>)
      ensures View() == Fresh(intent, visible)
    {
      this.intent, this.visible := intent, visible;
      decisions, attempts, accepted, failed, unconfirmed, undispatched := [], [], [], [], [], [];
      outcomes, localAccepted, queries, checkpointed := map[], [], [], {};
    }

    method CountBlocks() returns (n: nat)
      ensures n == Blocks(decisions)
    {
      n := 0;
      for i := 0 to |decisions|
        invariant n == Blocks(decisions[..i])
      {
        assert decisions[..i + 1][..i] == decisions[..i];
        if decisions[i].Block? {
          n := n + 1;
        }
      }
      assert decisions[..|decisions|] == decisions;
    }

    /** `_decide`; a checkpoint hold marks the tool. */
    method DecideCall(c: Classifier, cfg: Config, known: set<string>, call: Call) returns (d: Decision)
      modifies this`checkpointed
      ensures d == Decide(c, cfg, known, old(View()), call)
      ensures checkpointed == old(checkpointed) + if d.Block? && d.hold.Checkpoint? then {call.name} else {}
    {
      var used := CountBlocks();
      if used >= cfg.maxBlocks {
        return Allow;
      }
      var route := LocalRoute(c, call);
      if route.Some? && !intent.explicitLocal {
        var tools := Replacements(c, call, route.value.domain);
        if tools != {} {
          return Block(Redirect(route.value.signature, tools));
        }
        if route.value.signature in known {
          return Block(KnownFailure(route.value.signature));
        }
      }
      var visibleMemory := exists n :: n in visible && (IsMemoryTool(c, n) || c.factSearch(n));
      if cfg.checkpoint && IsWrite(c, call.name) && call.name !in checkpointed && visibleMemory {
        checkpointed := checkpointed + {call.name};
        return Block(Checkpoint(call.name));
      }
      return Allow;
    }

    method Replacements(c: Classifier, call: Call, domain: string) returns (tools: set<string>)
      ensures tools == Substitutes(c, View(), call, domain)
    {
      var targets := if domain == "*" then intent.domains else {domain} * intent.domains;
      if !intent.action || targets == {} {
        return {};
      }
      tools := set n | n in visible && c.connected(n) && c.domains(n) * targets != {};
      var keep := if c.reading(call) then exists n :: n in tools && !IsWrite(c, n)
      else exists n :: n in tools && IsWrite(c, n);
      if !keep {
        tools := {};
      }
    }

    /** `before_call`: the first hold wins and records nothing else; otherwise writes and queries are noted. */
    method BeforeCall(c: Classifier, cfg: Config, known: set<string>, name: string, arguments: Json)
      returns (d: Decision)
      modifies this
      ensures d == FirstBlock(c, cfg, known, old(View()), Effective(name, arguments))
      ensures View() == Handle(c, cfg, old(View()), Proposed(name, arguments, known))
    {
      hide Effective;
      var calls := Effective(name, arguments);
      ghost var t := View();
      for i := 0 to |calls|
        invariant View() == t
        invariant FirstBlock(c, cfg, known, t, calls) == FirstBlock(c, cfg, known, t, calls[i..])
      {
        d := DecideCall(c, cfg, known, calls[i]);
        assert calls[i..][0] == calls[i] && calls[i..][1..] == calls[i + 1..];
        if d.Block? {
          decisions := decisions + [d];
          return;
        }
        assert checkpointed == t.checkpointed;
      }
      assert calls[|calls|..] == [];
      NoteAttempts(c, calls);
      d := Allow;
      decisions := decisions + [d];
    }

    method NoteAttempts(c: Classifier, calls: seq<Call>)
      modifies this`attempts, this`queries
      ensures attempts == old(attempts) + WriteNames(c, calls)
      ensures queries == old(queries) + Queries(c, calls)
    {
      for i := 0 to |calls|
        invariant attempts == old(attempts) + WriteNames(c, calls[..i])
        invariant queries == old(queries) + Queries(c, calls[..i])
      {
        assert calls[..i + 1][..i] == calls[..i];
        if IsMemoryTool(c, calls[i].name) {
          queries := queries + [c.query(calls[i])];
        } else if IsWrite(c, calls[i].name) {
          attempts := attempts + [calls[i].name];
        }
      }
      assert calls[..|calls|] == calls;
    }

    /** `after_call`: the raw call is unwrapped, the raw result gives each effective call its status. */
    method AfterCall(c: Classifier, cfg: Config, name: string, arguments: Json, result: Json)
      modifies this
      ensures View() == Handle(c, cfg, old(View()), Returned(name, arguments, result))
    {
      hide Effective, PerCallStatus;
      var calls := Effective(name, arguments);
      var replies := Zip(calls, PerCallStatus(c.reader, result, |calls|));
      ghost var t := View();
      for i := 0 to |replies|
        invariant View() == After(c, t, replies[..i])
      {
        assert replies[..i + 1][..i] == replies[..i];
        RecordReply(c, replies[i]);
      }
      assert replies[..|replies|] == replies;
    }

    method RecordReply(c: Classifier, r: Reply)
      modifies this
      ensures View() == Record(c, old(View()), r)
    {
      var name, key, route := r.call.name, c.operation(r.call), LocalRoute(c, r.call);
      if route.Some? && r.status == Accepted {
        localAccepted := localAccepted + [route.value.signature];
      }
      if IsWrite(c, name) {
        if r.status == Undispatched {
          undispatched := undispatched + [name];
        } else {
          if r.status == Accepted {
            accepted := accepted + [name];
          } else if r.status == Failed {
            failed := failed + [name];
          } else {
            unconfirmed := unconfirmed + [name];
          }
          if !(key in outcomes && outcomes[key].status == Accepted) {
            outcomes := outcomes[key := Entry(name, r.status)];
          }
        }
      }
    }

    /** `verdict`. */
    method Verdict(c: Classifier) returns (v: Guard.Verdict)
      ensures v == Judge(c, View())
    {
      if !intent.action {
        return NoActionRequested(accepted);
      }
      if intent.explicitLocal {
        var done := if localAccepted != [] then localAccepted else accepted;
        return if done != [] then CompletedLocal(done) else UnverifiedLocal;
      }
      var matched := SelectRequested(c);
      if matched != [] {
        var missing := set k | k in outcomes && outcomes[k].status != Accepted :: outcomes[k].tool;
        return if missing != {} then Partial(matched, missing) else Completed(matched);
      }
      if accepted != [] {
        return NotCompleted(WrongDestination, accepted);
      }
      if unconfirmed != [] {
        return NotCompleted(NotConfirmed, unconfirmed);
      }
      if failed != [] {
        return NotCompleted(Rejected, failed);
      }
      if undispatched != [] {
        return NotCompleted(NotDispatched, undispatched);
      }
      return NotCompleted(NotAttempted, []);
    }

    method SelectRequested(c: Classifier) returns (matched: seq<string>)
      ensures matched == Matched(c, intent, accepted)
    {
      matched := [];
      for i := 0 to |accepted|
        invariant matched == Matched(c, intent, accepted[..i])
      {
        assert accepted[..i + 1][..i] == accepted[..i];
        if Requested(c, intent, accepted[i]) {
          matched := matched + [accepted[i]];
        }
      }
      assert accepted[..|accepted|] == accepted;
    }
  }

  /** The guard: an insertion-ordered session table with a size limit. */
  class ActionGuard {
    const cfg: Config
    const idle: Intent
    const limit: int
    var order: seq<SessionId>
    var turns: map<SessionId, TurnState>

    ghost predicate Valid()
      reads this, turns.Values
    {
      && Wf(View())
      && (forall x, y :: x in turns && y in turns && x != y ==> turns[x] != turns[y])
    }

    ghost function View(): Sessions
      reads this, turns.Values
    {
      Sessions(order, map x | x in turns :: turns[x].View())
    }

    constructor (cfg: Config, idle: Intent, limit: int)
      ensures Valid() && View() == Sessions([], map[])
      ensures this.cfg == cfg && this.idle == idle && this.limit == limit
    {
      this.cfg, this.idle, this.limit := cfg, idle, limit;
      order, turns := [], map[];
    }

    /** `_evict`. */
    method DropOldest()
      requires Valid()
      modifies this`order, this`turns
      ensures Valid() && View() == Evict(old(View()), limit)
      ensures forall x :: x in turns ==> x in old(turns) && turns[x] == old(turns)[x]
    {
      hide Evict, Wf, TurnState.View;
      while |order| > limit && order != []
        invariant Valid()
        invariant forall x :: x in turns ==> x in old(turns) && turns[x] == old(turns)[x]
        invariant Evict(View(), limit) == Evict(old(View()), limit)
        decreases |order|
      {
        ghost var before := View();
        EvictStep(before, limit);
        turns, order := turns - {order[0]}, order[1..];
        TurnDropped(before, View(), before.order[0]);
      }
      EvictDone(View(), limit);
    }

    /** `_state`: the turn of a session, created idle when unknown; none when it does not fit. */
    method StateOf(x: SessionId) returns (t: Option<TurnState>)
      requires Valid()
      modifies this`order, this`turns
      ensures Valid() && View() == Ensure(old(View()), x, idle, limit)
      ensures t.Some? <==> x in turns
      ensures t.Some? ==> t.value == turns[x] && (t.value in old(turns.Values) || fresh(t.value))
      ensures forall y :: y in turns && y != x ==> y in old(turns) && turns[y] == old(turns)[y]
    {
      hide Evict, Wf, Without;
      if x !in turns {
        var added := new TurnState(idle, {});
        AppendedWf(View(), x, Fresh(idle, {}));
        order, turns := order + [x], turns[x := added];
        assert View() == Sessions(old(View()).order + [x], old(View()).turns[x := Fresh(idle, {})]);
        DropOldest();
      }
      t := if x in turns then Some(turns[x]) else None;
    }

    /** `begin_turn`. */
    method BeginTurn(x: SessionId, c: Classifier, intent: Intent, visible: set<string>)
      requires Valid()
      modifies this`order, this`turns
      ensures Valid() && View() == Feed(c, cfg, idle, limit, old(View()), x, Begin(intent, visible))
    {
      hide Evict, Wf, Without;
      var begun := new TurnState(intent, visible);
      BegunWf(View(), x, Fresh(intent, visible));
      order, turns := Without(order, x) + [x], turns[x := begun];
      assert View() == Sessions(Without(old(View()).order, x) + [x], old(View()).turns[x := Fresh(intent, visible)]);
      DropOldest();
    }

    /** `before_call`; `None` stands for the lookup error of a table without room. */
    method BeforeCall(x: SessionId, c: Classifier, known: set<string>, name: string, arguments: Json)
      returns (d: Option<Decision>)
      requires Valid()
      modifies this`order, this`turns, turns.Values
      ensures Valid() && View() == Feed(c, cfg, idle, limit, old(View()), x, On(Proposed(name, arguments, known)))
      ensures d.None? <==> x !in turns
    {
      hide Evict, Wf, Without, Ensure, Handle, FirstBlock, Effective;
      var t := StateOf(x);
      if t.None? {
        return None;
      }
      ghost var s := View();
      var decision := t.value.BeforeCall(c, cfg, known, name, arguments);
      TurnsAfter(s, View(), x, t.value.View());
      return Some(decision);
    }

    /** `after_call`: the statuses of the effective calls are read off the raw result. */
    method AfterCall(x: SessionId, c: Classifier, name: string, arguments: Json, result: Json)
      requires Valid()
      modifies this`order, this`turns, turns.Values
      ensures Valid() && View() == Feed(c, cfg, idle, limit, old(View()), x, On(Returned(name, arguments, result)))
    {
      hide Evict, Wf, Without, Ensure, Handle, Replies;
      var t := StateOf(x);
      if t.Some? {
        ghost var s := View();
        t.value.AfterCall(c, cfg, name, arguments, result);
        TurnsAfter(s, View(), x, t.value.View());
      }
    }

    /** `verdict`; an unknown session gets an idle turn first. */
    method VerdictOf(x: SessionId, c: Classifier) returns (v: Option<Guard.Verdict>)
      requires Valid()
      modifies this`order, this`turns
      ensures Valid() && View() == Feed(c, cfg, idle, limit, old(View()), x, Ask)
      ensures v == if x in View().turns then Some(Judge(c, View().turns[x])) else None
    {
      hide Evict, Wf, Without, Ensure, Judge;
      var t := StateOf(x);
      if t.None? {
        return None;
      }
      var verdict := t.value.Verdict(c);
      return Some(verdict);
    }

    /** `finish`: the turn is released after its record is taken. */
    method FinishTurn(x: SessionId, c: Classifier) returns (v: Option<Guard.Verdict>)
      requires Valid()
      modifies this`order, this`turns
      ensures Valid() && View() == Feed(c, cfg, idle, limit, old(View()), x, Finish)
      ensures limit >= 1 ==> x !in turns
    {
      hide Evict, Wf, Without, Ensure, Judge, TurnState.View;
      v := VerdictOf(x, c);
      if x in turns {
        ghost var before := View();
        DroppedWf(before, x);
        turns, order := turns - {x}, Without(order, x);
        TurnDropped(before, View(), x);
      }
    }
  }

  lemma DroppedWf(s: Sessions, x: SessionId)
    requires Wf(s)
    ensures Wf(Drop(s, x))
  {
    WithoutDistinct(s.order, x);
  }

  lemma EvictDone(s: Sessions, limit: int)
    requires |s.order| <= limit || s.order == []
    ensures Evict(s, limit) == s
  {
  }

  lemma TurnDropped(s: Sessions, s': Sessions, x: SessionId)
    requires s'.turns.Keys == s.turns.Keys - {x} && forall y :: y in s'.turns ==> s'.turns[y] == s.turns[y]
    ensures s'.turns == s.turns - {x}
  {
  }

  /** Updating one turn keeps the table well formed. */
  lemma TurnsAfter(s: Sessions, s': Sessions, x: SessionId, t: Turn)
    requires Wf(s) && x in s.turns && s'.order == s.order
    requires s'.turns.Keys == s.turns.Keys && s'.turns[x] == t
    requires forall y :: y in s.turns && y != x ==> s'.turns[y] == s.turns[y]
    ensures Wf(s') && s' == s.(turns := s.turns[x := t])
  {
  }
}
