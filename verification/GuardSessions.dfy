/** The guard's bounded, ordered map of sessions: every resident turn is the play of its own events. */
module GuardSessions {
  import opened Wrappers
  import opened Sequences
  import opened Guard
  import opened GuardTheorems

  type SessionId = nat

  /** An insertion-ordered map from session to turn. */
  datatype Sessions = Sessions(order: seq<SessionId>, turns: map<SessionId, Turn>)

  /** A new turn, an event of the current turn, a question about it (`verdict`, `record`), or its end. */
  datatype Input = Begin(intent: Intent, visible: set<string>) | On(event: Event) | Ask | Finish

  ghost predicate Wf(s: Sessions) {
    && (forall x :: x in s.order <==> x in s.turns)
    && Distinct(s.order)
  }

  function Without(order: seq<SessionId>, x: SessionId): (r: seq<SessionId>)
    ensures forall y :: y in r <==> y in order && y != x
    ensures |r| <= |order|
  {
    if order == [] then [] else (if order[0] == x then [] else [order[0]]) + Without(order[1..], x)
  }

  /** `_evict`: the oldest sessions go first. */
  function Evict(s: Sessions, limit: int): Sessions
    decreases |s.order|
  {
    if |s.order| <= limit || s.order == [] then s
    else Evict(Sessions(s.order[1..], s.turns - {s.order[0]}), limit)
  }

  /** `_state`: an unknown session starts an idle turn. */
  function Ensure(s: Sessions, x: SessionId, idle: Intent, limit: int): Sessions {
    if x in s.turns then s else Evict(Sessions(s.order + [x], s.turns[x := Fresh(idle, {})]), limit)
  }

  function Feed(c: Classifier, cfg: Config, idle: Intent, limit: int, s: Sessions, x: SessionId, input: Input): Sessions {
    match input
    case Begin(intent, visible) =>
      Evict(Sessions(Without(s.order, x) + [x], s.turns[x := Fresh(intent, visible)]), limit)
    case On(e) =>
      var s1 := Ensure(s, x, idle, limit);
      if x !in s1.turns then s1 else s1.(turns := s1.turns[x := Handle(c, cfg, s1.turns[x], e)])
    case Ask => Ensure(s, x, idle, limit)
    case Finish =>
      var s1 := Ensure(s, x, idle, limit);
      if x !in s1.turns then s1 else Drop(s1, x)
  }

  /** `turns.pop(session_id)`. */
  function Drop(s: Sessions, x: SessionId): Sessions {
    Sessions(Without(s.order, x), s.turns - {x})
  }

  function Serve(c: Classifier, cfg: Config, idle: Intent, limit: int, inputs: seq<(SessionId, Input)>): Sessions {
    if inputs == [] then Sessions([], map[])
    else
      var (x, input) := inputs[|inputs| - 1];
      Feed(c, cfg, idle, limit, Serve(c, cfg, idle, limit, inputs[..|inputs| - 1]), x, input)
  }

  // ---- the ordered map ------------------------------------------------------

  lemma {:induction false} WithoutDistinct(order: seq<SessionId>, x: SessionId)
    requires Distinct(order)
    ensures Distinct(Without(order, x))
    decreases |order|
  {
    if order != [] {
      var rest := Without(order[1..], x);
      WithoutDistinct(order[1..], x);
      assert order[0] !in rest;
      if order[0] != x {
        assert Without(order, x) == [order[0]] + rest;
      } else {
        assert Without(order, x) == rest;
      }
    }
  }

  /** `begin_turn` moves the session to the end. */
  lemma BegunWf(s: Sessions, x: SessionId, t: Turn)
    requires Wf(s)
    ensures Wf(Sessions(Without(s.order, x) + [x], s.turns[x := t]))
  {
    WithoutDistinct(s.order, x);
    var rest := Without(s.order, x);
    assert forall i :: 0 <= i < |rest| ==> rest[i] in rest;
  }

  lemma AppendedWf(s: Sessions, x: SessionId, t: Turn)
    requires Wf(s) && x !in s.turns
    ensures Wf(Sessions(s.order + [x], s.turns[x := t]))
  {
    assert forall i :: 0 <= i < |s.order| ==> s.order[i] in s.order;
  }

  lemma EvictStep(s: Sessions, limit: int)
    requires Wf(s) && |s.order| > limit && s.order != []
    ensures var rest := Sessions(s.order[1..], s.turns - {s.order[0]});
            Wf(rest) && Evict(s, limit) == Evict(rest, limit)
  {
    assert forall x :: x in s.order ==> x == s.order[0] || x in s.order[1..];
    assert s.order[0] !in s.order[1..];
  }

  /** Eviction keeps exactly the newest `limit` sessions and their turns. */
  lemma {:induction false} EvictKeepsNewest(s: Sessions, limit: int)
    requires Wf(s)
    ensures var r := Evict(s, limit);
            && Wf(r) && |r.order| <= |s.order| && (|r.order| <= limit || r.order == [])
            && r.order == s.order[|s.order| - |r.order|..]
            && (limit >= 0 && |s.order| >= limit ==> |r.order| == limit)
            && (forall x :: x in r.turns ==> x in s.turns && r.turns[x] == s.turns[x])
    decreases |s.order|
  {
    if !(|s.order| <= limit || s.order == []) {
      hide Wf;
      EvictStep(s, limit);
      EvictKeepsNewest(Sessions(s.order[1..], s.turns - {s.order[0]}), limit);
    }
  }

  /** A turn that some sequence of events leads to. */
  ghost predicate Played(c: Classifier, cfg: Config, t: Turn) {
    exists intent, visible, events :: t == Play(c, cfg, Fresh(intent, visible), events)
  }

  lemma PlayedFresh(c: Classifier, cfg: Config, intent: Intent, visible: set<string>)
    ensures Played(c, cfg, Fresh(intent, visible))
  {
    assert Play(c, cfg, Fresh(intent, visible), []) == Fresh(intent, visible);
  }

  lemma PlayedStep(c: Classifier, cfg: Config, t: Turn, e: Event)
    requires Played(c, cfg, t)
    ensures Played(c, cfg, Handle(c, cfg, t, e))
  {
    var intent, visible, events :| t == Play(c, cfg, Fresh(intent, visible), events);
    var longer := events + [e];
    assert longer[..|events|] == events;
    assert Play(c, cfg, Fresh(intent, visible), longer) == Handle(c, cfg, t, e);
  }

  ghost predicate AllPlayed(c: Classifier, cfg: Config, s: Sessions) {
    forall x :: x in s.turns ==> Played(c, cfg, s.turns[x])
  }

  predicate Fits(s: Sessions, limit: int) {
    |s.order| <= limit || s.order == []
  }

  /** Every turn of `r` but that of `x` is a turn of `s`. */
  ghost predicate Keeps(s: Sessions, r: Sessions, x: SessionId) {
    forall y :: y in r.turns && y != x ==> y in s.turns && r.turns[y] == s.turns[y]
  }

  /** Adding `x` as the newest session and evicting. */
  lemma AddShape(s: Sessions, added: Sessions, x: SessionId, t: Turn, limit: int)
    requires Wf(added) && added.turns == s.turns[x := t] && added.order != [] && added.order[|added.order| - 1] == x
    ensures var r := Evict(added, limit);
            Wf(r) && Fits(r, limit) && Keeps(s, r, x) && (x in r.turns ==> r.turns[x] == t)
            && (limit >= 1 ==> x in r.turns)
  {
    hide Wf, Evict;
    EvictKeepsNewest(added, limit);
    if limit >= 1 {
      LastStays(added, limit);
    }
  }

  lemma BeginShape(s: Sessions, x: SessionId, t: Turn, limit: int)
    requires Wf(s)
    ensures var r := Evict(Sessions(Without(s.order, x) + [x], s.turns[x := t]), limit);
            Wf(r) && Fits(r, limit) && Keeps(s, r, x) && (x in r.turns ==> r.turns[x] == t)
            && (limit >= 1 ==> x in r.turns)
  {
    hide Wf, Evict, Without;
    BegunWf(s, x, t);
    AddShape(s, Sessions(Without(s.order, x) + [x], s.turns[x := t]), x, t, limit);
  }

  lemma EnsureShape(s: Sessions, x: SessionId, idle: Intent, limit: int)
    requires Wf(s) && Fits(s, limit)
    ensures var r := Ensure(s, x, idle, limit);
            Wf(r) && Fits(r, limit) && Keeps(s, r, x)
            && (x in r.turns ==> r.turns[x] == if x in s.turns then s.turns[x] else Fresh(idle, {}))
            && (limit >= 1 ==> x in r.turns)
  {
    hide Fresh, Wf, Evict;
    if x !in s.turns {
      AppendedWf(s, x, Fresh(idle, {}));
      AddShape(s, Sessions(s.order + [x], s.turns[x := Fresh(idle, {})]), x, Fresh(idle, {}), limit);
    }
  }

  lemma FeedOk(c: Classifier, cfg: Config, idle: Intent, limit: int, s: Sessions, x: SessionId, input: Input)
    requires Wf(s) && AllPlayed(c, cfg, s) && Fits(s, limit)
    ensures var r := Feed(c, cfg, idle, limit, s, x, input);
            Wf(r) && AllPlayed(c, cfg, r) && Fits(r, limit)
  {
    hide Played, Handle, Fresh, Evict, Ensure, Without, Distinct;
    match input
    case Begin(intent, visible) =>
      PlayedFresh(c, cfg, intent, visible);
      BeginShape(s, x, Fresh(intent, visible), limit);
    case On(e) =>
      PlayedFresh(c, cfg, idle, {});
      EnsureShape(s, x, idle, limit);
      var s1 := Ensure(s, x, idle, limit);
      if x in s1.turns {
        PlayedStep(c, cfg, s1.turns[x], e);
      }
    case Ask =>
      PlayedFresh(c, cfg, idle, {});
      EnsureShape(s, x, idle, limit);
    case Finish =>
      PlayedFresh(c, cfg, idle, {});
      EnsureShape(s, x, idle, limit);
      DropShape(Ensure(s, x, idle, limit), x, limit);
  }

  lemma DropShape(s: Sessions, x: SessionId, limit: int)
    requires Wf(s) && Fits(s, limit)
    ensures Wf(Drop(s, x)) && Fits(Drop(s, x), limit) && Keeps(s, Drop(s, x), x) && x !in Drop(s, x).turns
  {
    WithoutDistinct(s.order, x);
    if s.order == [] {
      assert Without(s.order, x) == [];
    }
  }

  lemma {:induction false} ServeOk(c: Classifier, cfg: Config, idle: Intent, limit: int, inputs: seq<(SessionId, Input)>)
    ensures var s := Serve(c, cfg, idle, limit, inputs);
            Wf(s) && AllPlayed(c, cfg, s) && Fits(s, limit)
    decreases |inputs|
  {
    hide Feed, Played;
    if inputs != [] {
      var n := |inputs| - 1;
      ServeOk(c, cfg, idle, limit, inputs[..n]);
      FeedOk(c, cfg, idle, limit, Serve(c, cfg, idle, limit, inputs[..n]), inputs[n].0, inputs[n].1);
    }
  }

  /** While a session is resident, whatever any session does, its turn stays within the hold bounds. */
  lemma ResidentTurnsAreBounded(c: Classifier, cfg: Config, idle: Intent, limit: int, inputs: seq<(SessionId, Input)>,
                                x: SessionId, tool: string)
    requires x in Serve(c, cfg, idle, limit, inputs).turns
    ensures var t := Serve(c, cfg, idle, limit, inputs).turns[x];
            Blocks(t.decisions) <= (if cfg.maxBlocks > 0 then cfg.maxBlocks else 0) && Checkpoints(t.decisions, tool) <= 1
  {
    ServeOk(c, cfg, idle, limit, inputs);
    var t := Serve(c, cfg, idle, limit, inputs).turns[x];
    assert Played(c, cfg, t);
    var intent, visible, events :| t == Play(c, cfg, Fresh(intent, visible), events);
    HoldsAreBounded(c, cfg, intent, visible, events, tool);
  }

  /** Serving one session never alters the turn of another session that stays resident, and with room for
      at least one session the served session is resident until it is finished. */
  lemma SessionsAreIsolated(c: Classifier, cfg: Config, idle: Intent, limit: int, s: Sessions, x: SessionId, input: Input)
    requires Wf(s) && Fits(s, limit)
    ensures Keeps(s, Feed(c, cfg, idle, limit, s, x, input), x)
    ensures limit >= 1 ==> (x in Feed(c, cfg, idle, limit, s, x, input).turns <==> !input.Finish?)
  {
    hide Handle, Fresh, Evict, Ensure, Without, Wf;
    match input
    case Begin(intent, visible) => BeginShape(s, x, Fresh(intent, visible), limit);
    case On(e) => EnsureShape(s, x, idle, limit);
    case Ask => EnsureShape(s, x, idle, limit);
    case Finish =>
      EnsureShape(s, x, idle, limit);
      DropShape(Ensure(s, x, idle, limit), x, limit);
  }

  lemma LastStays(s: Sessions, limit: int)
    requires Wf(s) && limit >= 1 && s.order != []
    ensures s.order[|s.order| - 1] in Evict(s, limit).turns
  {
    EvictKeepsNewest(s, limit);
    var r := Evict(s, limit);
    assert |r.order| >= 1;
    assert r.order[|r.order| - 1] == s.order[|s.order| - 1];
  }

  // ---- a turn is the play of its own session --------------------------------

  /** How a session's turn started, and the events of the session since. */
  datatype Story = Story(intent: Intent, visible: set<string>, events: seq<Event>)

  /** The story of a resident session: it restarts when the session begins a turn, or idle when an unknown session
      is served, and goes on with each event of this session only. */
  function StoryOf(c: Classifier, cfg: Config, idle: Intent, limit: int, inputs: seq<(SessionId, Input)>, x: SessionId): Option<Story> {
    if inputs == [] || x !in Serve(c, cfg, idle, limit, inputs).turns then None
    else
      var n := |inputs| - 1;
      var before := StoryOf(c, cfg, idle, limit, inputs[..n], x);
      var (y, input) := inputs[n];
      if y != x then before
      else
        var current := if before.Some? then before.value else Story(idle, {}, []);
        match input
        case Begin(intent, visible) => Some(Story(intent, visible, []))
        case On(e) => Some(current.(events := current.events + [e]))
        case Ask => Some(current)
        case Finish => None
  }

  function Told(c: Classifier, cfg: Config, story: Story): Turn {
    Play(c, cfg, Fresh(story.intent, story.visible), story.events)
  }

  lemma ToldNext(c: Classifier, cfg: Config, story: Story, e: Event)
    ensures Told(c, cfg, story.(events := story.events + [e])) == Handle(c, cfg, Told(c, cfg, story), e)
  {
    var longer := story.events + [e];
    assert longer[..|story.events|] == story.events;
  }

  lemma ToldFresh(c: Classifier, cfg: Config, intent: Intent, visible: set<string>)
    ensures Told(c, cfg, Story(intent, visible, [])) == Fresh(intent, visible)
  {
  }

  /** What serving a session does to its own turn. */
  lemma FeedOwn(c: Classifier, cfg: Config, idle: Intent, limit: int, s: Sessions, x: SessionId, input: Input)
    requires Wf(s) && Fits(s, limit) && x in Feed(c, cfg, idle, limit, s, x, input).turns
    ensures var t := Feed(c, cfg, idle, limit, s, x, input).turns[x];
            var was := if x in s.turns then s.turns[x] else Fresh(idle, {});
            match input
            case Begin(intent, visible) => t == Fresh(intent, visible)
            case On(e) => t == Handle(c, cfg, was, e)
            case Ask => t == was
            case Finish => false
  {
    hide Handle, Fresh, Evict, Ensure, Without, Wf;
    match input
    case Begin(intent, visible) => BeginShape(s, x, Fresh(intent, visible), limit);
    case On(e) => EnsureShape(s, x, idle, limit);
    case Ask => EnsureShape(s, x, idle, limit);
    case Finish =>
      EnsureShape(s, x, idle, limit);
      DropShape(Ensure(s, x, idle, limit), x, limit);
  }

  /** In every run of any number of sessions, the turn of a resident session is the play of its own events since it
      last began. */
  lemma {:induction false} ResidentTurnIsItsStory(c: Classifier, cfg: Config, idle: Intent, limit: int,
                                                  inputs: seq<(SessionId, Input)>, x: SessionId)
    ensures var s, story := Serve(c, cfg, idle, limit, inputs), StoryOf(c, cfg, idle, limit, inputs, x);
            && (x in s.turns <==> story.Some?)
            && (x in s.turns ==> s.turns[x] == Told(c, cfg, story.value))
    decreases |inputs|
  {
    hide Feed, Told, Handle, Fresh, Played;
    if inputs != [] {
      var n := |inputs| - 1;
      var init, x', input := inputs[..n], inputs[n].0, inputs[n].1;
      ResidentTurnIsItsStory(c, cfg, idle, limit, init, x);
      ServeOk(c, cfg, idle, limit, init);
      var s := Serve(c, cfg, idle, limit, init);
      SessionsAreIsolated(c, cfg, idle, limit, s, x', input);
      if x' == x && x in Serve(c, cfg, idle, limit, inputs).turns {
        FeedOwn(c, cfg, idle, limit, s, x, input);
        ToldFresh(c, cfg, idle, {});
        var before := StoryOf(c, cfg, idle, limit, init, x);
        var current := if before.Some? then before.value else Story(idle, {}, []);
        match input
        case Begin(intent, visible) => ToldFresh(c, cfg, intent, visible);
        case On(e) => ToldNext(c, cfg, current, e);
        case Ask =>
        case Finish =>
      }
    }
  }

  /** The newest sessions of an order, as many as the limit allows. */
  function NewestOf(order: seq<SessionId>, limit: int): seq<SessionId> {
    if |order| <= limit then order else order[|order| - (if limit < 0 then 0 else limit)..]
  }

  /** Which sessions are resident, and in which order: a beginning session goes last, a known one keeps its place,
      an unknown one goes last, and beyond the limit the oldest are dropped. */
  lemma OrderExactly(c: Classifier, cfg: Config, idle: Intent, limit: int, s: Sessions, x: SessionId, input: Input)
    requires Wf(s) && Fits(s, limit)
    ensures var order := Feed(c, cfg, idle, limit, s, x, input).order;
            var served := if x in s.turns then s.order else NewestOf(s.order + [x], limit);
            match input
            case Begin(_, _) => order == NewestOf(Without(s.order, x) + [x], limit)
            case Finish => order == Without(served, x)
            case _ => order == served
  {
    hide Handle, Fresh, Without, Wf, Evict, Ensure, NewestOf, Fits;
    match input
    case Begin(intent, visible) =>
      BegunWf(s, x, Fresh(intent, visible));
      Newest(Sessions(Without(s.order, x) + [x], s.turns[x := Fresh(intent, visible)]), limit);
    case _ =>
      EnsureOrder(s, x, idle, limit);
      EnsureShape(s, x, idle, limit);
      NotThere(Ensure(s, x, idle, limit), x);
  }

  lemma EnsureOrder(s: Sessions, x: SessionId, idle: Intent, limit: int)
    requires Wf(s)
    ensures Ensure(s, x, idle, limit).order == if x in s.turns then s.order else NewestOf(s.order + [x], limit)
  {
    hide Wf, Evict, NewestOf, Fresh;
    if x !in s.turns {
      AppendedWf(s, x, Fresh(idle, {}));
      Newest(Sessions(s.order + [x], s.turns[x := Fresh(idle, {})]), limit);
    }
  }

  lemma Newest(s: Sessions, limit: int)
    requires Wf(s)
    ensures Evict(s, limit).order == NewestOf(s.order, limit)
  {
    EvictKeepsNewest(s, limit);
  }

  lemma NotThere(s: Sessions, x: SessionId)
    requires Wf(s)
    ensures x !in s.turns ==> Without(s.order, x) == s.order
  {
    if x !in s.turns {
      WithoutNothing(s.order, x);
    }
  }

  lemma {:induction false} WithoutNothing(order: seq<SessionId>, x: SessionId)
    requires x !in order
    ensures Without(order, x) == order
    decreases |order|
  {
    if order != [] {
      WithoutNothing(order[1..], x);
    }
  }
}
