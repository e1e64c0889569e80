/** Quote-checked fact formation from history, for arbitrary model answers. */
module StandingFacts {
  import opened Wrappers

  /** White space and case mapping of the text library. */
  datatype Text = Text(space: char -> bool, lower: string -> string)

  predicate Plain(t: Text) {
    t.space(' ')
  }

  // ---- normalisation --------------------------------------------------------

  function DropSpace(t: Text, s: string): (r: string)
    ensures |r| <= |s| && (r != [] ==> !t.space(r[0]))
  {
    if s == [] || !t.space(s[0]) then s else DropSpace(t, s[1..])
  }

  /** Every run of white space becomes one blank. */
  function Collapse(t: Text, s: string): string
    decreases |s|
  {
    if s == [] then []
    else if t.space(s[0]) then [' '] + Collapse(t, DropSpace(t, s[1..]))
    else [s[0]] + Collapse(t, s[1..])
  }

  function StripRight(t: Text, s: string): string {
    if s == [] then []
    else
      var rest := StripRight(t, s[1..]);
      if rest == [] && t.space(s[0]) then [] else [s[0]] + rest
  }

  /** `str.strip`. */
  function Strip(t: Text, s: string): string {
    StripRight(t, DropSpace(t, s))
  }

  /** `normalize`. */
  function Normalize(t: Text, s: string): string {
    t.lower(Strip(t, Collapse(t, s)))
  }

  lemma StripRightCons(t: Text, c: char, a: string, b: string)
    requires StripRight(t, a) == StripRight(t, b)
    ensures StripRight(t, [c] + a) == StripRight(t, [c] + b)
  {
    assert ([c] + a)[1..] == a && ([c] + b)[1..] == b;
  }

  lemma {:induction false} DropKeepsTail(t: Text, s: string)
    ensures StripRight(t, DropSpace(t, s)) == DropSpace(t, StripRight(t, s))
    decreases |s|
  {
    if s != [] && t.space(s[0]) {
      DropKeepsTail(t, s[1..]);
      var rest := StripRight(t, s[1..]);
      if rest != [] {
        assert StripRight(t, s) == [s[0]] + rest;
        assert ([s[0]] + rest)[1..] == rest;
      }
    }
  }

  /** Dropping trailing space first does not change the collapsed text but for trailing space. */
  lemma {:induction false} CollapseStripRight(t: Text, s: string)
    requires Plain(t)
    ensures StripRight(t, Collapse(t, StripRight(t, s))) == StripRight(t, Collapse(t, s))
    decreases |s|
  {
    if s != [] {
      var rest := StripRight(t, s[1..]);
      if t.space(s[0]) {
        var inner := DropSpace(t, s[1..]);
        CollapseStripRight(t, inner);
        DropKeepsTail(t, s[1..]);
        assert StripRight(t, inner) == DropSpace(t, rest);
        if rest == [] {
          assert StripRight(t, Collapse(t, inner)) == [];
          assert Collapse(t, s) == [' '] + Collapse(t, inner);
          assert ([' '] + Collapse(t, inner))[1..] == Collapse(t, inner);
        } else {
          var kept := [s[0]] + rest;
          assert kept[1..] == rest;
          assert Collapse(t, kept) == [' '] + Collapse(t, DropSpace(t, rest));
          StripRightCons(t, ' ', Collapse(t, StripRight(t, inner)), Collapse(t, inner));
        }
      } else {
        CollapseStripRight(t, s[1..]);
        var kept := [s[0]] + rest;
        assert kept[1..] == rest;
        StripRightCons(t, s[0], Collapse(t, rest), Collapse(t, s[1..]));
      }
    }
  }

  lemma CollapseDropSpace(t: Text, s: string)
    requires Plain(t)
    ensures DropSpace(t, Collapse(t, DropSpace(t, s))) == DropSpace(t, Collapse(t, s))
  {
    if s != [] && t.space(s[0]) {
      var inner := DropSpace(t, s[1..]);
      assert DropSpace(t, s) == inner;
      assert Collapse(t, s) == [' '] + Collapse(t, inner);
      assert ([' '] + Collapse(t, inner))[1..] == Collapse(t, inner);
    }
  }

  /** Stripping a quote before storing it does not change how it normalises. */
  lemma NormalizeStrip(t: Text, s: string)
    requires Plain(t)
    ensures Normalize(t, Strip(t, s)) == Normalize(t, s)
  {
    var d := DropSpace(t, s);
    var a, b := Collapse(t, StripRight(t, d)), Collapse(t, d);
    CollapseStripRight(t, d);
    CollapseDropSpace(t, s);
    DropKeepsTail(t, a);
    DropKeepsTail(t, b);
    DropKeepsTail(t, Collapse(t, s));
  }

  // ---- messages, proposals, facts -------------------------------------------

  datatype Message = Message(session: string, text: string)

  /** One entry of a model answer; entries that are no objects are skipped. */
  datatype Proposal = Junk | Proposal(fact: string, kind: string, asOf: string, quote: string)

  datatype Fact = Fact(fact: string, kind: string, asOf: string, quote: string, session: string, source: string)

  const KINDS := ["rule", "preference", "default", "policy", "commitment", "relationship", "decision", "profile"]

  predicate Occurs(needle: string, hay: string) {
    exists i :: 0 <= i <= |hay| && needle <= hay[i..]
  }

  /** The fact's quote occurs, normalised, in a message of its session. */
  ghost predicate Grounded(t: Text, messages: seq<Message>, f: Fact) {
    exists m :: m in messages && m.session == f.session && m.text == f.source
                && Occurs(Normalize(t, f.quote), Normalize(t, m.text))
  }

  /** A proposal with a fact and a quote of 8 to 400 normalised characters found in one of the messages. */
  ghost predicate Supported(t: Text, batch: seq<Message>, p: Proposal) {
    && p.Proposal? && Strip(t, p.fact) != [] && 8 <= |Normalize(t, p.quote)| <= 400
    && exists m :: m in batch && Occurs(Normalize(t, p.quote), Normalize(t, m.text))
  }

  function FirstTen(s: string): string {
    if |s| <= 10 then s else s[..10]
  }

  function FactOf(t: Text, p: Proposal, m: Message): Fact
    requires p.Proposal?
  {
    Fact(Strip(t, p.fact), if p.kind in KINDS then p.kind else "profile", FirstTen(p.asOf), Strip(t, p.quote),
         m.session, m.text)
  }

  /** The facts kept so far: one for each supported proposal, in order, from the first message that has it. */
  ghost predicate Kept(t: Text, batch: seq<Message>, ps: seq<Proposal>, kept: seq<Fact>)
    decreases |ps|
  {
    if ps == [] then kept == []
    else
      var p := ps[|ps| - 1];
      if !Supported(t, batch, p) then Kept(t, batch, ps[..|ps| - 1], kept)
      else kept != [] && Kept(t, batch, ps[..|ps| - 1], kept[..|kept| - 1])
           && exists i :: 0 <= i < |batch| && IsFirstSource(t, batch, Normalize(t, p.quote), i)
                          && kept[|kept| - 1] == FactOf(t, p, batch[i])
  }

  ghost predicate IsFirstSource(t: Text, batch: seq<Message>, quote: string, i: nat) {
    && i < |batch| && Occurs(quote, Normalize(t, batch[i].text))
    && forall j :: 0 <= j < i ==> !Occurs(quote, Normalize(t, batch[j].text))
  }

  method FindSource(t: Text, batch: seq<Message>, quote: string) returns (found: Option<nat>)
    ensures found.Some? ==> IsFirstSource(t, batch, quote, found.value)
    ensures found.None? ==> forall m :: m in batch ==> !Occurs(quote, Normalize(t, m.text))
  {
    for i := 0 to |batch|
      invariant forall j :: 0 <= j < i ==> !Occurs(quote, Normalize(t, batch[j].text))
    {
      if Occurs(quote, Normalize(t, batch[i].text)) {
        return Some(i);
      }
    }
    return None;
  }

  /** `verify`. */
  method Verify(t: Text, ps: seq<Proposal>, batch: seq<Message>) returns (kept: seq<Fact>)
    ensures Kept(t, batch, ps, kept)
  {
    kept := [];
    for i := 0 to |ps|
      invariant Kept(t, batch, ps[..i], kept)
    {
      assert ps[..i + 1][..i] == ps[..i];
      var p := ps[i];
      if p.Junk? {
        continue;
      }
      var fact, quote := Strip(t, p.fact), Normalize(t, p.quote);
      if fact == [] || |quote| < 8 || |quote| > 400 {
        continue;
      }
      var source := FindSource(t, batch, quote);
      if source.None? {
        continue;
      }
      assert batch[source.value] in batch;
      ghost var before := kept;
      kept := kept + [FactOf(t, p, batch[source.value])];
      assert kept[..|kept| - 1] == before;
    }
    assert ps[..|ps|] == ps;
  }

  lemma {:induction false} KeptGrounded(t: Text, batch: seq<Message>, ps: seq<Proposal>, kept: seq<Fact>, f: Fact)
    requires Plain(t) && Kept(t, batch, ps, kept) && f in kept
    ensures Grounded(t, batch, f)
    decreases |ps|
  {
    hide Normalize, Strip, Occurs;
    if ps != [] {
      var p, init := ps[|ps| - 1], ps[..|ps| - 1];
      if !Supported(t, batch, p) {
        KeptGrounded(t, batch, init, kept, f);
      } else if f in kept[..|kept| - 1] {
        KeptGrounded(t, batch, init, kept[..|kept| - 1], f);
      } else {
        var i :| 0 <= i < |batch| && IsFirstSource(t, batch, Normalize(t, p.quote), i)
                 && kept[|kept| - 1] == FactOf(t, p, batch[i]);
        assert f == FactOf(t, p, batch[i]);
        NormalizeStrip(t, p.quote);
        assert batch[i] in batch;
      }
    }
  }

  /** The fact is proposal `p`, bound to the first message of the batch that has its quote. */
  ghost predicate Binds(t: Text, batch: seq<Message>, p: Proposal, f: Fact) {
    p.Proposal? && exists i :: 0 <= i < |batch| && IsFirstSource(t, batch, Normalize(t, p.quote), i)
                               && Says(t, p, batch[i], f)
  }

  /** Wording and quote without surrounding space, the kind if it is a known one, at most ten characters of the
      date, and the session and the text of the message. */
  predicate Says(t: Text, p: Proposal, m: Message, f: Fact)
    requires p.Proposal?
  {
    && f.fact == Strip(t, p.fact) && f.quote == Strip(t, p.quote) && f.session == m.session && f.source == m.text
    && (p.kind in KINDS ==> f.kind == p.kind) && (p.kind !in KINDS ==> f.kind == "profile")
    && f.asOf <= p.asOf && |f.asOf| <= 10 && (|f.asOf| < 10 ==> f.asOf == p.asOf)
  }

  lemma FactSays(t: Text, p: Proposal, m: Message)
    requires p.Proposal?
    ensures Says(t, p, m, FactOf(t, p, m))
  {
    hide Strip;
  }

  /** The kept facts are the supported proposals, no more and no less. */
  lemma {:induction false} KeptExactly(t: Text, batch: seq<Message>, ps: seq<Proposal>, kept: seq<Fact>)
    requires Kept(t, batch, ps, kept)
    ensures forall f :: f in kept ==> exists p :: p in ps && Supported(t, batch, p) && Binds(t, batch, p, f)
    ensures forall p :: p in ps && Supported(t, batch, p) ==> exists f :: f in kept && Binds(t, batch, p, f)
    decreases |ps|
  {
    hide Normalize, Strip, Occurs, IsFirstSource, Supported, FactOf, Says;
    if ps != [] {
      var p, init := ps[|ps| - 1], ps[..|ps| - 1];
      assert ps == init + [p];
      if !Supported(t, batch, p) {
        KeptExactly(t, batch, init, kept);
      } else {
        var before, last := kept[..|kept| - 1], kept[|kept| - 1];
        assert kept == before + [last];
        KeptExactly(t, batch, init, before);
        SupportedIsProposal(t, batch, p);
        forall m { FactSays(t, p, m); }
        assert Binds(t, batch, p, last) && last in kept;
      }
    }
  }

  lemma SupportedIsProposal(t: Text, batch: seq<Message>, p: Proposal)
    requires Supported(t, batch, p)
    ensures p.Proposal?
  {
  }

  // ---- chunks ---------------------------------------------------------------

  function Size(s: seq<Message>): nat {
    if s == [] then 0 else Size(s[..|s| - 1]) + |s[|s| - 1].text|
  }

  function Concat(batches: seq<seq<Message>>): seq<Message> {
    if batches == [] then [] else Concat(batches[..|batches| - 1]) + batches[|batches| - 1]
  }

  /** Within the budget, unless a single message exceeds it. */
  predicate Bounded(batch: seq<Message>, budget: int) {
    batch != [] && (|batch| == 1 || Size(batch) <= budget)
  }

  /** `next` did not fit after `batch`. */
  predicate Overflows(batch: seq<Message>, next: seq<Message>, budget: int) {
    next != [] && Size(batch) + |next[0].text| > budget
  }

  /** Every batch is bounded and was closed only because the next message did not fit. */
  ghost predicate Packed(batches: seq<seq<Message>>, budget: int) {
    && (forall i :: 0 <= i < |batches| ==> Bounded(batches[i], budget))
    && (forall i, j :: 0 <= i < j < |batches| && j == i + 1 ==> Overflows(batches[i], batches[j], budget))
  }

  lemma CloseBatch(batches: seq<seq<Message>>, batch: seq<Message>, budget: int)
    requires Packed(batches, budget) && Bounded(batch, budget)
    requires batches != [] ==> Overflows(batches[|batches| - 1], batch, budget)
    ensures Packed(batches + [batch], budget) && Concat(batches + [batch]) == Concat(batches) + batch
  {
    hide Bounded, Overflows, Concat, Size;
    ConcatAppend(batches, batch);
    var r := batches + [batch];
    forall i | 0 <= i < |r|
      ensures Bounded(r[i], budget)
    {
      assert i < |batches| ==> r[i] == batches[i];
    }
    forall i, j | 0 <= i < j < |r| && j == i + 1
      ensures Overflows(r[i], r[j], budget)
    {
      assert r[i] == batches[i];
      if j < |batches| {
        assert r[j] == batches[j];
      }
    }
  }

  lemma ConcatAppend(batches: seq<seq<Message>>, batch: seq<Message>)
    ensures Concat(batches + [batch]) == Concat(batches) + batch
  {
    assert (batches + [batch])[..|batches|] == batches;
  }

  lemma GrowBatch(batch: seq<Message>, m: Message)
    ensures Size(batch + [m]) == Size(batch) + |m.text|
  {
    assert (batch + [m])[..|batch|] == batch;
  }

  /** `chunks`: batches in order, nothing lost, each within the budget unless it is a single message. */
  method Chunks(messages: seq<Message>, budget: int) returns (batches: seq<seq<Message>>)
    ensures Concat(batches) == messages && Packed(batches, budget)
  {
    hide Packed, Concat, Size;
    batches := [];
    var batch: seq<Message>, size: nat := [], 0;
    NoBatches(budget);
    for i := 0 to |messages|
      invariant Concat(batches) + batch == messages[..i] && Packed(batches, budget)
      invariant size == Size(batch) && (batch == [] ==> batches == [])
      invariant batch != [] ==> Bounded(batch, budget)
      invariant batches != [] ==> Overflows(batches[|batches| - 1], batch, budget)
    {
      var message := messages[i];
      assert messages[..i + 1] == messages[..i] + [message];
      if batch != [] && size + |message.text| > budget {
        CloseBatch(batches, batch, budget);
        batches := batches + [batch];
        batch, size := [], 0;
        NoBatches(budget);
      }
      GrowBatch(batch, message);
      batch := batch + [message];
      size := size + |message.text|;
    }
    assert messages[..|messages|] == messages;
    if batch != [] {
      CloseBatch(batches, batch, budget);
      batches := batches + [batch];
    }
  }

  lemma NoBatches(budget: int)
    ensures Concat([]) == [] && Packed([], budget) && Size([]) == 0
  {
  }

  lemma {:induction false} ConcatMember(batches: seq<seq<Message>>, i: nat, m: Message)
    requires i < |batches| && m in batches[i]
    ensures m in Concat(batches)
    decreases |batches|
  {
    var n := |batches| - 1;
    if i < n {
      assert batches[..n][i] == batches[i];
      ConcatMember(batches[..n], i, m);
    }
  }

  // ---- extract --------------------------------------------------------------

  ghost predicate AllGrounded(t: Text, messages: seq<Message>, facts: seq<Fact>) {
    forall f :: f in facts ==> Grounded(t, messages, f)
  }

  /** `f` is the first of its wording. */
  ghost predicate FirstWording(t: Text, facts: seq<Fact>, f: Fact) {
    exists i :: 0 <= i < |facts| && facts[i] == f
                && forall j :: 0 <= j < i ==> Normalize(t, facts[j].fact) != Normalize(t, f.fact)
  }

  lemma StillFirst(t: Text, facts: seq<Fact>, f: Fact, g: Fact)
    ensures FirstWording(t, facts, f) ==> FirstWording(t, facts + [g], f)
    ensures (forall x :: x in facts ==> Normalize(t, x.fact) != Normalize(t, g.fact)) ==> FirstWording(t, facts + [g], g)
  {
    hide Normalize;
    var all := facts + [g];
    if FirstWording(t, facts, f) {
      var i :| 0 <= i < |facts| && facts[i] == f
               && forall j :: 0 <= j < i ==> Normalize(t, facts[j].fact) != Normalize(t, f.fact);
      assert all[i] == f;
    }
    assert all[|facts|] == g;
  }

  /** One fact per normalised wording, each wording of `facts` represented by its first occurrence. */
  ghost predicate Deduplicated(t: Text, facts: seq<Fact>, unique: seq<Fact>) {
    && (forall f :: f in unique ==> f in facts && FirstWording(t, facts, f))
    && (forall i, j :: 0 <= i < j < |unique| ==> Normalize(t, unique[i].fact) != Normalize(t, unique[j].fact))
    && (forall f :: f in facts ==> exists u :: u in unique && Normalize(t, u.fact) == Normalize(t, f.fact))
  }

  method Dedupe(t: Text, facts: seq<Fact>) returns (unique: seq<Fact>)
    ensures Deduplicated(t, facts, unique)
  {
    hide Normalize, FirstWording;
    var seen: set<string> := {};
    unique := [];
    for i := 0 to |facts|
      invariant forall k :: k in seen <==> exists u :: u in unique && Normalize(t, u.fact) == k
      invariant Deduplicated(t, facts[..i], unique)
    {
      var f := facts[i];
      var key := Normalize(t, f.fact);
      assert facts[..i + 1] == facts[..i] + [f];
      ghost var before := unique;
      forall u | u in unique { StillFirst(t, facts[..i], u, f); }
      StillFirst(t, facts[..i], f, f);
      if key !in seen {
        forall j | 0 <= j < |unique|
          ensures Normalize(t, unique[j].fact) != key
        {
          assert unique[j] in unique;
        }
        seen := seen + {key};
        unique := unique + [f];
        assert f in unique && forall u :: u in before ==> u in unique;
      }
    }
    assert facts[..|facts|] == facts;
  }

  /** Each fact is a supported proposal of the answer to some batch. */
  ghost predicate OnlyAnswers(t: Text, batches: seq<seq<Message>>, answer: nat -> seq<Proposal>, facts: seq<Fact>) {
    forall f :: f in facts ==> exists i: nat, p :: IsAnswer(t, batches, answer, i, p) && Binds(t, batches[i], p, f)
  }

  /** `p` is a supported proposal in the answer to batch `i`. */
  ghost predicate IsAnswer(t: Text, batches: seq<seq<Message>>, answer: nat -> seq<Proposal>, i: nat, p: Proposal) {
    i < |batches| && p in answer(i) && Supported(t, batches[i], p)
  }

  /** The wording of every supported proposal in the first `n` answers is among the facts. */
  ghost predicate AllAnswers(t: Text, batches: seq<seq<Message>>, answer: nat -> seq<Proposal>, n: nat, facts: seq<Fact>) {
    forall i: nat, p :: i < n && IsAnswer(t, batches, answer, i, p) ==> Worded(t, p, facts)
  }

  ghost predicate Worded(t: Text, p: Proposal, facts: seq<Fact>) {
    p.Proposal? && exists f :: f in facts && Normalize(t, f.fact) == Normalize(t, p.fact)
  }

  /** One batch: its facts join those of the earlier ones. */
  lemma BatchJoins(t: Text, batches: seq<seq<Message>>, answer: nat -> seq<Proposal>, i: nat, facts: seq<Fact>,
                   kept: seq<Fact>)
    requires Plain(t) && i < |batches| && Kept(t, batches[i], answer(i), kept)
    requires OnlyAnswers(t, batches, answer, facts) && AllAnswers(t, batches, answer, i, facts)
    ensures OnlyAnswers(t, batches, answer, facts + kept) && AllAnswers(t, batches, answer, i + 1, facts + kept)
  {
    hide Normalize, Kept, Supported, FactOf, Binds;
    KeptExactly(t, batches[i], answer(i), kept);
    var all := facts + kept;
    forall f | f in all
      ensures exists j: nat, p :: IsAnswer(t, batches, answer, j, p) && Binds(t, batches[j], p, f)
    {
      if f in kept {
        var p :| p in answer(i) && Supported(t, batches[i], p) && Binds(t, batches[i], p, f);
        assert IsAnswer(t, batches, answer, i, p);
      }
    }
    forall j: nat, p | j < i + 1 && IsAnswer(t, batches, answer, j, p)
      ensures Worded(t, p, all)
    {
      if j < i {
        var f :| f in facts && Normalize(t, f.fact) == Normalize(t, p.fact);
        assert f in all;
      } else {
        var f :| f in kept && Binds(t, batches[i], p, f);
        BoundWording(t, batches[i], p, f);
        assert f in all;
      }
    }
  }

  lemma BoundWording(t: Text, batch: seq<Message>, p: Proposal, f: Fact)
    requires Plain(t) && Binds(t, batch, p, f)
    ensures p.Proposal? && Normalize(t, f.fact) == Normalize(t, p.fact)
  {
    NormalizeStrip(t, p.fact);
  }

  /** Removing repeated wordings loses no wording and adds no fact. */
  lemma DedupeKeepsAnswers(t: Text, batches: seq<seq<Message>>, answer: nat -> seq<Proposal>, facts: seq<Fact>,
                           unique: seq<Fact>)
    requires OnlyAnswers(t, batches, answer, facts) && AllAnswers(t, batches, answer, |batches|, facts)
    requires Deduplicated(t, facts, unique)
    ensures OnlyAnswers(t, batches, answer, unique) && AllAnswers(t, batches, answer, |batches|, unique)
  {
    hide Normalize, IsAnswer, Binds;
    forall i: nat, p | i < |batches| && IsAnswer(t, batches, answer, i, p)
      ensures Worded(t, p, unique)
    {
      assert Worded(t, p, facts);
      var f :| f in facts && Normalize(t, f.fact) == Normalize(t, p.fact);
      var u :| u in unique && Normalize(t, u.fact) == Normalize(t, f.fact);
    }
  }

  /** `extract` without a prior journal, for arbitrary answers: every fact is grounded in the history, and the
      facts are, up to wording, exactly the supported proposals of all answers. */
  method Extract(t: Text, messages: seq<Message>, budget: int, answer: nat -> seq<Proposal>)
    returns (unique: seq<Fact>, ghost batches: seq<seq<Message>>)
    requires Plain(t)
    ensures Concat(batches) == messages && Packed(batches, budget)
    ensures AllGrounded(t, messages, unique)
    ensures forall i, j :: 0 <= i < j < |unique| ==> Normalize(t, unique[i].fact) != Normalize(t, unique[j].fact)
    ensures StoreFailures(t, messages, unique) == []
    ensures OnlyAnswers(t, batches, answer, unique) && AllAnswers(t, batches, answer, |batches|, unique)
  {
    hide Normalize, Occurs, Kept, Packed, OnlyAnswers, AllAnswers;
    var parts := Chunks(messages, budget);
    batches := parts;
    var facts: seq<Fact> := [];
    NoAnswers(t, batches, answer);
    for i := 0 to |parts|
      invariant AllGrounded(t, messages, facts)
      invariant OnlyAnswers(t, batches, answer, facts) && AllAnswers(t, batches, answer, i, facts)
    {
      var kept := Verify(t, answer(i), parts[i]);
      forall f | f in kept
        ensures Grounded(t, messages, f)
      {
        KeptGrounded(t, batches[i], answer(i), kept, f);
        Widen(t, batches, i, messages, f);
      }
      BatchJoins(t, batches, answer, i, facts, kept);
      facts := facts + kept;
    }
    unique := Dedupe(t, facts);
    DedupeKeepsAnswers(t, batches, answer, facts, unique);
    NoFailures(t, messages, unique);
  }

  lemma NoAnswers(t: Text, batches: seq<seq<Message>>, answer: nat -> seq<Proposal>)
    ensures OnlyAnswers(t, batches, answer, []) && AllAnswers(t, batches, answer, 0, [])
  {
  }

  lemma Widen(t: Text, batches: seq<seq<Message>>, i: nat, messages: seq<Message>, f: Fact)
    requires i < |batches| && Concat(batches) == messages && Grounded(t, batches[i], f)
    ensures Grounded(t, messages, f)
  {
    hide Normalize, Occurs;
    var m :| m in batches[i] && m.session == f.session && m.text == f.source
             && Occurs(Normalize(t, f.quote), Normalize(t, m.text));
    ConcatMember(batches, i, m);
  }

  // ---- verify_store ---------------------------------------------------------

  /** The quote is found in some message of the fact's session. */
  predicate PassesStore(t: Text, messages: seq<Message>, f: Fact) {
    exists i :: 0 <= i < |messages| && messages[i].session == f.session
                && Occurs(Normalize(t, f.quote), Normalize(t, messages[i].text))
  }

  /** `verify_store`: the positions of the facts whose quote is not found. */
  function StoreFailures(t: Text, messages: seq<Message>, facts: seq<Fact>): seq<nat> {
    if facts == [] then []
    else
      var n := |facts| - 1;
      StoreFailures(t, messages, facts[..n]) + if PassesStore(t, messages, facts[n]) then [] else [n]
  }

  /** Grounded facts all pass the store check. */
  lemma {:induction false} NoFailures(t: Text, messages: seq<Message>, facts: seq<Fact>)
    requires AllGrounded(t, messages, facts)
    ensures StoreFailures(t, messages, facts) == []
    decreases |facts|
  {
    hide Normalize, Occurs;
    if facts != [] {
      var n := |facts| - 1;
      NoFailures(t, messages, facts[..n]);
      assert facts[n] in facts;
      var m :| m in messages && m.session == facts[n].session && m.text == facts[n].source
               && Occurs(Normalize(t, facts[n].quote), Normalize(t, m.text));
      var i :| 0 <= i < |messages| && messages[i] == m;
      assert PassesStore(t, messages, facts[n]);
    }
  }
}
