/** Hierarchical selection of profile facts by a model that answers with ids only. */
module ProfileSelection {
  import opened Sequences

  type FactId = nat

  /** The model's answer in a round, for the batch that starts at a position; arbitrary integers. */
  type Oracle = (nat, nat, seq<FactId>) -> seq<int>

  /** The answered ids that were offered, in answer order. */
  function Valid(answer: seq<int>, candidates: seq<FactId>): (r: seq<FactId>)
    ensures forall x :: x in r <==> x in answer && x in candidates
  {
    if answer == [] then []
    else
      var last := answer[|answer| - 1];
      Valid(answer[..|answer| - 1], candidates) + if last >= 0 && (last as nat) in candidates then [last as nat] else []
  }

  function Choose(ask: Oracle, round: nat, start: nat, candidates: seq<FactId>): seq<FactId> {
    Valid(ask(round, start, candidates), candidates)
  }

  function Elements(s: seq<FactId>): set<FactId> {
    set x | x in s
  }

  /** No batch answer names more than `cap` different offered ids. */
  ghost predicate Capped(ask: Oracle, cap: nat) {
    forall round, start, candidates :: |Elements(Choose(ask, round, start, candidates))| <= cap
  }

  /** `dict.fromkeys`: first occurrences, in order. */
  function Dedup(s: seq<FactId>): (r: seq<FactId>)
    ensures forall x :: x in r <==> x in s
    ensures Distinct(r)
  {
    if s == [] then []
    else
      var init := Dedup(s[..|s| - 1]);
      if s[|s| - 1] in s[..|s| - 1] then init else init + [s[|s| - 1]]
  }

  function BatchEnd(pool: seq<FactId>, start: nat, size: nat): nat {
    if start + size < |pool| then start + size else |pool|
  }

  /** The answers of one round, batch after batch. */
  function Shortlist(ask: Oracle, round: nat, size: nat, pool: seq<FactId>, start: nat): seq<FactId>
    requires size >= 1
    decreases |pool| - start
  {
    if start >= |pool| then []
    else
      Choose(ask, round, start, pool[start..BatchEnd(pool, start, size)])
      + Shortlist(ask, round, size, pool, start + size)
  }

  function NextPool(ask: Oracle, round: nat, size: nat, pool: seq<FactId>): seq<FactId>
    requires size >= 1
  {
    Dedup(Shortlist(ask, round, size, pool, 0))
  }

  // ---- what a round keeps ---------------------------------------------------

  /** The batch that starts at `start`. */
  function Batch(pool: seq<FactId>, start: nat, size: nat): seq<FactId>
    requires start < |pool|
  {
    if start + size < |pool| then pool[start..start + size] else pool[start..]
  }

  /** `x` is in the batch that starts at `start`, and the answer to that batch names it. */
  ghost predicate KeptFrom(ask: Oracle, round: nat, size: nat, pool: seq<FactId>, start: nat, x: FactId) {
    start < |pool| && x in Batch(pool, start, size) && x in ask(round, start, Batch(pool, start, size))
  }

  lemma {:induction false} ShortlistExactly(ask: Oracle, round: nat, size: nat, pool: seq<FactId>, start: nat, x: FactId)
    requires size >= 1
    ensures x in Shortlist(ask, round, size, pool, start)
            <==> exists b: nat :: KeptFrom(ask, round, size, pool, start + b * size, x)
    decreases |pool| - start
  {
    hide KeptFrom, Choose;
    if start < |pool| {
      ChosenExactly(ask, round, size, pool, start, x);
      ShortlistExactly(ask, round, size, pool, start + size, x);
      Shifted(ask, round, size, pool, start, x);
    } else {
      forall b: nat
        ensures !KeptFrom(ask, round, size, pool, start + b * size, x)
      {
        OutOfPool(ask, round, size, pool, start + b * size, x);
      }
    }
  }

  /** The batches after the first are those from the next start on. */
  lemma Shifted(ask: Oracle, round: nat, size: nat, pool: seq<FactId>, start: nat, x: FactId)
    ensures (exists b: nat :: KeptFrom(ask, round, size, pool, start + b * size, x))
            <==> || KeptFrom(ask, round, size, pool, start, x)
                 || exists b: nat :: KeptFrom(ask, round, size, pool, (start + size) + b * size, x)
  {
    hide KeptFrom;
    assert start + 0 * size == start;
    if b: nat :| KeptFrom(ask, round, size, pool, (start + size) + b * size, x) {
      assert (start + size) + b * size == start + (b + 1) * size;
    }
    if b: nat :| KeptFrom(ask, round, size, pool, start + b * size, x) {
      if b > 0 {
        var c: nat := b - 1;
        assert start + b * size == (start + size) + c * size;
      }
    }
  }

  lemma ChosenExactly(ask: Oracle, round: nat, size: nat, pool: seq<FactId>, start: nat, x: FactId)
    requires start < |pool|
    ensures x in Choose(ask, round, start, pool[start..BatchEnd(pool, start, size)])
            <==> KeptFrom(ask, round, size, pool, start, x)
  {
    assert pool[start..BatchEnd(pool, start, size)] == Batch(pool, start, size);
  }

  lemma OutOfPool(ask: Oracle, round: nat, size: nat, pool: seq<FactId>, start: nat, x: FactId)
    requires start >= |pool|
    ensures !KeptFrom(ask, round, size, pool, start, x)
  {
  }

  lemma {:induction false} DedupOrdered(s: seq<FactId>)
    ensures InFirstOrder(s, Dedup(s))
    decreases |s|
  {
    if s != [] {
      var n := |s| - 1;
      var init, r := s[..n], Dedup(s);
      DedupOrdered(init);
      forall a, b | 0 <= a < b < |r|
        ensures Precedes(s, r[a], r[b])
      {
        assert r[a] in r && r[b] in r;
        if b < |Dedup(init)| {
          assert Precedes(init, r[a], r[b]);
          var i: nat, j: nat :| i < j && FirstAt(init, r[a], i) && FirstAt(init, r[b], j);
          assert init[..i] == s[..i] && init[..j] == s[..j];
          assert FirstAt(s, r[a], i) && FirstAt(s, r[b], j);
        } else {
          assert r[a] in Dedup(init);
          var i := First(init, r[a]);
          assert init[..i] == s[..i];
          assert FirstAt(s, r[a], i) && FirstAt(s, r[b], n);
        }
      }
    }
  }

  /** A round keeps exactly the ids that the answer to their own batch names, once each, in the order of the
      answers. */
  lemma RoundKeepsExactly(ask: Oracle, round: nat, size: nat, pool: seq<FactId>, x: FactId)
    requires size >= 1
    ensures x in NextPool(ask, round, size, pool) <==> exists b: nat :: KeptFrom(ask, round, size, pool, b * size, x)
    ensures Distinct(NextPool(ask, round, size, pool))
    ensures InFirstOrder(Shortlist(ask, round, size, pool, 0), NextPool(ask, round, size, pool))
  {
    hide KeptFrom, Shortlist, InFirstOrder;
    ShortlistExactly(ask, round, size, pool, 0, x);
    DedupOrdered(Shortlist(ask, round, size, pool, 0));
    if b: nat :| KeptFrom(ask, round, size, pool, b * size, x) {
      assert 0 + b * size == b * size;
    }
  }

  /** The candidates left after a number of rounds. */
  function PoolAfter(ask: Oracle, size: nat, facts: seq<FactId>, rounds: nat): seq<FactId>
    requires size >= 1
  {
    if rounds == 0 then facts else NextPool(ask, rounds - 1, size, PoolAfter(ask, size, facts, rounds - 1))
  }

  // ---- when every round shrinks the pool ------------------------------------

  lemma UnionCount(a: seq<FactId>, b: seq<FactId>)
    ensures |Elements(a + b)| <= |Elements(a)| + |Elements(b)|
  {
    assert Elements(a + b) == Elements(a) + Elements(b);
  }

  /** An answer never names more ids than were offered. */
  lemma ChoiceCount(ask: Oracle, round: nat, start: nat, candidates: seq<FactId>)
    ensures |Elements(Choose(ask, round, start, candidates))| <= |candidates|
  {
    var chosen := Choose(ask, round, start, candidates);
    assert Elements(chosen) <= Elements(candidates);
    SubsetCount(Elements(chosen), Elements(candidates));
    ElementsCount(candidates);
  }

  lemma SubsetCount(a: set<FactId>, b: set<FactId>)
    requires a <= b
    ensures |a| <= |b|
  {
    assert b == a + (b - a);
  }

  lemma {:induction false} ElementsCount(s: seq<FactId>)
    ensures |Elements(s)| <= |s|
    decreases |s|
  {
    if s == [] {
      assert Elements(s) == {};
    } else {
      var n := |s| - 1;
      ElementsCount(s[..n]);
      assert s == s[..n] + [s[n]];
      assert Elements(s) == Elements(s[..n]) + {s[n]};
    }
  }

  lemma {:induction false} ShortlistCount(ask: Oracle, round: nat, size: nat, pool: seq<FactId>, start: nat)
    requires size >= 1
    ensures |Elements(Shortlist(ask, round, size, pool, start))| <= if start < |pool| then |pool| - start else 0
    decreases |pool| - start
  {
    hide Choose, Elements;
    if start < |pool| {
      var batch := pool[start..BatchEnd(pool, start, size)];
      ChoiceCount(ask, round, start, batch);
      ShortlistCount(ask, round, size, pool, start + size);
      UnionCount(Choose(ask, round, start, batch), Shortlist(ask, round, size, pool, start + size));
    } else {
      ElementsCount([]);
    }
  }

  lemma {:induction false} ShortlistOffered(ask: Oracle, round: nat, size: nat, pool: seq<FactId>, start: nat, x: FactId)
    requires size >= 1 && x in Shortlist(ask, round, size, pool, start)
    ensures x in pool
    decreases |pool| - start
  {
    hide Choose;
    var chosen := Choose(ask, round, start, pool[start..BatchEnd(pool, start, size)]);
    if x in chosen {
      ChoiceOffered(ask, round, start, pool, BatchEnd(pool, start, size), x);
    } else {
      assert Shortlist(ask, round, size, pool, start) == chosen + Shortlist(ask, round, size, pool, start + size);
      ShortlistOffered(ask, round, size, pool, start + size, x);
    }
  }

  lemma ChoiceOffered(ask: Oracle, round: nat, start: nat, pool: seq<FactId>, end: nat, x: FactId)
    requires start <= end <= |pool| && x in Choose(ask, round, start, pool[start..end])
    ensures x in pool
  {
    assert x in pool[start..end];
  }

  lemma DedupCount(s: seq<FactId>)
    ensures |Dedup(s)| == |Elements(s)|
  {
    DistinctCount(Dedup(s), Elements(s));
  }

  /** If no answer names as many ids as a batch holds, a round over a pool larger than one batch leaves
      strictly fewer candidates, all from the pool: the first batch is full and loses at least one. */
  lemma RoundShrinks(ask: Oracle, round: nat, size: nat, pool: seq<FactId>, cap: nat)
    requires size >= 1 && Capped(ask, cap) && cap < size && |pool| > size
    ensures |NextPool(ask, round, size, pool)| < |pool|
    ensures forall x :: x in NextPool(ask, round, size, pool) ==> x in pool
  {
    hide Choose, Elements;
    var first, rest := Choose(ask, round, 0, pool[0..size]), Shortlist(ask, round, size, pool, size);
    assert Shortlist(ask, round, size, pool, 0) == first + rest;
    assert |Elements(first)| <= cap;
    ShortlistCount(ask, round, size, pool, size);
    UnionCount(first, rest);
    DedupCount(first + rest);
    forall x | x in NextPool(ask, round, size, pool)
      ensures x in pool
    {
      ShortlistOffered(ask, round, size, pool, 0, x);
    }
  }

  /** A model that answers with everything it was offered, for batches of up to `size`. */
  ghost predicate Echoes(ask: Oracle, round: nat, size: nat) {
    forall start, candidates :: |candidates| <= size ==> ask(round, start, candidates) == AsInts(candidates)
  }

  /** A round can change nothing, and then the loop never ends: a model that returns what it was offered keeps
      any pool of distinct ids as it is. */
  lemma EchoedRoundStalls(ask: Oracle, round: nat, size: nat, pool: seq<FactId>)
    requires size >= 1 && Distinct(pool) && Echoes(ask, round, size)
    ensures NextPool(ask, round, size, pool) == pool
  {
    ShortlistAll(ask, round, size, pool, 0);
    assert pool[0..] == pool;
    DedupDistinct(pool);
  }

  /** Every model capped at `cap` strictly shrinks every pool of distinct ids that is longer than a batch. */
  ghost predicate AlwaysShrinks(size: nat, cap: nat)
    requires size >= 1
  {
    forall ask: Oracle, round: nat, pool: seq<FactId> :: Capped(ask, cap) && Distinct(pool) && |pool| > size
                                       ==> |NextPool(ask, round, size, pool)| < |pool|
  }

  /** The echo, silent on more than `size` candidates. */
  function Echo(size: nat): Oracle {
    (round: nat, start: nat, candidates: seq<FactId>) => if |candidates| <= size then AsInts(candidates) else []
  }

  function Range(n: nat): (r: seq<FactId>)
    ensures |r| == n && Distinct(r)
  {
    seq(n, i requires 0 <= i < n => i)
  }

  lemma EchoCapped(size: nat, cap: nat)
    requires size <= cap
    ensures Capped(Echo(size), cap)
  {
    forall round, start, candidates
      ensures |Elements(Choose(Echo(size), round, start, candidates))| <= cap
    {
      if |candidates| <= size {
        ChoiceCount(Echo(size), round, start, candidates);
      } else {
        assert Choose(Echo(size), round, start, candidates) == [];
        ElementsCount([]);
      }
    }
  }

  /** The exact boundary: the loop makes progress for all capped models if and only if the cap is smaller
      than the batch. */
  lemma ShrinksExactly(size: nat, cap: nat)
    requires size >= 1
    ensures AlwaysShrinks(size, cap) <==> cap < size
  {
    if cap < size {
      forall ask: Oracle, round: nat, pool: seq<FactId> | Capped(ask, cap) && Distinct(pool) && |pool| > size
        ensures |NextPool(ask, round, size, pool)| < |pool|
      {
        RoundShrinks(ask, round, size, pool, cap);
      }
    } else {
      EchoCapped(size, cap);
      EchoedRoundStalls(Echo(size), 0, size, Range(size + 1));
    }
  }

  function AsInts(s: seq<FactId>): (r: seq<int>)
    ensures |r| == |s| && forall i :: 0 <= i < |s| ==> r[i] == s[i]
  {
    seq(|s|, i requires 0 <= i < |s| => s[i])
  }

  lemma {:induction false} ValidAll(s: seq<FactId>, candidates: seq<FactId>)
    requires forall x :: x in s ==> x in candidates
    ensures Valid(AsInts(s), candidates) == s
    decreases |s|
  {
    if s != [] {
      var n := |s| - 1;
      hide Valid;
      ValidAll(s[..n], candidates);
      assert s[n] in s;
      assert s == s[..n] + [s[n]];
      assert AsInts(s) == AsInts(s[..n]) + [s[n]];
      ValidSnoc(AsInts(s[..n]), s[n], candidates);
    }
  }

  lemma ValidSnoc(answer: seq<int>, x: FactId, candidates: seq<FactId>)
    requires x in candidates
    ensures Valid(answer + [x], candidates) == Valid(answer, candidates) + [x]
  {
    assert (answer + [x])[..|answer|] == answer;
  }

  lemma EchoedChoice(ask: Oracle, round: nat, size: nat, start: nat, candidates: seq<FactId>)
    requires Echoes(ask, round, size) && |candidates| <= size
    ensures Choose(ask, round, start, candidates) == candidates
  {
    ValidAll(candidates, candidates);
  }

  lemma {:induction false} ShortlistAll(ask: Oracle, round: nat, size: nat, pool: seq<FactId>, start: nat)
    requires size >= 1 && Echoes(ask, round, size)
    ensures Shortlist(ask, round, size, pool, start) == if start < |pool| then pool[start..] else []
    decreases |pool| - start
  {
    hide Choose, Echoes;
    if start < |pool| {
      var end := BatchEnd(pool, start, size);
      EchoedChoice(ask, round, size, start, pool[start..end]);
      ShortlistAll(ask, round, size, pool, start + size);
      assert pool[start..] == pool[start..end] + pool[end..];
    }
  }

  lemma {:induction false} DedupDistinct(s: seq<FactId>)
    requires Distinct(s)
    ensures Dedup(s) == s
    decreases |s|
  {
    if s != [] {
      DedupDistinct(s[..|s| - 1]);
    }
  }

  // ---- the loops ------------------------------------------------------------

  /** Length of the chosen lines joined by line breaks. */
  function Joined(lines: FactId -> string, s: seq<FactId>): int {
    if s == [] then 0
    else if |s| == 1 then |lines(s[0])|
    else Joined(lines, s[..|s| - 1]) + 1 + |lines(s[|s| - 1])|
  }

  method Round(ask: Oracle, round: nat, size: nat, pool: seq<FactId>) returns (next: seq<FactId>)
    requires size >= 1
    ensures next == NextPool(ask, round, size, pool)
  {
    hide Choose, Dedup;
    var shortlisted: seq<FactId> := [];
    var start: nat := 0;
    while start < |pool|
      invariant shortlisted + Shortlist(ask, round, size, pool, start) == Shortlist(ask, round, size, pool, 0)
      decreases |pool| - start
    {
      var chosen := Choose(ask, round, start, pool[start..BatchEnd(pool, start, size)]);
      ghost var rest := Shortlist(ask, round, size, pool, start + size);
      assert (shortlisted + chosen) + rest == shortlisted + (chosen + rest);
      shortlisted, start := shortlisted + chosen, start + size;
    }
    assert shortlisted + [] == shortlisted;
    next := Dedup(shortlisted);
  }

  /** `select_profile`: the loop ends with the first pool that fits one batch, the result names offered facts only, is the longest prefix of the final
      answer that fits, and its joined lines never exceed the limit. */
  method SelectProfile(ask: Oracle, facts: seq<FactId>, lines: FactId -> string, maxChars: int, size: nat, ghost cap: nat)
    returns (selected: seq<FactId>, ghost pool: seq<FactId>, ghost rounds: nat)
    requires size >= 1 && (|facts| > size ==> Capped(ask, cap) && cap < size)
    ensures |pool| <= size && pool == PoolAfter(ask, size, facts, rounds)
    ensures forall n :: 0 <= n < rounds ==> |PoolAfter(ask, size, facts, n)| > size
    ensures var chosen := if pool == [] then [] else Choose(ask, rounds, 0, pool);
            && |selected| <= |chosen| && selected == chosen[..|selected|]
            && (selected != [] ==> Joined(lines, selected) <= maxChars)
            && (|selected| < |chosen| ==> Joined(lines, chosen[..|selected| + 1]) > maxChars)
    ensures forall x :: x in selected ==> x in facts
  {
    hide NextPool, Choose, Joined, Capped;
    var current, n := facts, 0;
    while |current| > size
      invariant |current| <= |facts| && forall x :: x in current ==> x in facts
      invariant current == PoolAfter(ask, size, facts, n)
      invariant forall m :: 0 <= m < n ==> |PoolAfter(ask, size, facts, m)| > size
      decreases |current|
    {
      RoundShrinks(ask, n, size, current, cap);
      current := Round(ask, n, size, current);
      n := n + 1;
    }
    pool, rounds := current, n;
    var chosen := if current == [] then [] else Choose(ask, n, 0, current);
    selected := CutToFit(chosen, lines, maxChars);
    forall x | x in selected
      ensures x in facts
    {
      assert x in chosen;
      Offered(ask, n, current, x);
    }
  }

  lemma Offered(ask: Oracle, round: nat, candidates: seq<FactId>, x: FactId)
    requires x in Choose(ask, round, 0, candidates)
    ensures x in candidates
  {
  }

  method CutToFit(chosen: seq<FactId>, lines: FactId -> string, maxChars: int) returns (selected: seq<FactId>)
    ensures |selected| <= |chosen| && selected == chosen[..|selected|]
    ensures selected != [] ==> Joined(lines, selected) <= maxChars
    ensures |selected| < |chosen| ==> Joined(lines, chosen[..|selected| + 1]) > maxChars
  {
    selected := [];
    var size := 0;
    for i := 0 to |chosen|
      invariant selected == chosen[..i]
      invariant size == if i == 0 then 0 else Joined(lines, selected) + 1
      invariant selected != [] ==> Joined(lines, selected) <= maxChars
    {
      var line := lines(chosen[i]);
      assert chosen[..i + 1][..i] == chosen[..i];
      assert Joined(lines, chosen[..i + 1]) == size + |line|;
      if size + |line| > maxChars {
        return;
      }
      selected := selected + [chosen[i]];
      size := size + |line| + 1;
    }
  }
}
