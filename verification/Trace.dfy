/** Trace expansion: from the clues and the items they match, repeatedly add the evidence that shares an
    identifier or a session with what is already known. */
module Trace {
  import opened Wrappers

  type Id = string

  /** A piece of evidence: its key, its own identifier, the identifiers it links to and its session. */
  datatype Item = Item(key: string, id: Id, links: set<Id>, session: Option<string>)

  datatype Clues = Clues(ids: set<Id>, session: Option<string>)

  // ---- what joins evidence --------------------------------------------------

  predicate SameSession(a: Option<string>, b: Option<string>) {
    a.Some? && a == b
  }

  /** `b` mentions an identifier of `a`, or happened in the same session. */
  predicate Joined(a: Item, b: Item) {
    b.links * (a.links + {a.id}) != {} || SameSession(a.session, b.session)
  }

  predicate JoinedToClues(c: Clues, b: Item) {
    b.links * c.ids != {} || SameSession(c.session, b.session)
  }

  /** A chain of evidence from a seed, or from a given clue, each item joined to the one before. */
  ghost predicate Chain(c: Clues, seeds: seq<Item>, evidence: seq<Item>, path: seq<Item>) {
    && path != []
    && (path[0] in seeds || JoinedToClues(c, path[0]))
    && (forall i :: 0 <= i < |path| ==> path[i] in seeds || path[i] in evidence)
    && (forall i :: 0 <= i < |path| - 1 ==> Joined(path[i], path[i + 1]))
  }

  ghost predicate Reached(c: Clues, seeds: seq<Item>, evidence: seq<Item>, x: Item) {
    exists path :: Chain(c, seeds, evidence, path) && path[|path| - 1] == x
  }

  lemma SeedReached(c: Clues, seeds: seq<Item>, evidence: seq<Item>, x: Item)
    requires x in seeds
    ensures Reached(c, seeds, evidence, x)
  {
    assert Chain(c, seeds, evidence, [x]);
  }

  lemma ClueReached(c: Clues, seeds: seq<Item>, evidence: seq<Item>, x: Item)
    requires x in evidence && JoinedToClues(c, x)
    ensures Reached(c, seeds, evidence, x)
  {
    assert Chain(c, seeds, evidence, [x]);
  }

  lemma ChainReached(c: Clues, seeds: seq<Item>, evidence: seq<Item>, a: Item, x: Item)
    requires Reached(c, seeds, evidence, a) && x in evidence && Joined(a, x)
    ensures Reached(c, seeds, evidence, x)
  {
    var path :| Chain(c, seeds, evidence, path) && path[|path| - 1] == a;
    var longer := path + [x];
    assert forall i :: 0 <= i < |path| ==> longer[i] == path[i];
    assert Chain(c, seeds, evidence, longer);
  }

  // ---- the state of the expansion -------------------------------------------

  datatype Known = Known(selected: map<string, Item>, ids: set<Id>, sessions: set<string>)

  predicate Related(k: Known, x: Item) {
    x.links * k.ids != {} || (x.session.Some? && x.session.value in k.sessions)
  }

  /** An item that brought an identifier (or a session) into what is known. */
  ghost predicate Source(c: Clues, seeds: seq<Item>, evidence: seq<Item>, a: Item, id: Id) {
    Reached(c, seeds, evidence, a) && id in a.links + {a.id}
  }

  ghost predicate SessionSource(c: Clues, seeds: seq<Item>, evidence: seq<Item>, a: Item, session: string) {
    Reached(c, seeds, evidence, a) && a.session == Some(session)
  }

  /** Everything selected is reached, and everything known comes from a clue or a reached item. */
  ghost predicate Justified(c: Clues, seeds: seq<Item>, evidence: seq<Item>, k: Known) {
    && (forall x :: x in k.selected ==> Reached(c, seeds, evidence, k.selected[x]))
    && (forall id :: id in k.ids ==> id in c.ids || exists a :: Source(c, seeds, evidence, a, id))
    && (forall s :: s in k.sessions ==> c.session == Some(s) || exists a :: SessionSource(c, seeds, evidence, a, s))
  }

  /** Selected items are filed under their own key, come from the input, and their links and their session are
      known; of an added item its own identifier is known, too. */
  ghost predicate Filed(seeds: seq<Item>, evidence: seq<Item>, k: Known) {
    forall x :: x in k.selected ==>
                  && k.selected[x].key == x && k.selected[x].links <= k.ids
                  && (k.selected[x].session.Some? ==> k.selected[x].session.value in k.sessions)
                  && (k.selected[x] in seeds || (k.selected[x] in evidence && k.selected[x].id in k.ids))
  }

  function Select(k: Known, x: Item): Known {
    Known(k.selected[x.key := x], k.ids + {x.id} + x.links,
          k.sessions + if x.session.Some? then {x.session.value} else {})
  }

  /** A related item is joined to something that was reached. */
  lemma RelatedReached(c: Clues, seeds: seq<Item>, evidence: seq<Item>, k: Known, x: Item)
    requires Justified(c, seeds, evidence, k) && x in evidence && Related(k, x)
    ensures Reached(c, seeds, evidence, x)
  {
    hide Reached;
    if x.links * k.ids != {} {
      var id :| id in x.links * k.ids;
      if id in c.ids {
        assert id in x.links * c.ids;
        ClueReached(c, seeds, evidence, x);
      } else {
        var a :| Source(c, seeds, evidence, a, id);
        assert id in x.links * (a.links + {a.id});
        ChainReached(c, seeds, evidence, a, x);
      }
    } else if c.session == x.session {
      ClueReached(c, seeds, evidence, x);
    } else {
      var a :| SessionSource(c, seeds, evidence, a, x.session.value);
      ChainReached(c, seeds, evidence, a, x);
    }
  }

  lemma SelectJustified(c: Clues, seeds: seq<Item>, evidence: seq<Item>, k: Known, x: Item)
    requires Justified(c, seeds, evidence, k) && Reached(c, seeds, evidence, x)
    ensures Justified(c, seeds, evidence, Select(k, x))
  {
    hide Reached;
    var k' := Select(k, x);
    forall id | id in k'.ids && id !in k.ids
      ensures exists a :: Source(c, seeds, evidence, a, id)
    {
      assert Source(c, seeds, evidence, x, id);
    }
    forall s | s in k'.sessions && s !in k.sessions
      ensures exists a :: SessionSource(c, seeds, evidence, a, s)
    {
      assert SessionSource(c, seeds, evidence, x, s);
    }
  }

  // ---- the loops ------------------------------------------------------------

  /** The seeds and what they make known; a seed contributes its links and its session. */
  method Seed(c: Clues, seeds: seq<Item>, ghost evidence: seq<Item>) returns (k: Known)
    ensures Justified(c, seeds, evidence, k)
    ensures SeedsSelected(seeds, k)
    ensures k.ids == c.ids + SeedLinks(seeds) && Filed(seeds, evidence, k) && KnowsClues(c, k)
  {
    hide Reached, SeedLinks;
    NoSeedLinks();
    k := Known(map[], c.ids, if c.session.Some? then {c.session.value} else {});
    for i := 0 to |seeds|
      invariant Justified(c, seeds, evidence, k)
      invariant forall j :: 0 <= j < i ==> seeds[j].key in k.selected
      invariant k.ids == c.ids + SeedLinks(seeds[..i]) && Filed(seeds, evidence, k) && KnowsClues(c, k)
    {
      var x := seeds[i];
      assert seeds[..i + 1] == seeds[..i] + [x];
      SeedLinksSnoc(seeds[..i], x);
      SeedReached(c, seeds, evidence, x);
      SelectJustified(c, seeds, evidence, k, x);
      ghost var full := Select(k, x);
      k := Known(k.selected[x.key := x], k.ids + x.links,
                 k.sessions + if x.session.Some? then {x.session.value} else {});
      Weaker(c, seeds, evidence, full, k);
    }
    assert seeds[..|seeds|] == seeds;
  }

  lemma Weaker(c: Clues, seeds: seq<Item>, evidence: seq<Item>, k: Known, k': Known)
    requires Justified(c, seeds, evidence, k)
    requires k'.selected == k.selected && k'.ids <= k.ids && k'.sessions == k.sessions
    ensures Justified(c, seeds, evidence, k')
  {
    hide Reached, Source, SessionSource;
  }

  /** The known part only grows. */
  ghost predicate Grows(k: Known, k': Known) {
    k.selected.Keys <= k'.selected.Keys && k.ids <= k'.ids && k.sessions <= k'.sessions
  }

  /** Every item of `items` that mentions a known identifier is selected. */
  ghost predicate Covered(items: seq<Item>, ids: set<Id>, selected: map<string, Item>) {
    forall i :: 0 <= i < |items| && items[i].links * ids != {} ==> items[i].key in selected
  }

  /** Every item of `items` that shares an identifier or a session with what is known is selected. */
  ghost predicate Collected(items: seq<Item>, k: Known, selected: map<string, Item>) {
    forall i :: 0 <= i < |items| && Related(k, items[i]) ==> items[i].key in selected
  }

  /** The clues are known. */
  predicate KnowsClues(c: Clues, k: Known) {
    c.ids <= k.ids && (c.session.Some? ==> c.session.value in k.sessions)
  }

  /** One pass over the evidence; `changed` says that a new identifier became known. */
  method Pass(c: Clues, ghost seeds: seq<Item>, evidence: seq<Item>, k0: Known) returns (k: Known, changed: bool)
    requires Justified(c, seeds, evidence, k0) && Filed(seeds, evidence, k0)
    ensures Justified(c, seeds, evidence, k) && Filed(seeds, evidence, k) && Grows(k0, k)
    ensures changed <==> k.ids != k0.ids
    ensures Collected(evidence, k0, k.selected)
  {
    hide Justified, Reached;
    k, changed := k0, false;
    for i := 0 to |evidence|
      invariant Justified(c, seeds, evidence, k) && Filed(seeds, evidence, k) && Grows(k0, k)
      invariant changed <==> k.ids != k0.ids
      invariant Collected(evidence[..i], k0, k.selected)
    {
      var x := evidence[i];
      assert evidence[..i + 1] == evidence[..i] + [x];
      if x.key in k.selected {
        continue;
      }
      if !Related(k, x) {
        continue;
      }
      RelatedReached(c, seeds, evidence, k, x);
      SelectJustified(c, seeds, evidence, k, x);
      var before := |k.ids|;
      ghost var was := k.ids;
      k := Select(k, x);
      GrownCount(was, k.ids);
      changed := changed || |k.ids| != before;
    }
    assert evidence[..|evidence|] == evidence;
  }

  lemma GrownCount(a: set<Id>, b: set<Id>)
    requires a <= b
    ensures |a| == |b| <==> a == b
  {
    assert b == a + (b - a);
  }

  // ---- completeness ---------------------------------------------------------

  /** The identifiers an item makes known: its links, and its own unless it is a seed. */
  function Brings(seeds: seq<Item>, x: Item): set<Id> {
    if x in seeds then x.links else x.links + {x.id}
  }

  /** A chain in which each item links to an identifier that the one before makes known. */
  ghost predicate LinkChain(c: Clues, seeds: seq<Item>, evidence: seq<Item>, path: seq<Item>) {
    && path != []
    && (path[0] in seeds || path[0].links * c.ids != {})
    && (forall i :: 0 <= i < |path| ==> path[i] in seeds || path[i] in evidence)
    && (forall i :: 0 <= i < |path| - 1 ==> path[i + 1].links * Brings(seeds, path[i]) != {})
  }

  /** Keys identify items. */
  ghost predicate UniqueKeys(seeds: seq<Item>, evidence: seq<Item>) {
    forall x, y :: x in seeds + evidence && y in seeds + evidence && x.key == y.key ==> x == y
  }

  /** An expansion that stopped by itself has selected everything that a chain of shared identifiers, of any
      length, connects to a seed or to a given identifier. */
  lemma {:induction false} ClosedIsComplete(c: Clues, seeds: seq<Item>, evidence: seq<Item>, k: Known, path: seq<Item>)
    requires Covered(evidence, k.ids, k.selected) && Filed(seeds, evidence, k) && c.ids <= k.ids
    requires forall i :: 0 <= i < |seeds| ==> seeds[i].key in k.selected
    requires UniqueKeys(seeds, evidence) && LinkChain(c, seeds, evidence, path)
    ensures var last := path[|path| - 1]; last.key in k.selected && k.selected[last.key] == last
    decreases |path|
  {
    var n := |path| - 1;
    var last := path[n];
    if last in seeds {
      assert last.key in k.selected;
    } else {
      if n > 0 {
        var init := path[..n];
        assert forall i :: 0 <= i < |init| ==> init[i] == path[i];
        ClosedIsComplete(c, seeds, evidence, k, init);
        assert path[n].links * Brings(seeds, path[n - 1]) != {};
        assert Brings(seeds, path[n - 1]) <= k.ids;
      }
      assert last.links * k.ids != {};
    }
  }

  // ---- the expansion --------------------------------------------------------

  /** `b` links to an identifier that `a` makes known, or happened in the same session. */
  predicate Leads(seeds: seq<Item>, a: Item, b: Item) {
    b.links * Brings(seeds, a) != {} || SameSession(a.session, b.session)
  }

  /** A chain in which each item leads to the next, from a seed or a clue. */
  ghost predicate LeadChain(c: Clues, seeds: seq<Item>, evidence: seq<Item>, path: seq<Item>) {
    && path != []
    && (path[0] in seeds || JoinedToClues(c, path[0]))
    && (forall i :: 0 <= i < |path| ==> path[i] in seeds || path[i] in evidence)
    && (forall i :: 0 <= i < |path| - 1 ==> Leads(seeds, path[i], path[i + 1]))
  }

  /** How many steps lead to the end of a chain; a first item that is no seed is one step away from a clue. */
  function Length(seeds: seq<Item>, path: seq<Item>): int
    requires path != []
  {
    if path[0] in seeds then |path| - 1 else |path|
  }

  predicate Selected(k: Known, x: Item) {
    x.key in k.selected && k.selected[x.key] == x
  }

  /** Everything at most `n` steps away from a seed or a clue is selected. */
  ghost predicate CompleteTo(c: Clues, seeds: seq<Item>, evidence: seq<Item>, k: Known, n: nat) {
    forall path :: LeadChain(c, seeds, evidence, path) && Length(seeds, path) <= n ==> Selected(k, path[|path| - 1])
  }

  ghost predicate SeedsSelected(seeds: seq<Item>, k: Known) {
    forall i :: 0 <= i < |seeds| ==> seeds[i].key in k.selected
  }

  lemma KeySelects(seeds: seq<Item>, evidence: seq<Item>, k: Known, x: Item)
    requires UniqueKeys(seeds, evidence) && Filed(seeds, evidence, k) && x in seeds + evidence && x.key in k.selected
    ensures Selected(k, x)
  {
  }

  lemma SeedComplete(c: Clues, seeds: seq<Item>, evidence: seq<Item>, k: Known)
    requires UniqueKeys(seeds, evidence) && Filed(seeds, evidence, k) && SeedsSelected(seeds, k)
    ensures CompleteTo(c, seeds, evidence, k, 0)
  {
    hide UniqueKeys, Filed;
    forall path | LeadChain(c, seeds, evidence, path) && Length(seeds, path) <= 0
      ensures Selected(k, path[|path| - 1])
    {
      KeySelects(seeds, evidence, k, path[0]);
    }
  }

  /** A chain without its last item. */
  lemma ChainBefore(c: Clues, seeds: seq<Item>, evidence: seq<Item>, path: seq<Item>)
    requires LeadChain(c, seeds, evidence, path) && |path| > 1
    ensures var init := path[..|path| - 1];
            && LeadChain(c, seeds, evidence, init) && Length(seeds, init) == Length(seeds, path) - 1
            && Leads(seeds, init[|init| - 1], path[|path| - 1])
  {
    hide Leads, JoinedToClues;
    var init := path[..|path| - 1];
    assert forall i :: 0 <= i < |init| ==> init[i] == path[i];
  }

  /** What a selected item leads to, or a clue, is related to what is known. */
  lemma LeadsRelated(seeds: seq<Item>, evidence: seq<Item>, k: Known, a: Item, b: Item)
    requires Filed(seeds, evidence, k) && Selected(k, a) && Leads(seeds, a, b)
    ensures Related(k, b)
  {
    if b.links * Brings(seeds, a) != {} {
      var id :| id in b.links * Brings(seeds, a);
      assert id in b.links * k.ids;
    }
  }

  lemma ClueRelated(c: Clues, k: Known, b: Item)
    requires KnowsClues(c, k) && JoinedToClues(c, b)
    ensures Related(k, b)
  {
    if b.links * c.ids != {} {
      var id :| id in b.links * c.ids;
      assert id in b.links * k.ids;
    }
  }

  lemma CollectedSelects(items: seq<Item>, k: Known, selected: map<string, Item>, x: Item)
    requires Collected(items, k, selected) && x in items && Related(k, x)
    ensures x.key in selected
  {
  }

  /** The end of a chain that is one step longer is selected by the next pass. */
  lemma PassSelects(c: Clues, seeds: seq<Item>, evidence: seq<Item>, k0: Known, k: Known, n: nat, path: seq<Item>)
    requires UniqueKeys(seeds, evidence) && Filed(seeds, evidence, k0) && Filed(seeds, evidence, k)
    requires SeedsSelected(seeds, k) && KnowsClues(c, k0) && Collected(evidence, k0, k.selected)
    requires CompleteTo(c, seeds, evidence, k0, n)
    requires LeadChain(c, seeds, evidence, path) && Length(seeds, path) <= n + 1
    ensures Selected(k, path[|path| - 1])
  {
    hide UniqueKeys, Filed, Collected, Leads, Selected, KnowsClues, JoinedToClues, Related;
    var m := |path| - 1;
    var last := path[m];
    if last !in seeds {
      if m > 0 {
        ChainBefore(c, seeds, evidence, path);
        var init := path[..m];
        LeadsRelated(seeds, evidence, k0, init[m - 1], last);
      } else {
        ClueRelated(c, k0, last);
      }
      CollectedSelects(evidence, k0, k.selected, last);
    }
    KeySelects(seeds, evidence, k, last);
  }

  /** One pass reaches one step further. */
  lemma PassCompletes(c: Clues, seeds: seq<Item>, evidence: seq<Item>, k0: Known, k: Known, n: nat)
    requires UniqueKeys(seeds, evidence) && Filed(seeds, evidence, k0) && Filed(seeds, evidence, k)
    requires SeedsSelected(seeds, k) && KnowsClues(c, k0) && Collected(evidence, k0, k.selected)
    requires CompleteTo(c, seeds, evidence, k0, n)
    ensures CompleteTo(c, seeds, evidence, k, n + 1)
  {
    hide UniqueKeys, Filed, Collected, SeedsSelected, Selected, KnowsClues;
    forall path | LeadChain(c, seeds, evidence, path) && Length(seeds, path) <= n + 1
      ensures Selected(k, path[|path| - 1])
    {
      PassSelects(c, seeds, evidence, k0, k, n, path);
    }
  }

  function SeedLinks(seeds: seq<Item>): set<Id> {
    set x, id | x in seeds && id in x.links :: id
  }

  lemma NoSeedLinks()
    ensures SeedLinks([]) == {}
  {
  }

  lemma SeedLinksSnoc(seeds: seq<Item>, x: Item)
    ensures SeedLinks(seeds + [x]) == SeedLinks(seeds) + x.links
  {
    assert forall y :: y in seeds + [x] <==> y in seeds || y == x;
    forall id | id in SeedLinks(seeds + [x])
      ensures id in SeedLinks(seeds) + x.links
    {
      var y :| y in seeds + [x] && id in y.links;
    }
  }

  /** The identifiers known before the first pass and after each pass: every pass but the last brought new ones,
      at most four were made, and fewer only if the last one brought none. */
  ghost predicate Passes(trail: seq<set<Id>>, closed: bool) {
    && 2 <= |trail| <= 5
    && (forall i :: 0 <= i < |trail| - 2 ==> trail[i] < trail[i + 1])
    && (closed <==> trail[|trail| - 1] == trail[|trail| - 2])
    && (!closed ==> |trail| == 5 && trail[3] < trail[4])
  }

  /** `trace_evidence`: at most four passes, stopping early when no new identifier became known. What is selected
      is reached by a chain; everything as many steps away as passes were made is selected; and an expansion that
      stopped early has selected everything that mentions a known identifier. */
  method Expand(c: Clues, seeds: seq<Item>, evidence: seq<Item>)
    returns (k: Known, closed: bool, ghost trail: seq<set<Id>>)
    ensures forall x :: x in k.selected ==> Reached(c, seeds, evidence, k.selected[x])
    ensures SeedsSelected(seeds, k) && KnowsClues(c, k) && Filed(seeds, evidence, k)
    ensures closed ==> Covered(evidence, k.ids, k.selected)
    ensures Passes(trail, closed) && trail[0] == c.ids + SeedLinks(seeds) && trail[|trail| - 1] == k.ids
    ensures UniqueKeys(seeds, evidence) ==> CompleteTo(c, seeds, evidence, k, |trail| - 1)
  {
    hide Reached, Filed, Covered, Collected, CompleteTo, UniqueKeys, SeedsSelected, SeedLinks;
    k := Seed(c, seeds, evidence);
    if UniqueKeys(seeds, evidence) {
      SeedComplete(c, seeds, evidence, k);
    }
    closed := false;
    trail := [k.ids];
    for n := 0 to 4
      invariant Justified(c, seeds, evidence, k) && !closed
      invariant SeedsSelected(seeds, k) && KnowsClues(c, k) && Filed(seeds, evidence, k)
      invariant UniqueKeys(seeds, evidence) ==> CompleteTo(c, seeds, evidence, k, n)
      invariant |trail| == n + 1 && trail[0] == c.ids + SeedLinks(seeds) && trail[n] == k.ids
      invariant forall i :: 0 <= i < n ==> trail[i] < trail[i + 1]
    {
      ghost var k0 := k;
      var changed;
      k, changed := Pass(c, seeds, evidence, k);
      SeedsStay(seeds, k0, k);
      if UniqueKeys(seeds, evidence) {
        PassCompletes(c, seeds, evidence, k0, k, n);
      }
      trail := trail + [k.ids];
      if !changed {
        closed := true;
        CollectedCovers(evidence, k0, k.selected);
        break;
      }
    }
  }

  lemma CollectedCovers(items: seq<Item>, k: Known, selected: map<string, Item>)
    requires Collected(items, k, selected)
    ensures Covered(items, k.ids, selected)
  {
    forall i | 0 <= i < |items| && items[i].links * k.ids != {}
      ensures items[i].key in selected
    {
      assert Related(k, items[i]);
    }
  }

  lemma SeedsStay(seeds: seq<Item>, k0: Known, k: Known)
    requires SeedsSelected(seeds, k0) && Grows(k0, k)
    ensures SeedsSelected(seeds, k)
  {
  }

  lemma LinksLead(c: Clues, seeds: seq<Item>, evidence: seq<Item>, path: seq<Item>)
    requires LinkChain(c, seeds, evidence, path)
    ensures LeadChain(c, seeds, evidence, path)
  {
  }

  /** Whether it stopped early or not, an expansion has selected everything that at most four shared identifiers
      connect to a seed or a given identifier. */
  lemma FourLinksAreSelected(c: Clues, seeds: seq<Item>, evidence: seq<Item>, k: Known, closed: bool,
                             trail: seq<set<Id>>, path: seq<Item>)
    requires UniqueKeys(seeds, evidence) && SeedsSelected(seeds, k) && KnowsClues(c, k) && Filed(seeds, evidence, k)
    requires (closed ==> Covered(evidence, k.ids, k.selected)) && Passes(trail, closed)
    requires CompleteTo(c, seeds, evidence, k, |trail| - 1)
    requires LinkChain(c, seeds, evidence, path) && Length(seeds, path) <= 4
    ensures Selected(k, path[|path| - 1])
  {
    if closed {
      ClosedIsComplete(c, seeds, evidence, k, path);
    } else {
      LinksLead(c, seeds, evidence, path);
    }
  }
}
