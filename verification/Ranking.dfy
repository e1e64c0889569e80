/** Reciprocal-rank fusion of the direct and the graph ranking, over exact rationals. */
module Ranking {
  import opened Sequences

  /** A ranked record; `score` is the score it is sorted by. */
  datatype Item = Item(id: nat, created: int, score: real)

  type Graph = map<nat, real>

  const RANK_CONSTANT := 60.0
  const GRAPH_WEIGHT := 2.0

  // ---- sorting --------------------------------------------------------------

  /** The sort key: higher score, then older, then smaller id. */
  predicate Ahead(a: Item, b: Item) {
    || a.score > b.score
    || (a.score == b.score && (a.created < b.created || (a.created == b.created && a.id <= b.id)))
  }

  ghost predicate Sorted(s: seq<Item>) {
    forall i, j :: 0 <= i < j < |s| ==> Ahead(s[i], s[j])
  }

  function Insert(s: seq<Item>, x: Item): seq<Item> {
    if s == [] || Ahead(x, s[0]) then [x] + s else [s[0]] + Insert(s[1..], x)
  }

  function Sort(s: seq<Item>): seq<Item> {
    if s == [] then [] else Insert(Sort(s[..|s| - 1]), s[|s| - 1])
  }

  lemma {:induction false} InsertPermutes(s: seq<Item>, x: Item)
    ensures multiset(Insert(s, x)) == multiset(s) + multiset{x}
    decreases |s|
  {
    if !(s == [] || Ahead(x, s[0])) {
      InsertPermutes(s[1..], x);
      assert s == [s[0]] + s[1..];
    }
  }

  lemma {:induction false} InsertSorts(s: seq<Item>, x: Item)
    requires Sorted(s)
    ensures Sorted(Insert(s, x))
    decreases |s|
  {
    if s == [] {
    } else if Ahead(x, s[0]) {
      forall j | 0 <= j < |s|
        ensures Ahead(x, s[j])
      {
        assert j > 0 ==> Ahead(s[0], s[j]);
      }
    } else {
      var rest := Insert(s[1..], x);
      InsertSorts(s[1..], x);
      InsertPermutes(s[1..], x);
      forall j | 0 <= j < |rest|
        ensures Ahead(s[0], rest[j])
      {
        assert rest[j] in multiset(rest);
        assert rest[j] == x || rest[j] in s[1..];
      }
    }
  }

  lemma {:induction false} SortSpec(s: seq<Item>)
    ensures Sorted(Sort(s)) && multiset(Sort(s)) == multiset(s)
    decreases |s|
  {
    if s != [] {
      var n := |s| - 1;
      assert s == s[..n] + [s[n]];
      SortSpec(s[..n]);
      InsertSorts(Sort(s[..n]), s[n]);
      InsertPermutes(Sort(s[..n]), s[n]);
    }
  }

  // ---- the fused score ------------------------------------------------------

  /** Entries of the graph ranking in front of `id`: higher score, or the same score and a smaller id. */
  function Better(graph: Graph, id: nat): set<nat>
    requires id in graph
  {
    set j | j in graph && (graph[j] > graph[id] || (graph[j] == graph[id] && j < id))
  }

  /** `_graph_ranks`, counted from 1. */
  function GraphRank(graph: Graph, id: nat): nat
    requires id in graph
  {
    1 + |Better(graph, id)|
  }

  function Clamp(x: real): (r: real)
    ensures 0.0 <= r <= 1.0
  {
    if x < 0.0 then 0.0 else if x > 1.0 then 1.0 else x
  }

  function Reciprocal(rank: nat): (r: real)
    requires rank >= 1
    ensures r > 0.0
  {
    1.0 / (RANK_CONSTANT + rank as real)
  }

  function GraphPart(graph: Graph, id: nat): real {
    if id in graph then GRAPH_WEIGHT * Clamp(graph[id]) * Reciprocal(GraphRank(graph, id)) else 0.0
  }

  const MAXIMUM := (1.0 + GRAPH_WEIGHT) / (RANK_CONSTANT + 1.0)

  /** The unrounded score of the record at `rank` of the direct ranking. */
  function Fused(graph: Graph, id: nat, rank: nat): real
    requires rank >= 1
  {
    (Reciprocal(rank) + GraphPart(graph, id)) / MAXIMUM
  }

  /** Round to an integer, halves to the even one. */
  function Round(x: real): int {
    var f := x.Floor;
    var d := x - f as real;
    if d > 0.5 || (d == 0.5 && f % 2 != 0) then f + 1 else f
  }

  /** Six decimals, counted in millionths. */
  function Rounded(x: real): real {
    Round(x * 1000000.0) as real
  }

  function Rescored(lexical: seq<Item>, graph: Graph): (r: seq<Item>)
    ensures |r| == |lexical|
    ensures forall i :: 0 <= i < |r| ==>
                          r[i] == lexical[i].(score := Rounded(Fused(graph, lexical[i].id, i + 1)))
  {
    seq(|lexical|, i requires 0 <= i < |lexical| => lexical[i].(score := Rounded(Fused(graph, lexical[i].id, i + 1))))
  }

  /** `_blend_graph_scores`: without graph evidence the direct ranking is returned as it is. */
  function Blend(lexical: seq<Item>, graph: Graph): seq<Item> {
    if graph == map[] then lexical else Sort(Rescored(lexical, graph))
  }

  // ---- the graph ranks are the positions of a sorted enumeration ------------

  ghost predicate Enumerates(graph: Graph, order: seq<nat>) {
    && (forall x :: x in order <==> x in graph)
    && (forall i, j :: 0 <= i < j < |order| ==>
                         graph[order[i]] > graph[order[j]] || (graph[order[i]] == graph[order[j]] && order[i] < order[j]))
  }

  /** Listing the graph candidates by descending score and id puts each at the position of its rank. */
  lemma GraphRankIsPosition(graph: Graph, order: seq<nat>, i: nat)
    requires Enumerates(graph, order) && i < |order|
    ensures order[i] in graph && GraphRank(graph, order[i]) == i + 1
  {
    assert order[i] in order;
    var better := Better(graph, order[i]);
    assert forall k :: 0 <= k < |order| ==> order[k] in order && order[k] in graph;
    forall j
      ensures j in better <==> j in order[..i]
    {
      if j in better {
        var k :| 0 <= k < |order| && order[k] == j;
        assert order[..i][k] == j;
      }
      if j in order[..i] {
        var k :| 0 <= k < i && order[..i][k] == j;
        assert order[k] == j;
      }
    }
    assert Distinct(order[..i]);
    DistinctCount(order[..i], better);
  }

  // ---- bounds ---------------------------------------------------------------

  lemma ReciprocalBound(rank: nat)
    requires rank >= 1
    ensures Reciprocal(rank) <= 1.0 / 61.0 && (Reciprocal(rank) == 1.0 / 61.0 <==> rank == 1)
  {
    var d := RANK_CONSTANT + rank as real;
    assert d >= 61.0;
    var r := 1.0 / d;
    assert r * d == 1.0;
    if rank > 1 {
      assert d >= 62.0;
      assert r * 61.0 < 1.0;
    }
  }

  lemma GraphPartBound(graph: Graph, id: nat)
    ensures 0.0 <= GraphPart(graph, id) <= 2.0 / 61.0
    ensures GraphPart(graph, id) == 2.0 / 61.0 <==> id in graph && GraphRank(graph, id) == 1 && graph[id] >= 1.0
  {
    if id in graph {
      var c, r := Clamp(graph[id]), Reciprocal(GraphRank(graph, id));
      ReciprocalBound(GraphRank(graph, id));
      hide Reciprocal, GraphRank, Clamp;
      Product(c, r);
    }
  }

  lemma Product(c: real, r: real)
    requires 0.0 <= c <= 1.0 && 0.0 < r <= 1.0 / 61.0
    ensures 0.0 <= 2.0 * c * r <= 2.0 / 61.0
    ensures 2.0 * c * r == 2.0 / 61.0 <==> c == 1.0 && r == 1.0 / 61.0
  {
    assert c * r <= r;
    if c < 1.0 {
      assert c * r < r;
    }
  }

  /** The strength of the graph evidence, at most one. */
  function Strength(graph: Graph, id: nat): real
    requires id in graph
  {
    if graph[id] < 0.0 then 0.0 else if graph[id] > 1.0 then 1.0 else graph[id]
  }

  lemma ReciprocalTimes(rank: nat)
    requires rank >= 1
    ensures Reciprocal(rank) * (60.0 + rank as real) == 1.0
  {
  }

  lemma Clear(fused: real, r: real, g: real, strength: real, a: real, b: real)
    requires fused == (r + 2.0 * strength * g) * 61.0 / 3.0 && r * a == 1.0 && g * b == 1.0
    ensures 3.0 * fused * (a * b) == 61.0 * (b + 2.0 * strength * a)
  {
    assert (r * a) * b == b && (strength * (g * b)) * a == strength * a;
    calc {
      3.0 * fused * (a * b);
      61.0 * (r + 2.0 * strength * g) * (a * b);
      61.0 * ((r * a) * b + 2.0 * ((strength * (g * b)) * a));
      61.0 * (b + 2.0 * strength * a);
    }
  }

  /** The unrounded score without fractions: the direct rank counts once and the graph rank twice, weighted by the
      strength of the evidence. */
  lemma FusedExactly(graph: Graph, id: nat, rank: nat)
    requires rank >= 1
    ensures id !in graph ==> 3.0 * Fused(graph, id, rank) * (60.0 + rank as real) == 61.0
    ensures id in graph ==>
              var a, b := 60.0 + rank as real, 60.0 + GraphRank(graph, id) as real;
              3.0 * Fused(graph, id, rank) * (a * b) == 61.0 * (b + 2.0 * Strength(graph, id) * a)
  {
    assert MAXIMUM == 3.0 / 61.0;
    ReciprocalTimes(rank);
    if id in graph {
      ReciprocalTimes(GraphRank(graph, id));
      hide Reciprocal, GraphRank;
      var r, g := Reciprocal(rank), Reciprocal(GraphRank(graph, id));
      assert Fused(graph, id, rank) == (r + 2.0 * Strength(graph, id) * g) * 61.0 / 3.0;
      Clear(Fused(graph, id, rank), r, g, Strength(graph, id), 60.0 + rank as real, 60.0 + GraphRank(graph, id) as real);
    } else {
      hide Reciprocal;
      var r, a := Reciprocal(rank), 60.0 + rank as real;
      assert Fused(graph, id, rank) == r * 61.0 / 3.0;
      assert 3.0 * (r * 61.0 / 3.0) * a == 61.0 * (r * a);
    }
  }

  /** Every unrounded score lies in (0, 1], and is 1 only at rank 1 of both rankings with full strength. */
  lemma ScoreRange(graph: Graph, id: nat, rank: nat)
    requires rank >= 1
    ensures 0.0 < Fused(graph, id, rank) <= 1.0
    ensures Fused(graph, id, rank) == 1.0
            <==> rank == 1 && id in graph && GraphRank(graph, id) == 1 && graph[id] >= 1.0
  {
    ReciprocalBound(rank);
    GraphPartBound(graph, id);
    hide Reciprocal, GraphPart, GraphRank;
    var sum := Reciprocal(rank) + GraphPart(graph, id);
    assert MAXIMUM == 3.0 / 61.0;
    assert Fused(graph, id, rank) == sum * 61.0 / 3.0;
  }

  // ---- the result -----------------------------------------------------------

  /** The fused ranking is a permutation of the rescored records in descending score. */
  lemma BlendIsSortedPermutation(lexical: seq<Item>, graph: Graph)
    requires graph != map[]
    ensures multiset(Blend(lexical, graph)) == multiset(Rescored(lexical, graph))
    ensures Sorted(Blend(lexical, graph))
  {
    SortSpec(Rescored(lexical, graph));
  }

  ghost predicate DistinctIds(s: seq<Item>) {
    DistinctBy(s, (x: Item) => x.id)
  }

  /** A result row is the rescored record of the same id. */
  lemma ResultRow(lexical: seq<Item>, graph: Graph, i: nat, a: nat)
    requires graph != map[] && DistinctIds(lexical) && i < |lexical|
    requires a < |Blend(lexical, graph)| && Blend(lexical, graph)[a].id == lexical[i].id
    ensures Blend(lexical, graph)[a] == Rescored(lexical, graph)[i]
  {
    hide Sort, Fused, Rounded;
    var r, s := Blend(lexical, graph), Rescored(lexical, graph);
    SortSpec(s);
    assert r[a] in multiset(r);
    assert r[a] in s;
    var j :| 0 <= j < |s| && s[j] == r[a];
    assert lexical[j].id == lexical[i].id;
  }

  /** Millionths of the score of a record without graph evidence. */
  function Plain(rank: nat): real
    requires rank >= 1
  {
    61000000.0 / (3.0 * (RANK_CONSTANT + rank as real))
  }

  lemma PlainIs(graph: Graph, id: nat, rank: nat)
    requires rank >= 1 && id !in graph
    ensures Fused(graph, id, rank) * 1000000.0 == Plain(rank)
  {
    var d := RANK_CONSTANT + rank as real;
    assert MAXIMUM == 3.0 / 61.0;
    var x := 1.0 / d;
    assert x * d == 1.0;
    assert Fused(graph, id, rank) == x * 61.0 / 3.0;
    var y := 61000000.0 / (3.0 * d);
    assert y * (3.0 * d) == 61000000.0;
    assert (x * 61.0 / 3.0 * 1000000.0) * (3.0 * d) == 61000000.0 * (x * d);
    SameQuotient(x * 61.0 / 3.0 * 1000000.0, y, 3.0 * d);
  }

  lemma SameQuotient(a: real, b: real, d: real)
    requires d > 0.0 && a * d == b * d
    ensures a == b
  {
  }

  lemma Quotient(k: real, d: real, e: real)
    requires k > 0.0 && 0.0 < d <= e
    ensures k / d >= k / e > 0.0
  {
    var x, y := k / d, k / e;
    assert x * d == k && y * e == k;
    if x < y {
      assert x * d < y * d <= y * e;
    }
  }

  /** Neighbouring ranks up to 4448 are more than one millionth apart. */
  lemma NeighboursApart(rank: nat)
    requires 1 <= rank <= 4448
    ensures Plain(rank) > Plain(rank + 1) + 1.0
  {
    var a := RANK_CONSTANT + rank as real;
    var b := a + 1.0;
    assert b == RANK_CONSTANT + (rank + 1) as real;
    var x, y := Plain(rank), Plain(rank + 1);
    assert x * (3.0 * a) == 61000000.0 && y * (3.0 * b) == 61000000.0;
    GapBound(x, y, a);
  }

  lemma GapBound(x: real, y: real, a: real)
    requires 61.0 <= a <= 4508.0 && x * (3.0 * a) == 61000000.0 && y * (3.0 * (a + 1.0)) == 61000000.0
    ensures x > y + 1.0
  {
    var t := 3.0 * a * (a + 1.0);
    CrossMultiply(x, y, a);
    SquareBound(a);
    LargeQuotient(x - y, t);
  }

  lemma CrossMultiply(x: real, y: real, a: real)
    requires x * (3.0 * a) == 61000000.0 && y * (3.0 * (a + 1.0)) == 61000000.0
    ensures (x - y) * (3.0 * a * (a + 1.0)) == 61000000.0
  {
    calc {
      (x - y) * (3.0 * a * (a + 1.0));
      (x * (3.0 * a)) * (a + 1.0) - (y * (3.0 * (a + 1.0))) * a;
      61000000.0 * (a + 1.0) - 61000000.0 * a;
      61000000.0;
    }
  }

  lemma SquareBound(a: real)
    requires 61.0 <= a <= 4508.0
    ensures 0.0 < 3.0 * a * (a + 1.0) <= 60979716.0
  {
    Square(a);
    assert 3.0 * a * (a + 1.0) == 3.0 * (a * a) + 3.0 * a;
  }

  lemma Square(a: real)
    requires 61.0 <= a <= 4508.0
    ensures 0.0 <= a * a <= 20322064.0
  {
    Scale(a, 4508.0, a);
    assert a * a <= 4508.0 * a;
  }

  lemma Scale(u: real, v: real, k: real)
    requires k >= 0.0 && u <= v
    ensures u * k <= v * k
  {
  }

  lemma LargeQuotient(u: real, t: real)
    requires 0.0 < t <= 60979716.0 && u * t == 61000000.0
    ensures u > 1.0
  {
    var v := 61000000.0 / t;
    assert v * t == 61000000.0;
    SameQuotient(u, v, t);
    Quotient(61000000.0, t, 60979716.0);
  }

  /** Rounding goes to the nearest integer, and to the even one if two are equally near. */
  lemma RoundNear(x: real)
    ensures x - 0.5 <= Round(x) as real <= x + 0.5
    ensures Round(x) as real == x - 0.5 || Round(x) as real == x + 0.5 ==> Round(x) % 2 == 0
  {
  }

  lemma RoundMonotone(x: real, y: real)
    requires x >= y
    ensures Round(x) >= Round(y)
  {
  }

  lemma PlainDecreases(rank: nat, later: nat)
    requires 1 <= rank < later
    ensures Plain(rank) >= Plain(later) && Plain(rank + 1) >= Plain(later)
  {
    Quotient(61000000.0, 3.0 * (RANK_CONSTANT + rank as real), 3.0 * (RANK_CONSTANT + later as real));
    Quotient(61000000.0, 3.0 * (RANK_CONSTANT + (rank + 1) as real), 3.0 * (RANK_CONSTANT + later as real));
  }

  /** Within the first 4450 ranks, rounding keeps scores without graph evidence strictly apart. */
  lemma RoundingKeepsApart(rank: nat, later: nat)
    requires 1 <= rank < later <= 4450
    ensures Round(Plain(rank)) > Round(Plain(later))
  {
    if rank <= 4448 {
      PlainDecreases(rank, later);
      NeighboursApart(rank);
      RoundNear(Plain(rank));
      RoundNear(Plain(later));
    } else {
      assert Plain(4449) == 61000000.0 / 13527.0 && Plain(4450) == 61000000.0 / 13530.0;
    }
  }

  /** The first collision: ranks 4450 and 4451 round to the same score. */
  lemma RoundingCollides()
    ensures Round(Plain(4450)) == Round(Plain(4451)) == 4508
  {
    assert Plain(4450) == 61000000.0 / 13530.0 && Plain(4451) == 61000000.0 / 13533.0;
  }

  /** The tie-break of the sort: older first, then smaller id. */
  predicate OlderFirst(a: Item, b: Item) {
    a.created < b.created || (a.created == b.created && a.id < b.id)
  }

  /** The record at direct position `i` is at position `a` of the fused ranking. */
  ghost predicate PlacedAt(lexical: seq<Item>, graph: Graph, i: nat, a: nat)
    requires i < |lexical|
  {
    a < |Blend(lexical, graph)| && Blend(lexical, graph)[a].id == lexical[i].id
  }

  lemma PlacedScore(lexical: seq<Item>, graph: Graph, i: nat, a: nat)
    requires graph != map[] && DistinctIds(lexical) && i < |lexical| && lexical[i].id !in graph
    requires PlacedAt(lexical, graph, i, a)
    ensures Blend(lexical, graph)[a] == lexical[i].(score := Round(Plain(i + 1)) as real)
  {
    ResultRow(lexical, graph, i, a);
    PlainIs(graph, lexical[i].id, i + 1);
  }

  /** Two records without graph evidence, `i` directly ranked before `j`, and their fused places. */
  ghost predicate Compared(lexical: seq<Item>, graph: Graph, i: nat, j: nat, a: nat, b: nat) {
    && graph != map[] && DistinctIds(lexical)
    && i < j < |lexical| && lexical[i].id !in graph && lexical[j].id !in graph
    && PlacedAt(lexical, graph, i, a) && PlacedAt(lexical, graph, j, b)
  }

  /** For any number of candidates: of two records without graph evidence, the one ranked first directly comes
      first exactly when rounding keeps their scores apart or it also wins the tie-break. */
  lemma DirectOrderExactly(lexical: seq<Item>, graph: Graph, i: nat, j: nat, a: nat, b: nat)
    requires Compared(lexical, graph, i, j, a, b)
    ensures a < b <==> Round(Plain(i + 1)) > Round(Plain(j + 1)) || OlderFirst(lexical[i], lexical[j])
  {
    PlacedScore(lexical, graph, i, a);
    PlacedScore(lexical, graph, j, b);
    PlainDecreases(i + 1, j + 1);
    RoundMonotone(Plain(i + 1), Plain(j + 1));
    BlendIsSortedPermutation(lexical, graph);
    hide Blend, Round, Plain, DistinctIds;
    assert lexical[i].id != lexical[j].id by { IdsDiffer(lexical, i, j); }
    var r := Blend(lexical, graph);
    assert a < b ==> Ahead(r[a], r[b]);
    assert b < a ==> Ahead(r[b], r[a]);
  }

  lemma IdsDiffer(s: seq<Item>, i: nat, j: nat)
    requires DistinctIds(s) && i < j < |s|
    ensures s[i].id != s[j].id
  {
  }

  /** Fusion of `n` candidates never reorders records without graph evidence. */
  ghost predicate OrderSafe(n: nat) {
    forall lexical, graph, i: nat, j: nat, a: nat, b: nat :: |lexical| == n && Compared(lexical, graph, i, j, a, b) ==> a < b
  }

  /** The exact bound: the direct order survives rounding for every input of `n` candidates if and only if
      `n` is at most 4450. */
  lemma DirectOrderBound(n: nat)
    ensures OrderSafe(n) <==> n <= 4450
  {
    if n <= 4450 {
      forall lexical, graph, i: nat, j: nat, a: nat, b: nat | |lexical| == n && Compared(lexical, graph, i, j, a, b)
        ensures a < b
      {
        RoundingKeepsApart(i + 1, j + 1);
        DirectOrderExactly(lexical, graph, i, j, a, b);
      }
    } else {
      OrderFlips(n);
    }
  }

  /** Candidates in direct order, each older than the one before. */
  function Younging(n: nat): (r: seq<Item>)
    ensures |r| == n && forall i :: 0 <= i < n ==> r[i] == Item(i, -i, 0.0)
  {
    seq(n, i requires 0 <= i < n => Item(i, -i, 0.0))
  }

  /** With 4451 candidates or more, the records at direct ranks 4450 and 4451 round to one score, and the older
      second one overtakes the first. */
  lemma OrderFlips(n: nat)
    requires n > 4450
    ensures !OrderSafe(n)
  {
    var lexical, graph: Graph := Younging(n), map[n := 1.0];
    assert n in graph;
    var a := Placed(lexical, graph, 4449);
    var b := Placed(lexical, graph, 4450);
    RoundingCollides();
    DirectOrderExactly(lexical, graph, 4449, 4450, a, b);
    assert !(a < b);
  }

  /** Every candidate has a place in the fused ranking. */
  lemma Placed(lexical: seq<Item>, graph: Graph, i: nat) returns (a: nat)
    requires graph != map[] && i < |lexical|
    ensures PlacedAt(lexical, graph, i, a)
  {
    hide Sort, Fused, Rounded;
    var s := Rescored(lexical, graph);
    SortSpec(s);
    assert s[i] in multiset(s);
    assert s[i] in Blend(lexical, graph);
    a :| 0 <= a < |Blend(lexical, graph)| && Blend(lexical, graph)[a] == s[i];
  }
}
