/** What the deterministic consolidation pass guarantees. */
module Consolidation {
  import opened Wrappers
  import opened Sequences
  import opened Records
  import opened AuditLog
  import opened Operations
  import opened Lifecycle

  // ---- one pass -------------------------------------------------------------

  /** Each superseded row was retired in favour of a strictly newer keeper of its class. */
  ghost predicate RetiredBy(rows: Rows, rows': Rows, f: Id -> string, keepers: seq<Id>, now: int, k: Id)
    requires forall x :: x in keepers ==> x in rows
  {
    k in rows && k in rows' && k !in keepers
    && exists m :: m in keepers && f(m) == f(k) && Before(rows, k, m) && rows'[k] == Retired(rows[k], m, now)
  }

  /** The pass splits its input into superseded rows and keepers, one keeper per class. */
  ghost predicate Split(f: Id -> string, ids: seq<Id>, superseded: seq<Id>, keepers: seq<Id>) {
    && (forall k :: k in ids <==> k in superseded || k in keepers)
    && (forall k :: k in superseded ==> k !in keepers)
    && (forall a, b :: a in keepers && b in keepers && f(a) == f(b) ==> a == b)
  }

  ghost predicate RowsSpec(rows: Rows, rows': Rows, f: Id -> string, superseded: seq<Id>, keepers: seq<Id>, now: int) {
    && rows'.Keys == rows.Keys
    && (forall k :: k in keepers ==> k in rows)
    && (forall k :: k in rows && k !in superseded ==> rows'[k] == rows[k])
    && (forall k :: k in superseded ==> RetiredBy(rows, rows', f, keepers, now, k))
  }

  ghost predicate PassSpec(l: Ledger, f: Id -> string, ids: seq<Id>, now: int, r: Pass) {
    && r.l.log == l.log
    && Split(f, ids, r.superseded, r.keepers)
    && Distinct(r.superseded)
    && RowsSpec(l.rows, r.l.rows, f, r.superseded, r.keepers, now)
  }

  lemma GroupSpec(rows: Rows, f: Id -> string, ids: seq<Id>) returns (keeper: Id, older: seq<Id>)
    requires ids != [] && forall k :: k in ids ==> k in rows
    ensures Group(rows, f, ids) == older + [keeper] && keeper in rows
    ensures forall k :: k in older || k == keeper <==> k in ids && f(k) == f(ids[0])
    ensures keeper !in older && Distinct(older)
    ensures forall k :: k in older ==> k in rows && Before(rows, k, keeper)
  {
    var group := Group(rows, f, ids);
    keeper, older := group[|group| - 1], group[..|group| - 1];
    assert keeper in group;
    assert forall k :: k in group <==> k in older || k == keeper;
  }

  lemma SplitStep(f: Id -> string, ids: seq<Id>, keeper: Id, older: seq<Id>, superseded: seq<Id>, keepers: seq<Id>)
    requires ids != []
    requires forall k :: k in older || k == keeper <==> k in ids && f(k) == f(ids[0])
    requires keeper !in older && Distinct(older)
    requires Split(f, Others(f, ids, f(ids[0])), superseded, keepers) && Distinct(superseded)
    ensures Split(f, ids, older + superseded, [keeper] + keepers) && Distinct(older + superseded)
  {
    var all := older + superseded;
    forall i, j | 0 <= i < j < |all|
      ensures all[i] != all[j]
    {
      assert i < |older| ==> all[i] in older;
      assert j >= |older| ==> all[j] in superseded;
    }
  }

  lemma RowsStep(rows: Rows, rows1: Rows, rows2: Rows, f: Id -> string, now: int,
                 keeper: Id, older: seq<Id>, superseded: seq<Id>, keepers: seq<Id>)
    requires keeper in rows && keeper !in superseded && keeper !in older
    requires forall k :: k in older ==> k in rows && rows[k].status.Active? && f(k) == f(keeper) && Before(rows, k, keeper)
    requires forall k :: k in older ==> k !in superseded && k !in keepers
    requires rows1 == SupersedeRows(rows, older, keeper, now)
    requires RowsSpec(rows1, rows2, f, superseded, keepers, now)
    ensures RowsSpec(rows, rows2, f, older + superseded, [keeper] + keepers, now)
  {
    var keepers' := [keeper] + keepers;
    forall k | k in older + superseded
      ensures RetiredBy(rows, rows2, f, keepers', now, k)
    {
      if k in older {
        assert rows2[k] == rows1[k] == Retired(rows[k], keeper, now) && keeper in keepers';
      } else {
        assert RetiredBy(rows1, rows2, f, keepers, now, k);
        var m :| m in keepers && f(m) == f(k) && Before(rows1, k, m) && rows2[k] == Retired(rows1[k], m, now);
        assert m in keepers' && rows1[k] == rows[k] && rows1[m] == rows[m];
      }
    }
  }

  lemma {:induction false} CollapseSpec(l: Ledger, f: Id -> string, ids: seq<Id>, now: int)
    requires forall k :: k in ids ==> k in l.rows && l.rows[k].status.Active?
    ensures PassSpec(l, f, ids, now, Collapse(l, f, ids, now))
    decreases |ids|
  {
    if ids != [] {
      var keeper, older := GroupSpec(l.rows, f, ids);
      var group := Group(l.rows, f, ids);
      assert group[|group| - 1] == keeper && group[..|group| - 1] == older;
      var l1 := Supersede(l, older, keeper, now);
      var others := Others(f, ids, f(ids[0]));
      CollapseSpec(l1, f, others, now);
      var rest := Collapse(l1, f, others, now);
      SplitStep(f, ids, keeper, older, rest.superseded, rest.keepers);
      RowsStep(l.rows, l1.rows, rest.l.rows, f, now, keeper, older, rest.superseded, rest.keepers);
    }
  }

  // ---- the whole operation, described by its values --------------------------

  /** The rows before, between and after the two passes, and what each pass superseded and kept. */
  datatype Trace = Trace(rows: Rows, mid: Rows, final: Rows,
                         dups: seq<Id>, kept: seq<Id>, fixed: seq<Id>, last: seq<Id>)

  ghost predicate TwoPasses(p: Policy, t: Trace, now: int) {
    && (forall k :: IsActive(t.rows, k) <==> k in t.dups || k in t.kept)
    && (forall k :: k in t.dups ==> k !in t.kept)
    && (forall a, b :: a in t.kept && b in t.kept && ContentClass(p, t.rows)(a) == ContentClass(p, t.rows)(b) ==> a == b)
    && (forall k :: k in t.kept && k in t.rows && Truthy(t.rows[k].factKey) <==> k in t.fixed || k in t.last)
    && (forall k :: k in t.fixed ==> k !in t.last)
    && (forall a, b :: a in t.last && b in t.last && KeyClass(t.rows)(a) == KeyClass(t.rows)(b) ==> a == b)
    && Distinct(t.dups) && Distinct(t.fixed)
    && RowsSpec(t.rows, t.mid, ContentClass(p, t.rows), t.dups, t.kept, now)
    && RowsSpec(t.mid, t.final, KeyClass(t.rows), t.fixed, t.last, now)
  }

  ghost function TraceOf(p: Policy, l: Ledger, now: int): Trace {
    var c, k := ByContent(p, l, now), ByKey(p, l, now);
    Trace(l.rows, c.l.rows, k.l.rows, c.superseded, c.keepers, k.superseded, k.keepers)
  }

  lemma ConsolidateTrace(p: Policy, l: Ledger, now: int)
    ensures TwoPasses(p, TraceOf(p, l, now), now)
    ensures Consolidate(p, l, now).value.rows == TraceOf(p, l, now).final
    ensures Consolidate(p, l, now).value.log == l.log + [Finished(TraceOf(p, l, now))]
  {
    var active := Listing(l.rows, ActiveIds(l.rows));
    CollapseSpec(l, ContentClass(p, l.rows), active, now);
    var c := ByContent(p, l, now);
    CollapseSpec(c.l, KeyClass(l.rows), Keyed(l.rows, c.keepers), now);
  }

  ghost function Finished(t: Trace): Event {
    Event(EventKind.Note("memory.consolidated"), None, Payload(duplicates := t.dups, repaired := t.fixed))
  }

  lemma FinishedReads(t: Trace)
    ensures KnownBy(Finished(t)) == {} && ChangedBy(Finished(t)) == Members(t.dups) + Members(t.fixed)
  {
  }

  /** The two lists leave the active set, everything else is untouched. */
  lemma Shape(p: Policy, t: Trace, now: int)
    requires TwoPasses(p, t, now)
    ensures t.final.Keys == t.rows.Keys
    ensures forall k :: k in t.dups ==> k !in t.fixed
    ensures forall k :: k in t.rows && k !in t.dups && k !in t.fixed ==> t.final[k] == t.rows[k]
    ensures forall k :: k in t.dups || k in t.fixed ==>
                          && IsActive(t.rows, k) && k in t.final
                          && t.final[k].status.Superseded? && Carried(t.rows[k], t.final[k])
    ensures Plain(t.rows, t.final)
  {
    forall x | x in t.dups
      ensures x !in t.fixed && t.mid[x].status.Superseded? && Carried(t.rows[x], t.mid[x]) && t.final[x] == t.mid[x]
    {
      assert RetiredBy(t.rows, t.mid, ContentClass(p, t.rows), t.kept, now, x);
    }
    forall x | x in t.fixed
      ensures IsActive(t.rows, x) && t.final[x].status.Superseded? && Carried(t.rows[x], t.final[x])
    {
      assert RetiredBy(t.mid, t.final, KeyClass(t.rows), t.last, now, x);
      assert x in t.kept && t.mid[x] == t.rows[x];
    }
  }

  lemma TraceSound(p: Policy, t: Trace, now: int, l: Ledger, gone: set<Id>)
    requires TwoPasses(p, t, now) && Accounted(l, gone) && t.rows == l.rows
    ensures IntactBut(t.final, l.log + [Finished(t)], gone)
    ensures UniqueKeys(l.rows) ==> UniqueKeys(t.final)
    ensures forall k :: k in t.final ==> RowOk(t.final[k])
  {
    Shape(p, t, now);
    if UniqueKeys(l.rows) {
      FewerActive(t.rows, t.final);
    }
    FinishedReads(t);
    Extend(l.rows, l.log, t.final, Finished(t), gone);
  }

  lemma ConsolidateSound(p: Policy, l: Ledger, now: int, l': Ledger, gone: set<Id>)
    requires Accounted(l, gone) && Consolidate(p, l, now) == Ok(l')
    ensures Keeps(l, l', gone) && Plain(l.rows, l'.rows)
  {
    ConsolidateTrace(p, l, now);
    var t := TraceOf(p, l, now);
    Shape(p, t, now);
    TraceSound(p, t, now, l, gone);
  }

  // ---- what the pass achieves -----------------------------------------------

  /** Rows in which consolidation has nothing left to do. */
  ghost predicate Consolidated(p: Policy, rows: Rows) {
    forall a, b :: a != b && IsActive(rows, a) && IsActive(rows, b) ==>
                     p.normalize(rows[a].content) != p.normalize(rows[b].content) && !SameSlot(rows, a, b)
  }

  lemma TraceConsolidated(p: Policy, t: Trace, now: int)
    requires TwoPasses(p, t, now)
    ensures Consolidated(p, t.final)
  {
    Shape(p, t, now);
    forall a, b | a != b && IsActive(t.final, a) && IsActive(t.final, b)
      ensures p.normalize(t.final[a].content) != p.normalize(t.final[b].content) && !SameSlot(t.final, a, b)
    {
      assert a in t.kept && b in t.kept && t.final[a] == t.rows[a] && t.final[b] == t.rows[b];
      assert ContentClass(p, t.rows)(a) != ContentClass(p, t.rows)(b);
      assert a in t.last && b in t.last ==> KeyClass(t.rows)(a) != KeyClass(t.rows)(b);
    }
  }

  /** No two active rows share normalised content or a fact slot. */
  lemma ConsolidateUnique(p: Policy, l: Ledger, now: int, l': Ledger)
    requires Consolidate(p, l, now) == Ok(l')
    ensures Consolidated(p, l'.rows)
  {
    ConsolidateTrace(p, l, now);
    TraceConsolidated(p, TraceOf(p, l, now), now);
  }

  lemma CountSplit(before: set<Id>, after: set<Id>, dups: seq<Id>, fixed: seq<Id>)
    requires Distinct(dups) && Distinct(fixed)
    requires forall k :: k in dups ==> k !in fixed
    requires forall k :: k in before <==> k in after || k in dups || k in fixed
    requires forall k :: k in dups || k in fixed ==> k !in after
    ensures |before| == |after| + |dups| + |fixed|
  {
    DistinctCount(dups, Members(dups));
    DistinctCount(fixed, Members(fixed));
    var rest := after + Members(dups);
    assert |rest| == |after| + |Members(dups)|;
    assert before == rest + Members(fixed);
  }

  lemma TraceCounts(p: Policy, t: Trace, now: int)
    requires TwoPasses(p, t, now)
    ensures |ActiveIds(t.rows)| == |ActiveIds(t.final)| + |t.dups| + |t.fixed|
  {
    Shape(p, t, now);
    CountSplit(ActiveIds(t.rows), ActiveIds(t.final), t.dups, t.fixed);
  }

  /** `active_before == active_after + duplicates + repaired`. */
  lemma ConsolidateCounts(p: Policy, l: Ledger, now: int, l': Ledger)
    requires Consolidate(p, l, now) == Ok(l')
    ensures |l'.log| == |l.log| + 1
    ensures |ActiveIds(l.rows)| == |ActiveIds(l'.rows)| + |l'.log[|l.log|].payload.duplicates|
                                   + |l'.log[|l.log|].payload.repaired|
  {
    ConsolidateTrace(p, l, now);
    var t := TraceOf(p, l, now);
    TraceCounts(p, t, now);
    assert l'.log[|l.log|] == Finished(t);
  }

  /** A row superseded by a pass has a keeper beside it in its class. */
  lemma KeeperOf(rows: Rows, rows': Rows, f: Id -> string, keepers: seq<Id>, now: int, x: Id) returns (m: Id)
    requires (forall k :: k in keepers ==> k in rows) && RetiredBy(rows, rows', f, keepers, now, x)
    ensures m in keepers && f(m) == f(x) && m != x
  {
    m :| m in keepers && f(m) == f(x) && Before(rows, x, m);
  }

  /** A pass whose superseded rows have no other keeper in their class superseded nothing. */
  lemma NothingRetired(rows: Rows, rows': Rows, f: Id -> string, superseded: seq<Id>, keepers: seq<Id>, now: int)
    requires RowsSpec(rows, rows', f, superseded, keepers, now)
    requires forall x, m :: x in superseded && m in keepers && f(m) == f(x) ==> m == x
    ensures superseded == []
  {
    if superseded != [] {
      var m := KeeperOf(rows, rows', f, keepers, now, superseded[0]);
    }
  }

  lemma NoDuplicatesLeft(p: Policy, t: Trace, now: int)
    requires TwoPasses(p, t, now) && Consolidated(p, t.rows)
    ensures t.dups == []
  {
    hide RowsSpec, Distinct, SameSlot, KeyClass;
    NothingRetired(t.rows, t.mid, ContentClass(p, t.rows), t.dups, t.kept, now);
  }

  /** Rows of one key class of the second pass are active rows of one slot. */
  lemma SlotMates(p: Policy, t: Trace, now: int, x: Id, m: Id)
    requires TwoPasses(p, t, now) && x in t.fixed + t.last && m in t.fixed + t.last
    requires KeyClass(t.rows)(m) == KeyClass(t.rows)(x)
    ensures SameSlot(t.rows, x, m)
  {
    hide RowsSpec, Distinct, ContentClass;
    assert x in t.kept && m in t.kept;
    assert IsActive(t.rows, x) && IsActive(t.rows, m);
  }

  lemma NoSlotToRepair(p: Policy, t: Trace, now: int)
    requires TwoPasses(p, t, now) && Consolidated(p, t.rows)
    ensures t.fixed == []
  {
    hide RowsSpec, Distinct, ContentClass, SameSlot;
    forall x, m | x in t.fixed + t.last && m in t.fixed + t.last && KeyClass(t.rows)(m) == KeyClass(t.rows)(x)
      ensures SameSlot(t.rows, x, m)
    {
      SlotMates(p, t, now, x, m);
    }
    NothingRetired(t.mid, t.final, KeyClass(t.rows), t.fixed, t.last, now);
  }

  lemma TraceStill(p: Policy, t: Trace, now: int)
    requires TwoPasses(p, t, now) && Consolidated(p, t.rows)
    ensures t.final == t.rows
  {
    NoDuplicatesLeft(p, t, now);
    NoSlotToRepair(p, t, now);
    Shape(p, t, now);
  }

  /** A second run, whenever it happens, changes no row. */
  lemma ConsolidateIdempotent(p: Policy, l: Ledger, now: int, l1: Ledger, later: int, l2: Ledger)
    requires Consolidate(p, l, now) == Ok(l1) && Consolidate(p, l1, later) == Ok(l2)
    ensures l2.rows == l1.rows
  {
    ConsolidateUnique(p, l, now, l1);
    ConsolidateTrace(p, l1, later);
    TraceStill(p, TraceOf(p, l1, later), later);
  }

  /** A chain of `superseded_by` links, each to a strictly newer row, ending at an active one. */
  ghost predicate Chain(rows: Rows, path: seq<Id>) {
    && path != []
    && (forall i :: 0 <= i < |path| ==> path[i] in rows)
    && (forall i :: 0 <= i < |path| - 1 ==>
                      rows[path[i]].raw.supersededBy == Some(path[i + 1]) && Before(rows, path[i], path[i + 1]))
    && rows[path[|path| - 1]].status.Active?
  }

  lemma ChainLink(rows: Rows, x: Id, path: seq<Id>)
    requires Chain(rows, path) && x in rows
    requires rows[x].raw.supersededBy == Some(path[0]) && Before(rows, x, path[0])
    ensures Chain(rows, [x] + path)
  {
    var longer := [x] + path;
    assert forall i :: 1 <= i < |longer| ==> longer[i] == path[i - 1];
  }

  /** The chain of a row that survives the first pass. */
  lemma KeptChain(p: Policy, t: Trace, now: int, x: Id) returns (path: seq<Id>)
    requires TwoPasses(p, t, now) && x in t.kept
    ensures Chain(t.final, path) && path[0] == x
  {
    Shape(p, t, now);
    path := [x];
    if x in t.fixed {
      assert RetiredBy(t.mid, t.final, KeyClass(t.rows), t.last, now, x);
      var m :| m in t.last && Before(t.mid, x, m) && t.final[x] == Retired(t.mid[x], m, now);
      assert Retired(t.mid[x], m, now).raw.supersededBy == Some(m);
      ChainLink(t.final, x, [m]);
      path := [x] + [m];
    }
  }

  lemma TraceChain(p: Policy, t: Trace, now: int, x: Id) returns (path: seq<Id>)
    requires TwoPasses(p, t, now) && IsActive(t.rows, x)
    ensures Chain(t.final, path) && path[0] == x
  {
    Shape(p, t, now);
    if x in t.kept {
      path := KeptChain(p, t, now, x);
    } else {
      assert RetiredBy(t.rows, t.mid, ContentClass(p, t.rows), t.kept, now, x);
      var m :| m in t.kept && Before(t.rows, x, m) && t.mid[x] == Retired(t.rows[x], m, now);
      path := KeptChain(p, t, now, m);
      assert t.final[x] == t.mid[x] && Retired(t.rows[x], m, now).raw.supersededBy == Some(m);
      ChainLink(t.final, x, path);
      path := [x] + path;
    }
  }

  /** Every row that was active reaches an active one through strictly newer keepers. */
  lemma ConsolidateChains(p: Policy, l: Ledger, now: int, l': Ledger, x: Id) returns (path: seq<Id>)
    requires Consolidate(p, l, now) == Ok(l') && IsActive(l.rows, x)
    ensures Chain(l'.rows, path) && path[0] == x
  {
    ConsolidateTrace(p, l, now);
    path := TraceChain(p, TraceOf(p, l, now), now, x);
  }
}
