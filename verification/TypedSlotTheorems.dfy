/** Out-of-order convergence of typed slots, where it holds and where it does not. */
module TypedSlotTheorems {
  import opened Wrappers
  import opened Records
  import opened AuditLog
  import opened Operations
  import opened TypedSlots

  // ---- observations that are committed on their own merits ------------------

  /** Trusted, admissible, timed, and needing nothing from the slot to be committed. */
  predicate Admissible(o: Observation) {
    && o.trusted && o.valid && !o.review && !o.barred && !o.tier.Untrusted?
    && Truthy(o.factKey) && o.unit.time.Some? && o.unit.relation != "" && o.unit.holder.name != ""
  }

  /** Identifiers, identities and (within a slot) times are all different, and new to the store. */
  ghost predicate Separate(p: Policy, l: Ledger, os: seq<Observation>) {
    && (forall i :: 0 <= i < |os| ==> os[i].id !in l.rows && !LiveIdentity(l.rows, os[i]))
    && (forall i, j :: 0 <= i < j < |os| ==>
                         && os[i].id != os[j].id && os[i].unit.identity != os[j].unit.identity
                         && (SameSlotAs(p, os[i], os[j]) ==> os[i].unit.time != os[j].unit.time))
  }

  predicate SameSlotAs(p: Policy, a: Observation, b: Observation) {
    a.scope == b.scope && p.lower(a.unit.holder.name) == p.lower(b.unit.holder.name)
    && p.lower(a.unit.relation) == p.lower(b.unit.relation)
  }

  // ---- atomic facts converge ------------------------------------------------

  predicate SubjectFact(o: Observation) {
    Admissible(o) && o.unit.kind.AtomicFact? && o.unit.holder.OfSubject?
  }

  /** No row of the store belongs to a slot that is about to be observed. */
  ghost predicate SlotsEmpty(p: Policy, l: Ledger, os: seq<Observation>) {
    forall i, k :: 0 <= i < |os| && k in l.rows ==> !IsMatch(p, l.rows, os[i], k)
  }

  /** No observation finds an earlier one of its slot excluded from retrieval. */
  ghost predicate SlotsOpen(p: Policy, os: seq<Observation>) {
    forall i, j :: 0 <= i < j < |os| && SameSlotAs(p, os[i], os[j]) ==> os[i].id !in os[j].excluded
  }

  ghost predicate CleanRun(p: Policy, l: Ledger, os: seq<Observation>) {
    && (forall i :: 0 <= i < |os| ==> SubjectFact(os[i]))
    && Separate(p, l, os) && SlotsEmpty(p, l, os) && SlotsOpen(p, os)
  }

  /** Observation `i` has the latest time of its slot. */
  ghost predicate Latest(p: Policy, os: seq<Observation>, i: nat)
    requires i < |os|
  {
    forall j :: 0 <= j < |os| && SameSlotAs(p, os[j], os[i]) && os[j].unit.time.Some? && os[i].unit.time.Some?
                ==> os[j].unit.time.value <= os[i].unit.time.value
  }

  /** The stored form of an observation in a given status. */
  predicate Holds(r: Record, o: Observation, status: Status) {
    && r.status == status && r.content == o.content && r.factKey == o.factKey && r.tier == o.tier
    && r.raw.authority == Some(o.scope) && r.raw.taint == {}
    && r.raw.unit == Some(o.unit.(lifecycle := status))
  }

  /** Old rows untouched; every observation stored, active exactly when it is the latest of its slot. */
  ghost predicate Converged(p: Policy, l: Ledger, os: seq<Observation>, rows: Rows) {
    && (forall k :: k in rows <==> k in l.rows || exists i :: 0 <= i < |os| && os[i].id == k)
    && (forall k :: k in l.rows ==> rows[k] == l.rows[k])
    && (forall i :: 0 <= i < |os| ==>
                      os[i].id in rows
                      && Holds(rows[os[i].id], os[i], if Latest(p, os, i) then Active else Superseded))
  }

  lemma NoLiveIdentity(p: Policy, l: Ledger, os: seq<Observation>, o: Observation, rows: Rows)
    requires CleanRun(p, l, os + [o]) && Converged(p, l, os, rows)
    ensures !LiveIdentity(rows, o)
  {
    var all := os + [o];
    assert all[|os|] == o && forall i :: 0 <= i < |os| ==> all[i] == os[i];
    forall k | k in rows && k in l.rows
      ensures rows[k] == l.rows[k]
    {
    }
    forall k | k in rows && k !in l.rows
      ensures rows[k].raw.unit.Some? && rows[k].raw.unit.value.identity != o.unit.identity
    {
      var i :| 0 <= i < |os| && os[i].id == k;
      assert Holds(rows[k], os[i], if Latest(p, os, i) then Active else Superseded);
    }
  }

  lemma RowMatches(p: Policy, rows: Rows, o: Observation, k: Id, q: Observation, status: Status)
    requires SubjectFact(o) && SubjectFact(q) && k in rows && Holds(rows[k], q, status)
    requires SameSlotAs(p, q, o) ==> k !in o.excluded
    ensures IsMatch(p, rows, o, k) <==> status.Active? && SameSlotAs(p, q, o)
  {
  }

  /** Row `k` holds the latest observation of `o`'s slot. */
  ghost predicate IsCurrent(p: Policy, os: seq<Observation>, o: Observation, k: Id) {
    exists i :: 0 <= i < |os| && os[i].id == k && SameSlotAs(p, os[i], o) && Latest(p, os, i)
  }

  /** The slot's current rows are exactly the latest observation of that slot so far. */
  lemma CurrentValue(p: Policy, l: Ledger, os: seq<Observation>, o: Observation, rows: Rows, k: Id)
    requires CleanRun(p, l, os + [o]) && Converged(p, l, os, rows)
    ensures k in Matches(p, rows, o) <==> IsCurrent(p, os, o, k)
  {
    hide Holds, Latest, LiveIdentity, IsMatch, SameSlotAs, CleanRun, Converged;
    MatchesAre(p, l, os, o, rows, k);
    if k in l.rows {
      SeparatePrefix(p, l, os, o);
      OldRowNoMatch(p, l, os, o, rows, k);
    } else if k in rows {
      StoredIds(p, l, os, rows);
      var i :| 0 <= i < |os| && os[i].id == k;
      StoredAs(p, l, os, rows, i);
      Timed(p, l, os, o);
      SeparatePrefix(p, l, os, o);
      RowMatches(p, rows, o, k, os[i], if Latest(p, os, i) then Active else Superseded);
      assert forall j :: 0 <= j < |os| && os[j].id == k ==> j == i;
    } else {
      StoredIds(p, l, os, rows);
    }
  }

  lemma MatchesAre(p: Policy, l: Ledger, os: seq<Observation>, o: Observation, rows: Rows, k: Id)
    requires CleanRun(p, l, os + [o]) && Converged(p, l, os, rows)
    ensures k in Matches(p, rows, o) <==> k in rows && IsMatch(p, rows, o, k)
  {
    hide CleanRun, Converged, LiveIdentity, IsMatch;
    NoLiveIdentity(p, l, os, o, rows);
    Timed(p, l, os, o);
  }

  lemma OldRowNoMatch(p: Policy, l: Ledger, os: seq<Observation>, o: Observation, rows: Rows, k: Id)
    requires CleanRun(p, l, os + [o]) && Converged(p, l, os, rows) && k in l.rows
    ensures k in rows && !IsMatch(p, rows, o, k)
  {
    var all := os + [o];
    assert all[|os|] == o;
    hide Holds, Latest, SubjectFact, Separate, Nominated, SlotCompatible, Authorized;
    assert !IsMatch(p, l.rows, all[|os|], k);
  }

  /** Two latest observations of one slot are the same one. */
  lemma OneLatest(p: Policy, l: Ledger, os: seq<Observation>, i: nat, j: nat)
    requires Separate(p, l, os) && i < |os| && j < |os| && SameSlotAs(p, os[i], os[j])
    requires os[i].unit.time.Some? && os[j].unit.time.Some?
    requires Latest(p, os, i) && Latest(p, os, j)
    ensures i == j
  {
  }

  /** Adding `o` as the newest of its slot dethrones the previous one; as an older one it changes nothing. */
  lemma LatestAfter(p: Policy, os: seq<Observation>, o: Observation, i: nat)
    requires i < |os| && o.unit.time.Some? && os[i].unit.time.Some?
    ensures Latest(p, os + [o], i)
            <==> Latest(p, os, i) && (SameSlotAs(p, o, os[i]) ==> o.unit.time.value <= os[i].unit.time.value)
  {
    var all := os + [o];
    assert all[|os|] == o && forall j :: 0 <= j < |os| ==> all[j] == os[j];
  }

  /** A slot that was observed has a latest observation. */
  lemma {:induction false} SomeLatest(p: Policy, os: seq<Observation>, j: nat) returns (i: nat)
    requires j < |os| && forall x :: 0 <= x < |os| ==> os[x].unit.time.Some?
    ensures i < |os| && SameSlotAs(p, os[i], os[j]) && Latest(p, os, i)
    decreases |os|
  {
    var n := |os| - 1;
    var init, last := os[..n], os[n];
    assert os == init + [last];
    if exists x :: 0 <= x < n && SameSlotAs(p, os[x], os[j]) {
      var x :| 0 <= x < n && SameSlotAs(p, os[x], os[j]);
      i := SomeLatest(p, init, x);
      LatestAfter(p, init, last, i);
      if SameSlotAs(p, last, init[i]) && init[i].unit.time.value < last.unit.time.value {
        i := n;
      }
    } else {
      i := n;
    }
  }

  lemma OneCurrent(p: Policy, l: Ledger, os: seq<Observation>, o: Observation, i: nat, k: Id)
    requires CleanRun(p, l, os + [o])
    requires i < |os| && SameSlotAs(p, os[i], o) && Latest(p, os, i)
    ensures IsCurrent(p, os, o, k) <==> k == os[i].id
  {
    hide CleanRun, Latest;
    Timed(p, l, os, o);
    SeparatePrefix(p, l, os, o);
    if IsCurrent(p, os, o, k) {
      var x :| 0 <= x < |os| && os[x].id == k && SameSlotAs(p, os[x], o) && Latest(p, os, x);
      OneLatest(p, l, os, x, i);
    }
  }

  /** The previous latest observation of `o`'s slot, if the slot was observed before. */
  lemma Incumbent(p: Policy, l: Ledger, os: seq<Observation>, o: Observation, rows: Rows) returns (m: Option<nat>)
    requires CleanRun(p, l, os + [o]) && Converged(p, l, os, rows)
    ensures m.None? ==> Matches(p, rows, o) == {} && forall j :: 0 <= j < |os| ==> !SameSlotAs(p, os[j], o)
    ensures m.Some? ==> m.value < |os| && Matches(p, rows, o) == {os[m.value].id}
                        && SameSlotAs(p, os[m.value], o) && Latest(p, os, m.value)
  {
    hide Matches, Latest, Converged, CleanRun, IsCurrent;
    forall k
      ensures k in Matches(p, rows, o) <==> IsCurrent(p, os, o, k)
    {
      CurrentValue(p, l, os, o, rows, k);
    }
    if j :| 0 <= j < |os| && SameSlotAs(p, os[j], o) {
      Timed(p, l, os, o);
      var i := SomeLatest(p, os, j);
      forall k
        ensures IsCurrent(p, os, o, k) <==> k == os[i].id
      {
        OneCurrent(p, l, os, o, i, k);
      }
      m := Some(i);
    } else {
      forall k
        ensures !IsCurrent(p, os, o, k)
      {
        NoneCurrent(p, os, o, k);
      }
      m := None;
    }
  }

  lemma NoneCurrent(p: Policy, os: seq<Observation>, o: Observation, k: Id)
    requires forall j :: 0 <= j < |os| ==> !SameSlotAs(p, os[j], o)
    ensures !IsCurrent(p, os, o, k)
  {
  }

  lemma Timed(p: Policy, l: Ledger, os: seq<Observation>, o: Observation)
    requires CleanRun(p, l, os + [o])
    ensures SubjectFact(o) && Admissible(o) && o.unit.time.Some? && o.unit.kind.AtomicFact?
    ensures forall x :: 0 <= x < |os| ==> SubjectFact(os[x]) && Admissible(os[x]) && os[x].unit.time.Some?
                                          && os[x].unit.kind.AtomicFact?
  {
    var all := os + [o];
    assert all[|os|] == o && forall i :: 0 <= i < |os| ==> all[i] == os[i] && SubjectFact(all[i]);
  }

  lemma SeparatePrefix(p: Policy, l: Ledger, os: seq<Observation>, o: Observation)
    requires CleanRun(p, l, os + [o])
    ensures CleanRun(p, l, os) && Separate(p, l, os)
    ensures o.id !in l.rows && forall i :: 0 <= i < |os| ==> os[i].id != o.id
    ensures forall i :: 0 <= i < |os| && SameSlotAs(p, os[i], o) ==>
                          os[i].unit.time != o.unit.time && os[i].id !in o.excluded
  {
    var all := os + [o];
    assert all[|os|] == o && forall i :: 0 <= i < |os| ==> all[i] == os[i];
  }

  // ---- one observation ------------------------------------------------------

  /** With at most one current row, clean and of the same kind, the observation is committed. */
  lemma CommitsCleanly(p: Policy, rows: Rows, o: Observation, m: Option<Id>, q: Observation)
    requires Admissible(o) && !LiveIdentity(rows, o) && o.id !in rows
    requires Matches(p, rows, o) == One(m)
    requires m.Some? ==> m.value in rows && Admissible(q) && q.unit.kind == o.unit.kind && Holds(rows[m.value], q, Active)
                         && m.value !in o.excluded
    ensures Verdict(p, rows, o) == Committed
    ensures Historical(p, rows, o) <==> m.Some? && o.unit.time.value < q.unit.time.value
    ensures Holds(ObservedRow(p, rows, o), o, Active)
    ensures Displaces(p, rows, o) == if Historical(p, rows, o) then [o.id] else if m.Some? then [m.value] else []
  {
    hide Matches, LiveIdentity, Admissible, Holds, Listing, ObservedRow;
    if m.Some? {
      OneListed(rows, m.value);
      HoldsFacts(rows[m.value], q);
    }
    NoneListed(rows);
    CleanRow(p, rows, o, m, q);
    AdmissibleFacts(o);
    if m.Some? {
      AdmissibleFacts(q);
    }
    assert Matches(p, rows, o) == (if m.Some? then {m.value} else {});
    CleanHistory(p, rows, o, m, q);
  }

  lemma CleanHistory(p: Policy, rows: Rows, o: Observation, m: Option<Id>, q: Observation)
    requires Matches(p, rows, o) == One(m) && o.unit.time.Some?
    requires m.Some? ==> m.value in rows && q.unit.time.Some? && TimeOf(rows[m.value]) == q.unit.time
    ensures Historical(p, rows, o) <==> m.Some? && o.unit.time.value < q.unit.time.value
  {
    hide Matches;
  }

  lemma OneListed(rows: Rows, k: Id)
    requires k in rows
    ensures Listing(rows, {k}) == [k]
  {
    var ids := Listing(rows, {k});
    assert k in ids && |ids| == 1;
  }

  lemma NoneListed(rows: Rows)
    ensures Listing(rows, {}) == []
  {
  }

  lemma AdmissibleFacts(o: Observation)
    requires Admissible(o)
    ensures o.trusted && o.valid && !o.review && !o.barred && !o.tier.Untrusted? && o.unit.time.Some?
  {
  }

  lemma HoldsFacts(r: Record, q: Observation)
    requires Holds(r, q, Active)
    ensures r.raw.unit.Some? && r.raw.unit.value.kind == q.unit.kind && TimeOf(r) == q.unit.time
    ensures r.status.Active? && r.raw.taint == {} && r.tier == q.tier
  {
  }

  /** With nothing tainted in the slot, the observation is stored as it is. */
  lemma CleanRow(p: Policy, rows: Rows, o: Observation, m: Option<Id>, q: Observation)
    requires Admissible(o) && Matches(p, rows, o) == One(m)
    requires m.Some? ==> m.value in rows && Admissible(q) && Holds(rows[m.value], q, Active)
    ensures Holds(ObservedRow(p, rows, o), o, Active)
  {
    hide Matches, Historical, Listing;
    if m.Some? {
      HoldsFacts(rows[m.value], q);
    }
    assert TargetLabels(rows, One(m)) == {};
    assert !Tainted(rows, o, One(m));
  }

  lemma RetiredHolds(r: Record, o: Observation, keeper: Id, now: int)
    requires Holds(r, o, Active)
    ensures Holds(Retired(r, keeper, now), o, Superseded)
  {
  }

  /** The rows after a committed observation. */
  lemma CommitRows(p: Policy, l: Ledger, o: Observation)
    requires o.id !in l.rows
    ensures var rows', gone := CommitObservation(p, l, o).rows, Displaces(p, l.rows, o);
            && rows'.Keys == l.rows.Keys + {o.id}
            && (forall k :: k in l.rows ==>
                  rows'[k] == if k in gone && l.rows[k].status.Active?
                              then Retired(l.rows[k], Successor(p, l.rows, o), o.now) else l.rows[k])
            && rows'[o.id] == (if o.id in gone && ObservedRow(p, l.rows, o).status.Active?
                               then Retired(ObservedRow(p, l.rows, o), Successor(p, l.rows, o), o.now)
                               else ObservedRow(p, l.rows, o))
  {
  }

  /** What one clean observation does to the rows: it retires the row it overtakes, or is itself retired. */
  lemma ObserveRows(p: Policy, l: Ledger, o: Observation, m: Option<Id>, q: Observation)
    requires Admissible(o) && !LiveIdentity(l.rows, o) && o.id !in l.rows
    requires Matches(p, l.rows, o) == One(m)
    requires m.Some? ==> m.value in l.rows && Admissible(q) && q.unit.kind == o.unit.kind
                         && Holds(l.rows[m.value], q, Active) && m.value !in o.excluded
    ensures Observe(p, l, o).state == Committed
    ensures var rows', late := Observe(p, l, o).l.rows, m.Some? && o.unit.time.value < q.unit.time.value;
            && rows'.Keys == l.rows.Keys + {o.id}
            && Holds(rows'[o.id], o, if late then Superseded else Active)
            && (forall k :: k in l.rows && k !in One(m) ==> rows'[k] == l.rows[k])
            && (m.Some? ==> if late then rows'[m.value] == l.rows[m.value] else Holds(rows'[m.value], q, Superseded))
  {
    hide CommitObservation, Verdict, Matches, Holds, Admissible, Historical, ObservedRow, Displaces, LiveIdentity;
    CommitsCleanly(p, l.rows, o, m, q);
    CommitRows(p, l, o);
    ActiveHolds(ObservedRow(p, l.rows, o), o);
    RetiredHolds(ObservedRow(p, l.rows, o), o, Successor(p, l.rows, o), o.now);
    if m.Some? {
      ActiveHolds(l.rows[m.value], q);
      RetiredHolds(l.rows[m.value], q, Successor(p, l.rows, o), o.now);
    }
  }

  lemma ActiveHolds(r: Record, o: Observation)
    requires Holds(r, o, Active)
    ensures r.status.Active?
  {
  }

  lemma {:induction false} ConvergedStep(p: Policy, l: Ledger, os: seq<Observation>, o: Observation, l1: Ledger)
    requires CleanRun(p, l, os + [o]) && Converged(p, l, os, l1.rows)
    ensures Converged(p, l, os + [o], Observe(p, l1, o).l.rows)
  {
    hide CleanRun, Converged, Holds, SubjectFact, Admissible, Matches, LiveIdentity, Observe, Latest, SameSlotAs;
    Timed(p, l, os, o);
    SeparatePrefix(p, l, os, o);
    NoLiveIdentity(p, l, os, o, l1.rows);
    var m := Incumbent(p, l, os, o, l1.rows);
    var q := if m.Some? then os[m.value] else o;
    var current := if m.Some? then Some(q.id) else None;
    StoredIds(p, l, os, l1.rows);
    if m.Some? {
      StoredAs(p, l, os, l1.rows, m.value);
    }
    ObserveRows(p, l1, o, current, q);
    StepIntro(p, l, os, o, l1.rows, Observe(p, l1, o).l.rows, m);
  }

  /** Reading the new rows off the effect of the observation. */
  lemma StepIntro(p: Policy, l: Ledger, os: seq<Observation>, o: Observation, rows: Rows, rows': Rows, m: Option<nat>)
    requires CleanRun(p, l, os + [o]) && Converged(p, l, os, rows)
    requires o.unit.time.Some? && forall x :: 0 <= x < |os| ==> os[x].unit.time.Some?
    requires m.None? ==> forall j :: 0 <= j < |os| ==> !SameSlotAs(p, os[j], o)
    requires m.Some? ==> m.value < |os| && SameSlotAs(p, os[m.value], o) && Latest(p, os, m.value)
    requires rows'.Keys == rows.Keys + {o.id}
    requires var late := m.Some? && o.unit.time.value < os[m.value].unit.time.value;
             Holds(rows'[o.id], o, if late then Superseded else Active)
    requires forall k :: k in rows && (m.Some? ==> k != os[m.value].id) ==> rows'[k] == rows[k]
    requires m.Some? && os[m.value].id in rows ==>
               if o.unit.time.value < os[m.value].unit.time.value
               then rows'[os[m.value].id] == rows[os[m.value].id]
               else Holds(rows'[os[m.value].id], os[m.value], Superseded)
    ensures Converged(p, l, os + [o], rows')
  {
    hide CleanRun, Converged, Holds, SubjectFact, Latest, SameSlotAs;
    SeparatePrefix(p, l, os, o);
    StatusAfter(p, os, o, m);
    var all := os + [o];
    forall i | 0 <= i < |all|
      ensures all[i].id in rows' && Holds(rows'[all[i].id], all[i], if Latest(p, all, i) then Active else Superseded)
    {
      if i < |os| {
        RowAfter(p, l, os, o, rows, rows', m, i);
      }
    }
    KeysAfter(p, l, os, o, rows, rows');
    OldRows(p, l, os, o, rows, rows');
    ConvergedIntro(p, l, all, rows');
  }

  lemma ConvergedIntro(p: Policy, l: Ledger, os: seq<Observation>, rows: Rows)
    requires forall k :: k in rows <==> k in l.rows || exists i :: 0 <= i < |os| && os[i].id == k
    requires forall k :: k in l.rows ==> rows[k] == l.rows[k]
    requires forall i :: 0 <= i < |os| ==>
                           os[i].id in rows
                           && Holds(rows[os[i].id], os[i], if Latest(p, os, i) then Active else Superseded)
    ensures Converged(p, l, os, rows)
  {
    hide Holds, Latest;
  }

  lemma StoredIds(p: Policy, l: Ledger, os: seq<Observation>, rows: Rows)
    requires Converged(p, l, os, rows)
    ensures forall k :: k in rows <==> k in l.rows || exists i :: 0 <= i < |os| && os[i].id == k
  {
  }

  lemma StoredAs(p: Policy, l: Ledger, os: seq<Observation>, rows: Rows, i: nat)
    requires Converged(p, l, os, rows) && i < |os|
    ensures os[i].id in rows
            && Holds(rows[os[i].id], os[i], if Latest(p, os, i) then Active else Superseded)
  {
  }

  lemma OldRows(p: Policy, l: Ledger, os: seq<Observation>, o: Observation, rows: Rows, rows': Rows)
    requires CleanRun(p, l, os + [o]) && Converged(p, l, os, rows) && rows'.Keys == rows.Keys + {o.id}
    requires forall k :: k in rows && (forall i :: 0 <= i < |os| ==> os[i].id != k) ==> rows'[k] == rows[k]
    ensures forall k :: k in l.rows ==> k in rows' && rows'[k] == l.rows[k]
  {
    hide Holds, Latest, SubjectFact, SlotsEmpty, LiveIdentity, SameSlotAs;
    SeparatePrefix(p, l, os, o);
  }

  lemma KeysAfter(p: Policy, l: Ledger, os: seq<Observation>, o: Observation, rows: Rows, rows': Rows)
    requires Converged(p, l, os, rows) && rows'.Keys == rows.Keys + {o.id}
    ensures forall k :: k in rows' <==> k in l.rows || exists i :: 0 <= i < |os + [o]| && (os + [o])[i].id == k
  {
    var all := os + [o];
    assert all[|os|] == o && forall i :: 0 <= i < |os| ==> all[i] == os[i];
    forall k | k in rows'
      ensures k in l.rows || exists i :: 0 <= i < |all| && all[i].id == k
    {
      if k in rows && k !in l.rows {
        var i :| 0 <= i < |os| && os[i].id == k;
        assert all[i].id == k;
      } else if k == o.id {
        assert all[|os|].id == k;
      }
    }
    forall k | exists i :: 0 <= i < |all| && all[i].id == k
      ensures k in rows'
    {
      var i :| 0 <= i < |all| && all[i].id == k;
      assert i < |os| ==> os[i].id in rows;
    }
  }

  /** Who is latest once `o` has arrived. */
  lemma StatusAfter(p: Policy, os: seq<Observation>, o: Observation, m: Option<nat>)
    requires o.unit.time.Some? && forall i :: 0 <= i < |os| ==> os[i].unit.time.Some?
    requires m.None? ==> forall j :: 0 <= j < |os| ==> !SameSlotAs(p, os[j], o)
    requires m.Some? ==> m.value < |os| && SameSlotAs(p, os[m.value], o) && Latest(p, os, m.value)
                         && os[m.value].unit.time != o.unit.time
    ensures var late := m.Some? && o.unit.time.value < os[m.value].unit.time.value;
            Latest(p, os + [o], |os|) <==> !late
    ensures m.Some? && !(o.unit.time.value < os[m.value].unit.time.value) ==> !Latest(p, os + [o], m.value)
    ensures forall i :: 0 <= i < |os| && (m.None? || i != m.value || o.unit.time.value < os[m.value].unit.time.value)
              && (m.Some? && i != m.value && SameSlotAs(p, os[i], o) ==> !Latest(p, os, i))
              ==> (Latest(p, os + [o], i) <==> Latest(p, os, i))
  {
    var all := os + [o];
    assert all[|os|] == o && forall j :: 0 <= j < |os| ==> all[j] == os[j];
    forall i | 0 <= i < |os|
      ensures Latest(p, all, i)
              <==> Latest(p, os, i) && (SameSlotAs(p, o, os[i]) ==> o.unit.time.value <= os[i].unit.time.value)
    {
      LatestAfter(p, os, o, i);
    }
  }

  lemma SlotSymmetric(p: Policy, a: Observation, b: Observation)
    ensures SameSlotAs(p, a, b) <==> SameSlotAs(p, b, a)
  {
  }

  lemma TimesDiffer(p: Policy, l: Ledger, os: seq<Observation>, o: Observation, i: nat)
    requires CleanRun(p, l, os + [o]) && i < |os|
    ensures os[i].id != o.id && (SameSlotAs(p, os[i], o) ==> os[i].unit.time != o.unit.time)
  {
    hide CleanRun, SameSlotAs;
    SeparatePrefix(p, l, os, o);
  }

  lemma NotTheIncumbent(p: Policy, l: Ledger, os: seq<Observation>, o: Observation, m: nat, i: nat)
    requires CleanRun(p, l, os + [o]) && m < |os| && i < |os| && i != m
    requires SameSlotAs(p, os[m], o) && Latest(p, os, m)
    ensures os[i].id != os[m].id && !(SameSlotAs(p, os[i], o) && Latest(p, os, i))
  {
    hide CleanRun, Latest;
    SeparatePrefix(p, l, os, o);
    Timed(p, l, os, o);
    if SameSlotAs(p, os[i], o) && Latest(p, os, i) {
      OneLatest(p, l, os, i, m);
      assert false;
    }
  }

  /** An earlier observation after `o` is committed: the incumbent yields to a newer `o`, others stay. */
  lemma RowAfter(p: Policy, l: Ledger, os: seq<Observation>, o: Observation, rows: Rows, rows': Rows,
                 m: Option<nat>, i: nat)
    requires i < |os| && CleanRun(p, l, os + [o]) && Converged(p, l, os, rows)
    requires o.unit.time.Some? && forall x :: 0 <= x < |os| ==> os[x].unit.time.Some?
    requires m.None? ==> forall j :: 0 <= j < |os| ==> !SameSlotAs(p, os[j], o)
    requires m.Some? ==> m.value < |os| && SameSlotAs(p, os[m.value], o) && Latest(p, os, m.value)
    requires rows'.Keys == rows.Keys + {o.id}
    requires forall k :: k in rows && (m.Some? ==> k != os[m.value].id) ==> rows'[k] == rows[k]
    requires m.Some? && os[m.value].id in rows ==>
               if o.unit.time.value < os[m.value].unit.time.value
               then rows'[os[m.value].id] == rows[os[m.value].id]
               else Holds(rows'[os[m.value].id], os[m.value], Superseded)
    ensures os[i].id in rows'
            && Holds(rows'[os[i].id], os[i], if Latest(p, os + [o], i) then Active else Superseded)
  {
    hide Converged, Latest, Holds, CleanRun, SameSlotAs;
    StoredAs(p, l, os, rows, i);
    LatestAfter(p, os, o, i);
    SlotSymmetric(p, os[i], o);
    TimesDiffer(p, l, os, o, i);
    if m.Some? && i != m.value {
      NotTheIncumbent(p, l, os, o, m.value, i);
    }
  }

  // ---- convergence ----------------------------------------------------------

  /** In whatever order clean observations arrive, every one of them is stored and, per slot, exactly the one
      with the latest time is active; the rest is superseded history. Taking prefixes of `os`, this holds after
      each step. */
  lemma {:induction false} Convergence(p: Policy, l: Ledger, os: seq<Observation>)
    requires CleanRun(p, l, os)
    ensures Converged(p, l, os, ObserveAll(p, l, os).rows)
    decreases |os|
  {
    hide Observe, Holds, Latest, SameSlotAs;
    if os != [] {
      var n := |os| - 1;
      assert os == os[..n] + [os[n]];
      SeparatePrefix(p, l, os[..n], os[n]);
      Convergence(p, l, os[..n]);
      ConvergedStep(p, l, os[..n], os[n], ObserveAll(p, l, os[..n]));
    }
  }

  /** Two arrival orders of the same observations leave the same values active. */
  lemma OrderDoesNotMatter(p: Policy, l: Ledger, os: seq<Observation>, os': seq<Observation>, i: nat, j: nat)
    requires CleanRun(p, l, os) && CleanRun(p, l, os') && multiset(os) == multiset(os')
    requires i < |os| && j < |os'| && os[i] == os'[j]
    ensures var a, b := ObserveAll(p, l, os).rows, ObserveAll(p, l, os').rows;
            && os[i].id in a && os[i].id in b
            && a[os[i].id].status == b[os[i].id].status
            && a[os[i].id].content == b[os[i].id].content == os[i].content
  {
    hide Latest, CleanRun, ObserveAll;
    Convergence(p, l, os);
    Convergence(p, l, os');
    LatestIsOrderFree(p, os, os', i, j);
    LatestIsOrderFree(p, os', os, j, i);
    StoredAs(p, l, os, ObserveAll(p, l, os).rows, i);
    StoredAs(p, l, os', ObserveAll(p, l, os').rows, j);
  }

  lemma LatestIsOrderFree(p: Policy, os: seq<Observation>, os': seq<Observation>, i: nat, j: nat)
    requires multiset(os) == multiset(os') && i < |os| && j < |os'| && os[i] == os'[j]
    ensures Latest(p, os, i) ==> Latest(p, os', j)
  {
    forall x | 0 <= x < |os'|
      ensures os'[x] in os
    {
      assert os'[x] in multiset(os');
      assert os'[x] in multiset(os);
    }
  }

  /** Exactly one row of an observed slot is active. */
  lemma OneActivePerSlot(p: Policy, l: Ledger, os: seq<Observation>, j: nat) returns (i: nat)
    requires CleanRun(p, l, os) && j < |os|
    ensures i < |os| && SameSlotAs(p, os[i], os[j]) && Latest(p, os, i)
    ensures forall x :: 0 <= x < |os| && SameSlotAs(p, os[x], os[j]) ==>
                          os[x].id in ObserveAll(p, l, os).rows
                          && (IsActive(ObserveAll(p, l, os).rows, os[x].id) <==> x == i)
  {
    hide Latest, ObserveAll;
    Convergence(p, l, os);
    i := SomeLatest(p, os, j);
    forall x | 0 <= x < |os| && SameSlotAs(p, os[x], os[j])
      ensures os[x].id in ObserveAll(p, l, os).rows
              && (IsActive(ObserveAll(p, l, os).rows, os[x].id) <==> x == i)
    {
      StoredAs(p, l, os, ObserveAll(p, l, os).rows, x);
      if Latest(p, os, x) {
        OneLatest(p, l, os, x, i);
      }
    }
  }

  /** A late arrival on an empty store: the earlier-stored newer value stays, the late one becomes history. */
  lemma LateArrival(p: Policy, a: Observation, b: Observation)
    requires SubjectFact(a) && SubjectFact(b) && SameSlotAs(p, a, b) && a.id != b.id
    requires a.unit.identity != b.unit.identity && b.unit.time.value < a.unit.time.value && a.id !in b.excluded
    ensures CleanRun(p, EMPTY, [a, b])
    ensures var rows := ObserveAll(p, EMPTY, [a, b]).rows;
            && rows.Keys == {a.id, b.id}
            && Holds(rows[a.id], a, Active) && Holds(rows[b.id], b, Superseded)
  {
    hide ObserveAll, Holds, CleanRun, Latest, SubjectFact, SameSlotAs;
    var os := [a, b];
    TwoArrivals(p, a, b);
    Convergence(p, EMPTY, os);
    StoredIds(p, EMPTY, os, ObserveAll(p, EMPTY, os).rows);
    StoredAs(p, EMPTY, os, ObserveAll(p, EMPTY, os).rows, 0);
    StoredAs(p, EMPTY, os, ObserveAll(p, EMPTY, os).rows, 1);
    assert os[0].id in ObserveAll(p, EMPTY, os).rows.Keys && os[1].id in ObserveAll(p, EMPTY, os).rows.Keys;
  }

  lemma TwoArrivals(p: Policy, a: Observation, b: Observation)
    requires SubjectFact(a) && SubjectFact(b) && SameSlotAs(p, a, b) && a.id != b.id
    requires a.unit.identity != b.unit.identity && b.unit.time.value < a.unit.time.value && a.id !in b.excluded
    ensures CleanRun(p, EMPTY, [a, b]) && Latest(p, [a, b], 0) && !Latest(p, [a, b], 1)
  {
    hide IsMatch, LiveIdentity;
    var os := [a, b];
    assert os[0] == a && os[1] == b;
    assert !LiveIdentity(EMPTY.rows, a) && !LiveIdentity(EMPTY.rows, b) by { NothingLive(a); NothingLive(b); }
  }

  lemma NothingLive(o: Observation)
    ensures !LiveIdentity(EMPTY.rows, o)
  {
  }

  // ---- payloads without a subject do not converge ---------------------------

  /** Case folding maps the empty text, and nothing else, to the empty text. */
  ghost predicate FoldsEmpty(p: Policy) {
    p.lower("") == "" && forall s :: p.lower(s) == "" ==> s == ""
  }

  /** Atomic facts have a `subject`; the other reconcilable payloads have an `entity` instead. */
  predicate WellTyped(o: Observation) {
    o.unit.kind.AtomicFact? <==> o.unit.holder.OfSubject?
  }

  /** The reconciler compares the stored holder with the missing `subject`, so nothing ever matches. */
  lemma EntityNeverMatches(p: Policy, rows: Rows, o: Observation)
    requires FoldsEmpty(p) && o.unit.holder.OfEntity?
    ensures Matches(p, rows, o) == {}
  {
  }

  ghost predicate EntityRun(p: Policy, l: Ledger, os: seq<Observation>) {
    Separate(p, l, os) && forall i :: 0 <= i < |os| ==> Admissible(os[i]) && os[i].unit.holder.OfEntity?
  }

  ghost predicate AllActive(l: Ledger, os: seq<Observation>, rows: Rows) {
    && (forall k :: k in rows ==> k in l.rows || exists i :: 0 <= i < |os| && os[i].id == k)
    && (forall k :: k in l.rows ==> k in rows && rows[k] == l.rows[k])
    && (forall i :: 0 <= i < |os| ==> os[i].id in rows && Holds(rows[os[i].id], os[i], Active))
  }

  lemma EntityFresh(p: Policy, l: Ledger, os: seq<Observation>, o: Observation, rows: Rows)
    requires EntityRun(p, l, os + [o]) && AllActive(l, os, rows)
    ensures EntityRun(p, l, os) && Admissible(o) && o.unit.holder.OfEntity?
    ensures o.id !in rows && !LiveIdentity(rows, o)
  {
    hide Admissible, SameSlotAs, Holds, LiveIdentity;
    EntityPrefix(p, l, os, o);
    assert o.id !in rows;
    forall k | k in rows
      ensures !LiveAs(rows[k], o) || (k in l.rows && rows[k] == l.rows[k])
    {
      if k !in l.rows {
        var i :| 0 <= i < |os| && os[i].id == k;
        OtherIdentity(rows[k], os[i], o);
      }
    }
    NotLive(l.rows, rows, o);
  }

  /** The row carries the observation's identity and is not retired. */
  predicate LiveAs(r: Record, o: Observation) {
    && r.raw.authority.Some? && r.raw.authority.value.workspace == o.scope.workspace
    && r.raw.unit.Some? && r.raw.unit.value.identity == o.unit.identity
    && (r.raw.unit.value.lifecycle.Active? || r.raw.unit.value.lifecycle.Quarantined?)
  }

  lemma NotLive(before: Rows, rows: Rows, o: Observation)
    requires !LiveIdentity(before, o)
    requires forall k :: k in rows ==> !LiveAs(rows[k], o) || (k in before && rows[k] == before[k])
    ensures !LiveIdentity(rows, o)
  {
    assert forall k :: k in before ==> !LiveAs(before[k], o);
  }

  lemma OtherIdentity(r: Record, q: Observation, o: Observation)
    requires Holds(r, q, Active) && q.unit.identity != o.unit.identity
    ensures !LiveAs(r, o)
  {
  }

  lemma EntityPrefix(p: Policy, l: Ledger, os: seq<Observation>, o: Observation)
    requires EntityRun(p, l, os + [o])
    ensures EntityRun(p, l, os) && Admissible(o) && o.unit.holder.OfEntity?
    ensures o.id !in l.rows && !LiveIdentity(l.rows, o)
    ensures forall i :: 0 <= i < |os| ==> os[i].id != o.id && os[i].unit.identity != o.unit.identity
  {
    hide Admissible, SameSlotAs, LiveIdentity;
    var all := os + [o];
    assert all[|os|] == o && forall i :: 0 <= i < |os| ==> all[i] == os[i];
  }

  /** Every admissible observation of an entity stays active, however many share the slot. */
  lemma {:induction false} EntitiesAllStayActive(p: Policy, l: Ledger, os: seq<Observation>)
    requires FoldsEmpty(p) && EntityRun(p, l, os)
    ensures AllActive(l, os, ObserveAll(p, l, os).rows)
    decreases |os|
  {
    hide Observe, Holds, Admissible, SameSlotAs, LiveIdentity, Matches, FoldsEmpty;
    if os != [] {
      var n := |os| - 1;
      var init, o := os[..n], os[n];
      assert os == init + [o];
      assert EntityRun(p, l, init);
      EntitiesAllStayActive(p, l, init);
      var l1 := ObserveAll(p, l, init);
      EntityFresh(p, l, init, o, l1.rows);
      EntityNeverMatches(p, l1.rows, o);
      ObserveRows(p, l1, o, None, o);
      AllActiveStep(l, init, o, l1.rows, Observe(p, l1, o).l.rows);
    }
  }

  lemma AllActiveStep(l: Ledger, os: seq<Observation>, o: Observation, rows: Rows, rows': Rows)
    requires AllActive(l, os, rows) && rows'.Keys == rows.Keys + {o.id} && o.id !in rows
    requires Holds(rows'[o.id], o, Active) && forall k :: k in rows ==> rows'[k] == rows[k]
    ensures AllActive(l, os + [o], rows')
  {
    hide Holds;
    var all := os + [o];
    assert all[|os|] == o && forall i :: 0 <= i < |os| ==> all[i] == os[i];
    forall k | k in rows'
      ensures k in l.rows || exists i :: 0 <= i < |all| && all[i].id == k
    {
      if k in rows && k !in l.rows {
        var i :| 0 <= i < |os| && os[i].id == k;
        assert all[i].id == k;
      } else if k == o.id {
        assert all[|os|].id == k;
      }
    }
  }

  /** Admissible, well-typed observations of one slot and one kind, new to the store. */
  ghost predicate OneSlot(p: Policy, l: Ledger, os: seq<Observation>) {
    && Separate(p, l, os) && SlotsEmpty(p, l, os) && SlotsOpen(p, os)
    && (forall i :: 0 <= i < |os| ==> Admissible(os[i]) && WellTyped(os[i]))
    && (forall i, j :: 0 <= i < |os| && 0 <= j < |os| ==>
                         SameSlotAs(p, os[i], os[j]) && os[i].unit.kind == os[j].unit.kind)
  }

  ghost predicate AtMostOneActive(os: seq<Observation>, rows: Rows) {
    forall i, j :: 0 <= i < |os| && 0 <= j < |os| && IsActive(rows, os[i].id) && IsActive(rows, os[j].id) ==> i == j
  }

  /** Convergence to a single active row holds exactly for the kind whose payload has a `subject`. */
  lemma ConvergesExactlyForAtomicFacts(p: Policy, l: Ledger, os: seq<Observation>)
    requires FoldsEmpty(p) && OneSlot(p, l, os) && |os| >= 2
    ensures AtMostOneActive(os, ObserveAll(p, l, os).rows) <==> os[0].unit.kind.AtomicFact?
  {
    hide Admissible, SameSlotAs, ObserveAll, LiveIdentity, IsMatch, FoldsEmpty, Latest;
    if os[0].unit.kind.AtomicFact? {
      assert CleanRun(p, l, os);
      var i := OneActivePerSlot(p, l, os, 0);
    } else {
      EntitiesAllStayActive(p, l, os);
      ActiveHolds(ObserveAll(p, l, os).rows[os[0].id], os[0]);
      ActiveHolds(ObserveAll(p, l, os).rows[os[1].id], os[1]);
      assert IsActive(ObserveAll(p, l, os).rows, os[0].id) && IsActive(ObserveAll(p, l, os).rows, os[1].id);
    }
  }

  /** A failing run: two transitions of one entity, observed in order on an empty store, both stay active. */
  lemma TwoTransitionsStayActive(p: Policy, pr: Provenance)
    requires FoldsEmpty(p)
    ensures var scope := Scope("s", "a", "w");
            var a := Observation(1, 1, scope, Unit(StateTransition, OfEntity("door"), "state", Some(1), 1, Active),
                                 Some("door"), "The door opened", true, TrustedUser, true, false, false, {}, pr);
            var b := Observation(2, 2, scope, Unit(StateTransition, OfEntity("door"), "state", Some(2), 2, Active),
                                 Some("door"), "The door closed", true, TrustedUser, true, false, false, {}, pr);
            var rows := ObserveAll(p, EMPTY, [a, b]).rows;
            OneSlot(p, EMPTY, [a, b]) && IsActive(rows, 1) && IsActive(rows, 2)
  {
    var scope := Scope("s", "a", "w");
    var a := Observation(1, 1, scope, Unit(StateTransition, OfEntity("door"), "state", Some(1), 1, Active),
                         Some("door"), "The door opened", true, TrustedUser, true, false, false, {}, pr);
    var b := Observation(2, 2, scope, Unit(StateTransition, OfEntity("door"), "state", Some(2), 2, Active),
                         Some("door"), "The door closed", true, TrustedUser, true, false, false, {}, pr);
    TwoEntities(p, a, b);
  }

  lemma TwoInSlot(p: Policy, a: Observation, b: Observation)
    requires Admissible(a) && Admissible(b) && WellTyped(a) && WellTyped(b) && a.unit.kind == b.unit.kind
    requires SameSlotAs(p, a, b) && a.id != b.id && a.unit.identity != b.unit.identity && a.unit.time != b.unit.time
    requires a.id !in b.excluded
    ensures OneSlot(p, EMPTY, [a, b])
  {
    hide IsMatch, LiveIdentity, Admissible;
    var os := [a, b];
    assert os[0] == a && os[1] == b;
    NothingLive(a);
    NothingLive(b);
  }

  /** Two admissible observations of one entity slot on an empty store both stay active. */
  lemma TwoEntities(p: Policy, a: Observation, b: Observation)
    requires FoldsEmpty(p) && Admissible(a) && Admissible(b) && WellTyped(a) && WellTyped(b)
    requires a.unit.holder.OfEntity? && b.unit.holder.OfEntity? && a.unit.kind == b.unit.kind
    requires SameSlotAs(p, a, b) && a.id != b.id && a.unit.identity != b.unit.identity && a.unit.time != b.unit.time
    requires a.id !in b.excluded
    ensures OneSlot(p, EMPTY, [a, b])
    ensures IsActive(ObserveAll(p, EMPTY, [a, b]).rows, a.id) && IsActive(ObserveAll(p, EMPTY, [a, b]).rows, b.id)
  {
    hide IsMatch, LiveIdentity, ObserveAll, Admissible, FoldsEmpty, Holds, SameSlotAs;
    var os := [a, b];
    TwoInSlot(p, a, b);
    EntitiesAllStayActive(p, EMPTY, os);
    assert os[0] == a && os[1] == b;
    ActiveHolds(ObserveAll(p, EMPTY, os).rows[os[0].id], os[0]);
    ActiveHolds(ObserveAll(p, EMPTY, os).rows[os[1].id], os[1]);
  }
}
