/** Reconciliation and commit of a typed observation as loops over the candidate rows and updates of the
    stored tables. */
module TypedSlotEngine {
  import opened Wrappers
  import opened Records
  import opened AuditLog
  import opened Operations
  import opened TypedSlots

  function Latest(times: Option<int>, t: Option<int>): Option<int> {
    if t.None? then times
    else if times.None? || times.value < t.value then t else times
  }

  predicate OtherKind(rows: Rows, o: Observation, k: Id)
    requires k in rows
  {
    rows[k].raw.unit.Some? && rows[k].raw.unit.value.kind != o.unit.kind
  }

  /** What the loop has read off the matches so far: the latest recorded time, and whether a row has
      another kind. */
  ghost predicate Read(rows: Rows, o: Observation, matches: set<Id>, latest: Option<int>, otherKind: bool) {
    && matches <= rows.Keys
    && (otherKind <==> exists k :: k in matches && OtherKind(rows, o, k))
    && (forall k :: k in matches && TimeOf(rows[k]).Some? ==> latest.Some? && TimeOf(rows[k]).value <= latest.value)
    && (latest.Some? ==> exists k :: k in matches && TimeOf(rows[k]) == latest)
  }

  lemma ReadStep(rows: Rows, o: Observation, matches: set<Id>, latest: Option<int>, otherKind: bool, k: Id)
    requires Read(rows, o, matches, latest, otherKind) && k in rows
    ensures Read(rows, o, matches + {k}, Latest(latest, TimeOf(rows[k])), otherKind || OtherKind(rows, o, k))
  {
    hide OtherKind, TimeOf;
    var ms, latest' := matches + {k}, Latest(latest, TimeOf(rows[k]));
    assert k in ms && forall j :: j in matches ==> j in ms;
    if latest'.Some? {
      if latest' == TimeOf(rows[k]) {
        assert k in ms && TimeOf(rows[k]) == latest';
      } else {
        var j :| j in matches && TimeOf(rows[j]) == latest;
        assert j in ms && TimeOf(rows[j]) == latest';
      }
    }
    if otherKind {
      var j :| j in matches && OtherKind(rows, o, j);
      assert j in ms && OtherKind(rows, o, j);
    }
  }

  /** Comparing with the latest time is comparing with some time. */
  lemma Conclude(p: Policy, rows: Rows, o: Observation, latest: Option<int>, otherKind: bool)
    requires Read(rows, o, Matches(p, rows, o), latest, otherKind)
    ensures otherKind <==> ShapeConflict(p, rows, o)
    ensures (o.unit.time.Some? && latest.Some? && o.unit.time.value < latest.value) <==> Historical(p, rows, o)
  {
    hide Matches;
    MatchesInRows(p, rows, o);
  }

  lemma Collected(p: Policy, rows: Rows, o: Observation, ids: seq<Id>, matches: set<Id>)
    requires (forall k :: k in ids <==> k in rows) && forall k :: k in matches <==> k in ids && IsMatch(p, rows, o, k)
    requires o.trusted && Reconcilable(o) && !LiveIdentity(rows, o)
    ensures matches == Matches(p, rows, o)
  {
    hide IsMatch, LiveIdentity, Reconcilable;
  }

  lemma NothingRead(p: Policy, rows: Rows, o: Observation)
    ensures Read(rows, o, {}, None, false)
    ensures !o.trusted || !Reconcilable(o) || LiveIdentity(rows, o) ==> Matches(p, rows, o) == {}
  {
    hide LiveIdentity, Reconcilable;
  }

  /** The rows of the slot, collected in one loop over the candidate rows. */
  method Reconcile(p: Policy, rows: Rows, o: Observation) returns (matches: set<Id>, latest: Option<int>, otherKind: bool)
    ensures matches == Matches(p, rows, o)
    ensures otherKind <==> ShapeConflict(p, rows, o)
    ensures (o.unit.time.Some? && latest.Some? && o.unit.time.value < latest.value) <==> Historical(p, rows, o)
  {
    hide IsMatch, LiveIdentity, ShapeConflict, Historical, Reconcilable, Read, OtherKind, TimeOf, Latest, Matches,
         AgeSorted, Listing;
    matches, latest, otherKind := {}, None, false;
    NothingRead(p, rows, o);
    if !o.trusted || !Reconcilable(o) || LiveIdentity(rows, o) {
      Conclude(p, rows, o, latest, otherKind);
      return;
    }
    var ids := Listing(rows, rows.Keys);
    for i := 0 to |ids|
      invariant forall k :: k in matches <==> k in ids[..i] && IsMatch(p, rows, o, k)
      invariant Read(rows, o, matches, latest, otherKind)
    {
      var k := ids[i];
      assert k in ids && ids[..i + 1] == ids[..i] + [k];
      if IsMatch(p, rows, o, k) {
        ReadStep(rows, o, matches, latest, otherKind, k);
        matches, latest, otherKind := matches + {k}, Latest(latest, TimeOf(rows[k])), otherKind || OtherKind(rows, o, k);
      }
    }
    assert ids[..|ids|] == ids;
    Collected(p, rows, o, ids, matches);
    Conclude(p, rows, o, latest, otherKind);
  }

  class SlotStore {
    const p: Policy
    var ledger: Ledger

    constructor (p: Policy, ledger: Ledger)
      ensures this.p == p && this.ledger == ledger
    {
      this.p, this.ledger := p, ledger;
    }

    /** `submit_extraction_proposal` for one observation. */
    method Observe(o: Observation) returns (state: State)
      modifies this`ledger
      ensures Outcome(ledger, state) == TypedSlots.Observe(p, old(ledger), o)
    {
      hide CommitObservation, Matches, ShapeConflict, Historical, LiveIdentity;
      var matches, latest, otherKind := Reconcile(p, ledger.rows, o);
      var historical := o.unit.time.Some? && latest.Some? && o.unit.time.value < latest.value;
      var barredMatch := exists k :: k in matches && k in o.excluded;
      if !o.valid || barredMatch || o.barred {
        ledger := Noted(ledger, "memory.proposal_rejected");
        return Denied;
      }
      if !o.trusted || o.review || otherKind || (!historical && |matches| > 1) {
        ledger := Noted(ledger, "memory.proposal_pending_review");
        return PendingReview;
      }
      if LiveIdentity(ledger.rows, o) {
        ledger := Noted(ledger, "memory.proposal_noop");
        return Noop;
      }
      if o.id in ledger.rows {
        return Denied;
      }
      CommitRow(o, matches, historical);
      return Committed;
    }

    /** `_commit_extraction`: insert, then retire either the late row itself or the rows it replaces. */
    method CommitRow(o: Observation, matches: set<Id>, historical: bool)
      requires matches == Matches(p, ledger.rows, o) && historical == Historical(p, ledger.rows, o)
      requires o.id !in ledger.rows
      modifies this`ledger
      ensures ledger == CommitObservation(p, old(ledger), o)
    {
      hide Matches, Historical, SupersedeRows, SupersedeSet, ObservedRow;
      MatchesInRows(p, ledger.rows, o);
      var row := ObservedRow(p, ledger.rows, o);
      var targets := Listing(ledger.rows, matches);
      var superseded := if historical then [o.id] else targets;
      var keeper := if historical && targets != [] then targets[0] else o.id;
      SomeTarget(p, ledger.rows, o, targets);
      ledger := Insert(ledger, o.id, row);
      ledger := Supersede(ledger, superseded, keeper, o.now);
      ledger := Logged(ledger, Event(Note("memory.proposal_committed"), Some(o.id),
                                     Payload(recordIds := [o.id], supersededRecordIds := superseded)));
    }
  }

  lemma SomeTarget(p: Policy, rows: Rows, o: Observation, targets: seq<Id>)
    requires Matches(p, rows, o) <= rows.Keys && targets == Listing(rows, Matches(p, rows, o))
    ensures targets != [] <==> Matches(p, rows, o) != {}
  {
    hide Matches;
    if targets != [] {
      assert targets[0] in targets;
    }
  }
}
