/** The append-only event log and the verifier that checks record rows against it. */
module AuditLog {
  import opened Wrappers
  import opened Records

  datatype EventKind =
    | RecordCreated
    | RecordQuarantined
    | RecordPromoted
    | RecordRejected
    | RecordCorrected
    | ObservationAdmitted
    | Note(name: string)

  /** The whole-row commitment `_record_integrity_sha256`. The digest is modelled by the
      value it digests, which makes it injective; `updatedAt` is not committed. */
  datatype Commitment = Commitment(id: Id, content: string, tier: Tier, provenance: Provenance, createdAt: int,
                                   status: Status, supersedes: Option<Id>, factKey: Option<string>, raw: Raw)

  function Commit(id: Id, r: Record): Commitment {
    Commitment(id, r.content, r.tier, r.provenance, r.createdAt, r.status, r.supersedes, r.factKey, r.raw)
  }

  /** The payload keys that any modelled reader looks at. */
  datatype Payload = Payload(
    recordIds: seq<Id> := [],
    candidateIds: seq<Id> := [],
    observed: Option<Id> := None,
    supersedes: seq<Id> := [],
    purged: seq<Id> := [],
    duplicates: seq<Id> := [],
    repaired: seq<Id> := [],
    replaced: Option<Id> := None,
    commitment: Option<Commitment> := None,
    related: seq<Id> := [],
    supersededRecordIds: seq<Id> := [],
    preparation: Option<Id> := None,
    candidateSet: Option<Id> := None)

  datatype Event = Event(kind: EventKind, record: Option<Id> := None, payload: Payload := Payload())

  // ---- what the verifier reads out of the log -------------------------------

  datatype Summary = Summary(commitments: map<Id, Commitment>, known: set<Id>, changed: set<Id>)

  function Members(ids: seq<Id>): set<Id> {
    set k | k in ids
  }

  function One(id: Option<Id>): set<Id> {
    if id.Some? then {id.value} else {}
  }

  predicate IsCreation(e: Event) {
    (e.kind.RecordCreated? || e.kind.RecordQuarantined?) && e.record.Some?
  }

  function KnownBy(e: Event): set<Id> {
    (if IsCreation(e) then One(e.record) else {})
    + Members(e.payload.recordIds) + Members(e.payload.candidateIds)
    + (if !e.kind.ObservationAdmitted? then {}
       else if e.payload.observed.Some? then One(e.payload.observed) else One(e.record))
  }

  function ChangedBy(e: Event): set<Id> {
    Members(e.payload.supersedes) + Members(e.payload.purged)
    + Members(e.payload.duplicates) + Members(e.payload.repaired)
    + (if e.kind.RecordPromoted? || e.kind.RecordRejected? then One(e.record) else {})
    + (if e.kind.RecordCorrected? then One(e.payload.replaced) else {})
  }

  function Absorb(s: Summary, e: Event): Summary {
    Summary(
      if IsCreation(e) && e.payload.commitment.Some?
      then s.commitments[e.record.value := e.payload.commitment.value] else s.commitments,
      s.known + KnownBy(e),
      s.changed + ChangedBy(e))
  }

  function Summarize(log: seq<Event>): Summary {
    if log == [] then Summary(map[], {}, {})
    else Absorb(Summarize(log[..|log| - 1]), log[|log| - 1])
  }

  lemma SummarizeSnoc(log: seq<Event>, e: Event)
    ensures Summarize(log + [e]) == Absorb(Summarize(log), e)
  {
    assert (log + [e])[..|log|] == log;
  }

  // ---- the same, event by event ---------------------------------------------

  /** The event announces the new row `k`, active or quarantined, and commits to it. */
  predicate CommitsTo(e: Event, k: Id) {
    (e.kind == RecordCreated || e.kind == RecordQuarantined) && e.record == Some(k) && e.payload.commitment.Some?
  }

  /** The event reports a legitimate change of `k`. */
  predicate ReportsChange(e: Event, k: Id) {
    || k in e.payload.supersedes || k in e.payload.purged || k in e.payload.duplicates || k in e.payload.repaired
    || ((e.kind == RecordPromoted || e.kind == RecordRejected) && e.record == Some(k))
    || (e.kind == RecordCorrected && e.payload.replaced == Some(k))
  }

  /** The event makes the existence of `k` known. */
  predicate Names(e: Event, k: Id) {
    || ((e.kind == RecordCreated || e.kind == RecordQuarantined) && e.record == Some(k))
    || k in e.payload.recordIds || k in e.payload.candidateIds
    || (e.kind == ObservationAdmitted
        && (e.payload.observed == Some(k) || (e.payload.observed.None? && e.record == Some(k))))
  }

  ghost predicate CommittedIn(log: seq<Event>, k: Id) {
    exists i :: 0 <= i < |log| && CommitsTo(log[i], k)
  }

  ghost predicate ChangedIn(log: seq<Event>, k: Id) {
    exists i :: 0 <= i < |log| && ReportsChange(log[i], k)
  }

  ghost predicate NamedIn(log: seq<Event>, k: Id) {
    exists i :: 0 <= i < |log| && Names(log[i], k)
  }

  /** The last event that commits to `k` carries this commitment. */
  ghost predicate LastCommitment(log: seq<Event>, k: Id, c: Commitment) {
    exists i :: 0 <= i < |log| && CommitsTo(log[i], k) && log[i].payload.commitment == Some(c)
                && forall j :: i < j < |log| ==> !CommitsTo(log[j], k)
  }

  /** The log commits to `k` and reports no change of it. */
  ghost predicate Stands(log: seq<Event>, k: Id) {
    CommittedIn(log, k) && !ChangedIn(log, k)
  }

  lemma {:induction false} CommitmentsExactly(log: seq<Event>, k: Id)
    ensures k in Summarize(log).commitments <==> CommittedIn(log, k)
    ensures k in Summarize(log).commitments ==> LastCommitment(log, k, Summarize(log).commitments[k])
    decreases |log|
  {
    hide KnownBy, ChangedBy;
    if log != [] {
      var n := |log| - 1;
      var init, e := log[..n], log[n];
      assert forall i :: 0 <= i < n ==> init[i] == log[i];
      CommitmentsExactly(init, k);
      hide Summarize;
      assert log == init + [e];
      SummarizeSnoc(init, e);
      LastSnoc(init, e, k);
    }
  }

  lemma LastSnoc(log: seq<Event>, e: Event, k: Id)
    ensures CommittedIn(log + [e], k) <==> CommittedIn(log, k) || CommitsTo(e, k)
    ensures forall c :: LastCommitment(log + [e], k, c)
                        <==> if CommitsTo(e, k) then e.payload.commitment == Some(c) else LastCommitment(log, k, c)
  {
    hide CommitsTo;
    var all, n := log + [e], |log|;
    assert all[n] == e && forall i :: 0 <= i < n ==> all[i] == log[i];
  }

  lemma EventReads(e: Event, k: Id)
    ensures k in ChangedBy(e) <==> ReportsChange(e, k)
    ensures k in KnownBy(e) <==> Names(e, k)
  {
  }

  lemma {:induction false} MentionsExactly(log: seq<Event>, k: Id)
    ensures k in Summarize(log).changed <==> ChangedIn(log, k)
    ensures k in Summarize(log).known <==> NamedIn(log, k)
    decreases |log|
  {
    hide KnownBy, ChangedBy, ReportsChange, Names;
    if log != [] {
      var n := |log| - 1;
      var init, e := log[..n], log[n];
      assert forall i :: 0 <= i < n ==> init[i] == log[i];
      MentionsExactly(init, k);
      EventReads(e, k);
      if ChangedIn(init, k) {
        var i :| 0 <= i < |init| && ReportsChange(init[i], k);
        assert ReportsChange(log[i], k);
      }
      if NamedIn(init, k) {
        var i :| 0 <= i < |init| && Names(init[i], k);
        assert Names(log[i], k);
      }
    }
  }

  /** What the verifier reads out of any log: a row is committed exactly when an announcing event commits to it,
      with the commitment of the last such event; it is changed, or known, exactly when some event says so. */
  lemma SummaryExactly(log: seq<Event>, k: Id)
    ensures var s := Summarize(log);
            && (k in s.commitments <==> CommittedIn(log, k))
            && (k in s.commitments ==> LastCommitment(log, k, s.commitments[k]))
            && (k in s.changed <==> ChangedIn(log, k))
            && (k in s.known <==> NamedIn(log, k))
            && (k in Protected(s) <==> Stands(log, k))
  {
    hide Summarize, CommittedIn, ChangedIn, NamedIn, LastCommitment;
    CommitmentsExactly(log, k);
    MentionsExactly(log, k);
  }

  lemma LastCommitmentUnique(log: seq<Event>, k: Id, a: Commitment, b: Commitment)
    requires LastCommitment(log, k, a) && LastCommitment(log, k, b)
    ensures a == b
  {
  }

  // ---- the verifier ---------------------------------------------------------

  datatype Failure = Missing(id: Id) | Altered(id: Id) | Unlogged(id: Id)

  datatype Report = Report(enabled: bool, valid: bool, committed: nat, failures: seq<Failure>)

  /** Rows the log commits to and does not list as legitimately changed. */
  function Protected(s: Summary): set<Id> {
    s.commitments.Keys - s.changed
  }

  predicate IsFailure(s: Summary, rows: Rows, f: Failure) {
    match f
    case Missing(k) => k in Protected(s) && k !in rows
    case Altered(k) => k in Protected(s) && k in rows && Commit(k, rows[k]) != s.commitments[k]
    case Unlogged(k) => Live(rows, k) && k !in s.known
  }

  /** The same, read off the events: a standing row is missing or differs from its last commitment, or a live
      row is never named. */
  ghost predicate Fails(log: seq<Event>, rows: Rows, f: Failure) {
    match f
    case Missing(k) => Stands(log, k) && k !in rows
    case Altered(k) => Stands(log, k) && k in rows && !LastCommitment(log, k, Commit(k, rows[k]))
    case Unlogged(k) => Live(rows, k) && !NamedIn(log, k)
  }

  lemma FailsExactly(log: seq<Event>, rows: Rows, f: Failure)
    ensures IsFailure(Summarize(log), rows, f) <==> Fails(log, rows, f)
  {
    hide Summarize, LastCommitment, CommittedIn, ChangedIn, NamedIn;
    var s, k := Summarize(log), f.id;
    SummaryExactly(log, k);
    if k in s.commitments && k in rows && LastCommitment(log, k, Commit(k, rows[k])) {
      LastCommitmentUnique(log, k, s.commitments[k], Commit(k, rows[k]));
    }
  }

  /** The verdict `valid`: checking starts with the first commitment in the log. */
  ghost predicate Accepts(s: Summary, rows: Rows) {
    s.commitments != map[] ==> forall f :: !IsFailure(s, rows, f)
  }

  lemma SmallestExists(s: set<Id>) returns (m: Id)
    requires s != {}
    ensures m in s && forall x :: x in s ==> m <= x
    decreases |s|
  {
    var a :| a in s;
    var rest := s - {a};
    assert forall x :: x in s ==> x == a || x in rest;
    if rest == {} {
      m := a;
    } else {
      var b := SmallestExists(rest);
      m := if a < b then a else b;
    }
  }

  function Smallest(s: set<Id>): (m: Id)
    requires s != {}
    ensures m in s && forall x :: x in s ==> m <= x
  {
    assert exists m :: m in s && forall x :: x in s ==> m <= x by { var m := SmallestExists(s); }
    var m :| m in s && forall x :: x in s ==> m <= x;
    m
  }

  method ReadKnown(e: Event) returns (known: set<Id>)
    ensures known == KnownBy(e)
  {
    known := {};
    if IsCreation(e) {
      known := {e.record.value};
    }
    known := known + Members(e.payload.recordIds) + Members(e.payload.candidateIds);
    if e.kind.ObservationAdmitted? {
      known := known + (if e.payload.observed.Some? then One(e.payload.observed) else One(e.record));
    }
  }

  method ReadChanged(e: Event) returns (changed: set<Id>)
    ensures changed == ChangedBy(e)
  {
    changed := Members(e.payload.supersedes) + Members(e.payload.purged)
    + Members(e.payload.duplicates) + Members(e.payload.repaired);
    if (e.kind.RecordPromoted? || e.kind.RecordRejected?) && e.record.Some? {
      changed := changed + {e.record.value};
    }
    if e.kind.RecordCorrected? && e.payload.replaced.Some? {
      changed := changed + {e.payload.replaced.value};
    }
  }

  method ReadLog(log: seq<Event>) returns (commitments: map<Id, Commitment>, known: set<Id>, changed: set<Id>)
    ensures Summary(commitments, known, changed) == Summarize(log)
  {
    commitments, known, changed := map[], {}, {};
    for i := 0 to |log|
      invariant Summary(commitments, known, changed) == Summarize(log[..i])
    {
      var e := log[i];
      assert log[..i + 1] == log[..i] + [e];
      SummarizeSnoc(log[..i], e);
      if IsCreation(e) && e.payload.commitment.Some? {
        commitments := commitments[e.record.value := e.payload.commitment.value];
      }
      var knownHere := ReadKnown(e);
      var changedHere := ReadChanged(e);
      known, changed := known + knownHere, changed + changedHere;
    }
    assert log[..|log|] == log;
  }

  /** One committed row: skipped when legitimately changed, else present and equal. */
  method CheckRow(ghost s: Summary, commitments: map<Id, Commitment>, changed: set<Id>, rows: Rows, id: Id)
    returns (failures: seq<Failure>)
    requires s.commitments == commitments && s.changed == changed && id in commitments
    ensures forall f :: f in failures <==> !f.Unlogged? && f.id == id && IsFailure(s, rows, f)
  {
    if id in changed {
      return [];
    }
    if id !in rows {
      return [Missing(id)];
    }
    return if Commit(id, rows[id]) != commitments[id] then [Altered(id)] else [];
  }

  /** First pass: the committed rows in id order. */
  method CheckCommitted(ghost s: Summary, commitments: map<Id, Commitment>, changed: set<Id>, rows: Rows)
    returns (failures: seq<Failure>)
    requires s.commitments == commitments && s.changed == changed
    ensures forall f :: f in failures <==> !f.Unlogged? && IsFailure(s, rows, f)
  {
    failures := [];
    var todo := commitments.Keys;
    while todo != {}
      invariant todo <= commitments.Keys
      invariant forall f :: f in failures <==> !f.Unlogged? && f.id !in todo && IsFailure(s, rows, f)
      decreases |todo|
    {
      var id := Smallest(todo);
      var found := CheckRow(s, commitments, changed, rows, id);
      todo, failures := todo - {id}, failures + found;
    }
  }

  /** Second pass: every current row in id order. */
  method CheckKnown(ghost s: Summary, known: set<Id>, rows: Rows) returns (failures: seq<Failure>)
    requires s.known == known
    ensures forall f :: f in failures <==> f.Unlogged? && IsFailure(s, rows, f)
  {
    failures := [];
    var current := rows.Keys;
    while current != {}
      invariant current <= rows.Keys
      invariant forall f :: f in failures <==> f.Unlogged? && f.id !in current && IsFailure(s, rows, f)
      decreases |current|
    {
      var id := Smallest(current);
      current := current - {id};
      if id !in known && !rows[id].status.Tombstoned? {
        failures := failures + [Unlogged(id)];
      }
    }
  }

  method VerifyRecordIntegrity(log: seq<Event>, rows: Rows) returns (r: Report)
    ensures r.valid <==> Accepts(Summarize(log), rows)
    ensures r.enabled <==> exists k :: CommittedIn(log, k)
    ensures r.enabled ==> forall f :: f in r.failures <==> Fails(log, rows, f)
    ensures r.valid <==> r.failures == []
    ensures r.enabled ==> r.committed == |Summarize(log).commitments|
    ensures !r.enabled ==> r.failures == [] && r.committed == 0
  {
    hide Summarize, Fails, IsFailure, CommittedIn;
    var commitments, known, changed := ReadLog(log);
    ghost var s := Summarize(log);
    forall k { SummaryExactly(log, k); }
    forall f { FailsExactly(log, rows, f); }
    if commitments == map[] {
      return Report(false, true, 0, []);
    }
    var altered := CheckCommitted(s, commitments, changed, rows);
    var unlogged := CheckKnown(s, known, rows);
    var failures := altered + unlogged;
    assert failures != [] ==> failures[0] in failures;
    r := Report(true, failures == [], |commitments|, failures);
  }
}
