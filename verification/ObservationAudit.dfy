/** What the integrity verifier makes of committed observations, over mixed runs of observations and
    lifecycle operations. */
module ObservationAudit {
  import opened Wrappers
  import opened Records
  import opened AuditLog
  import opened Operations
  import opened Lifecycle
  import opened Runs
  import opened TypedSlots
  import opened TypedSlotTheorems

  // ---- what an observation writes -------------------------------------------

  /** The guards of the commit, readable before the call: the observation is admitted under a new id. */
  predicate WillCommit(p: Policy, rows: Rows, o: Observation) {
    Verdict(p, rows, o) == Committed && o.id !in rows
  }

  /** The rows an observation takes out of their slot; a late observation takes out none. */
  function DisplacedBy(p: Policy, rows: Rows, o: Observation): set<Id> {
    if WillCommit(p, rows, o) && !Historical(p, rows, o) then Matches(p, rows, o) else {}
  }

  lemma CommittedReads(id: Id, gone: seq<Id>)
    ensures var e := Event(EventKind.Note("memory.proposal_committed"), Some(id),
                           Payload(recordIds := [id], supersededRecordIds := gone));
            KnownBy(e) == {id} && ChangedBy(e) == {} && !IsCreation(e)
  {
  }

  lemma ObservationSummary(p: Policy, l: Ledger, o: Observation)
    ensures var s, s' := Summarize(l.log), Summarize(CommitObservation(p, l, o).log);
            s'.commitments == s.commitments && s'.changed == s.changed && s'.known == s.known + {o.id}
  {
    hide KnownBy, ChangedBy, Summarize, Displaces, Supersede, ObservedRow, Successor;
    var gone := Displaces(p, l.rows, o);
    CommittedReads(o.id, gone);
    SummarizeSnoc(l.log, Event(EventKind.Note("memory.proposal_committed"), Some(o.id),
                               Payload(recordIds := [o.id], supersededRecordIds := gone)));
    LogAfter(p, l, o);
  }

  lemma LogAfter(p: Policy, l: Ledger, o: Observation)
    ensures CommitObservation(p, l, o).log
            == l.log + [Event(EventKind.Note("memory.proposal_committed"), Some(o.id),
                              Payload(recordIds := [o.id], supersededRecordIds := Displaces(p, l.rows, o)))]
  {
    hide Displaces, ObservedRow, Successor, SupersedeRows, SupersedeSet;
  }

  lemma MatchesAreActive(p: Policy, rows: Rows, o: Observation, k: Id)
    requires k in Matches(p, rows, o)
    ensures k in rows && rows[k].status.Active?
  {
  }

  lemma DisplacesExactly(p: Policy, l: Ledger, o: Observation, k: Id)
    requires WillCommit(p, l.rows, o) && k in l.rows
    ensures k in Displaces(p, l.rows, o) <==> k in DisplacedBy(p, l.rows, o)
  {
    hide Verdict, Historical, Matches;
    assert Matches(p, l.rows, o) <= l.rows.Keys by { MatchesInRows(p, l.rows, o); }
  }

  /** The rows after an observation: one new row, the displaced rows retired, all others as they were. */
  lemma ObservedRows(p: Policy, l: Ledger, o: Observation, k: Id)
    requires WillCommit(p, l.rows, o) && k in l.rows
    ensures var rows' := CommitObservation(p, l, o).rows;
            && rows'.Keys == l.rows.Keys + {o.id}
            && (k in DisplacedBy(p, l.rows, o) ==>
                  rows'[k] == Retired(l.rows[k], Successor(p, l.rows, o), o.now) && l.rows[k].status.Active?)
            && (k !in DisplacedBy(p, l.rows, o) ==> rows'[k] == l.rows[k])
  {
    hide CommitObservation, Displaces, Verdict, Matches, Historical, ObservedRow, Successor;
    CommitRows(p, l, o);
    DisplacesExactly(p, l, o, k);
    if k in DisplacedBy(p, l.rows, o) {
      MatchesAreActive(p, l.rows, o, k);
    }
  }

  lemma ObserveIs(p: Policy, l: Ledger, o: Observation)
    ensures if WillCommit(p, l.rows, o) then Observe(p, l, o).l == CommitObservation(p, l, o)
            else Observe(p, l, o).l.rows == l.rows
                 && (Observe(p, l, o).l == l || exists name :: Observe(p, l, o).l == Noted(l, name))
  {
    hide Verdict, CommitObservation;
  }

  // ---- one step keeps the account -------------------------------------------

  /** A row that left its slot for good. */
  predicate Spent(r: Record) {
    r.status.Superseded? || r.status.Tombstoned?
  }

  /** The log accounts for every row but those in `gone`, which are spent. */
  ghost predicate Audited(rows: Rows, log: seq<Event>, gone: set<Id>) {
    IntactBut(rows, log, gone) && forall k :: k in gone ==> k in rows && Spent(rows[k])
  }

  /** What the verifier sees of an audited ledger: it accepts exactly when no row in `gone` is protected. */
  lemma AuditedAccepts(rows: Rows, log: seq<Event>, gone: set<Id>)
    requires Audited(rows, log, gone)
    ensures Accepts(Summarize(log), rows) <==> forall k :: k in gone ==> k !in Protected(Summarize(log))
  {
    hide Summarize;
    var s := Summarize(log);
    forall k | k in gone && k in Protected(s)
      ensures IsFailure(s, rows, Altered(k))
    {
    }
    assert forall k :: !IsFailure(s, rows, Missing(k)) && !IsFailure(s, rows, Unlogged(k));
    assert forall k :: k !in gone ==> !IsFailure(s, rows, Altered(k));
    if k :| k in gone && k in Protected(s) {
      assert IsFailure(s, rows, Altered(k)) && s.commitments != map[];
    }
  }

  lemma CommitAudited(p: Policy, l: Ledger, o: Observation, gone: set<Id>)
    requires Audited(l.rows, l.log, gone) && WillCommit(p, l.rows, o)
    ensures Audited(CommitObservation(p, l, o).rows, CommitObservation(p, l, o).log, gone + DisplacedBy(p, l.rows, o))
  {
    hide CommitObservation, DisplacedBy, WillCommit, Summarize, Successor;
    ObservationSummary(p, l, o);
    var rows', gone' := CommitObservation(p, l, o).rows, gone + DisplacedBy(p, l.rows, o);
    CommitKeys(p, l, o);
    DisplacedInRows(p, l.rows, o);
    forall k | k in l.rows
      ensures k in DisplacedBy(p, l.rows, o) ==> Spent(rows'[k])
      ensures k !in DisplacedBy(p, l.rows, o) ==> rows'[k] == l.rows[k]
    {
      ObservedRows(p, l, o, k);
    }
  }

  lemma CommitKeys(p: Policy, l: Ledger, o: Observation)
    requires WillCommit(p, l.rows, o)
    ensures CommitObservation(p, l, o).rows.Keys == l.rows.Keys + {o.id} && o.id !in l.rows
  {
    hide CommitObservation, Verdict;
    CommitRows(p, l, o);
  }

  lemma DisplacedInRows(p: Policy, rows: Rows, o: Observation)
    ensures DisplacedBy(p, rows, o) <= rows.Keys
  {
    hide Matches, Verdict, Historical;
    MatchesInRows(p, rows, o);
  }

  lemma ObserveAudited(p: Policy, l: Ledger, o: Observation, gone: set<Id>)
    requires Audited(l.rows, l.log, gone)
    ensures Audited(Observe(p, l, o).l.rows, Observe(p, l, o).l.log, gone + DisplacedBy(p, l.rows, o))
  {
    hide Observe, IntactBut, Verdict, Matches, Historical, CommitObservation;
    ObserveIs(p, l, o);
    if WillCommit(p, l.rows, o) {
      CommitAudited(p, l, o, gone);
    } else {
      assert gone + DisplacedBy(p, l.rows, o) == gone;
      if name :| Observe(p, l, o).l == Noted(l, name) {
        Lifecycle.Note(l, name, gone);
      }
    }
  }

  /** The verifier accepts the store after an observation exactly when the observation displaces no protected
      row, which the caller can tell before the call: the displaced rows are logged under a key the verifier
      does not read. */
  lemma ObservationVerifiesExactly(p: Policy, l: Ledger, o: Observation)
    requires Intact(l.rows, l.log)
    ensures var l' := Observe(p, l, o).l;
            Accepts(Summarize(l'.log), l'.rows)
            <==> forall k :: k in DisplacedBy(p, l.rows, o) ==> !Stands(l.log, k)
  {
    hide Observe, DisplacedBy, Summarize, Accepts, Stands;
    ObserveAudited(p, l, o, {});
    var l' := Observe(p, l, o).l;
    AuditedAccepts(l'.rows, l'.log, {} + DisplacedBy(p, l.rows, o));
    SameProtected(p, l, o);
    StandingAre(l.log);
  }

  lemma SameProtected(p: Policy, l: Ledger, o: Observation)
    ensures Protected(Summarize(Observe(p, l, o).l.log)) == Protected(Summarize(l.log))
  {
    hide Observe, WillCommit, Summarize, CommitObservation;
    ObserveIs(p, l, o);
    if WillCommit(p, l.rows, o) {
      ObservationSummary(p, l, o);
    } else if name :| Observe(p, l, o).l == Noted(l, name) {
      SummarizeSnoc(l.log, Event(EventKind.Note(name)));
      assert ChangedBy(Event(EventKind.Note(name))) == {};
    }
  }

  // ---- mixed runs -----------------------------------------------------------

  datatype Step = Life(op: Op) | Seen(observation: Observation)

  function Take(p: Policy, l: Ledger, step: Step): Ledger {
    match step
    case Life(op) => Operations.Step(p, l, op)
    case Seen(o) => Observe(p, l, o).l
  }

  function Mixed(p: Policy, steps: seq<Step>): Ledger {
    if steps == [] then EMPTY else Take(p, Mixed(p, steps[..|steps| - 1]), steps[|steps| - 1])
  }

  /** Every row that some observation of the run displaced. */
  function DisplacedIn(p: Policy, steps: seq<Step>): set<Id> {
    if steps == [] then {}
    else
      var init, last := steps[..|steps| - 1], steps[|steps| - 1];
      DisplacedIn(p, init) + if last.Seen? then DisplacedBy(p, Mixed(p, init).rows, last.observation) else {}
  }

  lemma ObserveRowsOk(p: Policy, l: Ledger, o: Observation)
    requires forall k :: k in l.rows ==> RowOk(l.rows[k])
    ensures forall k :: k in Observe(p, l, o).l.rows ==> RowOk(Observe(p, l, o).l.rows[k])
  {
    hide Observe, CommitObservation, WillCommit, DisplacedBy, ObservedRow;
    ObserveIs(p, l, o);
    if WillCommit(p, l.rows, o) {
      CommitKeys(p, l, o);
      NewRowOk(p, l, o);
      var rows' := CommitObservation(p, l, o).rows;
      forall k | k in rows'
        ensures RowOk(rows'[k])
      {
        if k in l.rows {
          ObservedRows(p, l, o, k);
        }
      }
    }
  }

  lemma NewRowOk(p: Policy, l: Ledger, o: Observation)
    requires o.id !in l.rows
    ensures o.id in CommitObservation(p, l, o).rows && RowOk(CommitObservation(p, l, o).rows[o.id])
  {
    CommitRows(p, l, o);
    hide CommitObservation, Matches, Historical, Displaces, Successor, Tainted, TargetLabels;
    assert RowOk(ObservedRow(p, l.rows, o));
  }

  /** A lifecycle step keeps the account, and spent rows stay spent. */
  lemma LifeAudited(p: Policy, l: Ledger, op: Op, gone: set<Id>)
    requires Accounted(l, gone) && forall k :: k in gone ==> k in l.rows && Spent(l.rows[k])
    ensures var l' := Operations.Step(p, l, op);
            Accounted(l', gone) && forall k :: k in gone ==> k in l'.rows && Spent(l'.rows[k])
  {
    if Apply(p, l, op).Ok? {
      hide Accounted;
      ApplySound(p, l, op, Apply(p, l, op).value, gone);
    }
  }

  lemma {:induction false} MixedAudited(p: Policy, steps: seq<Step>)
    ensures Accounted(Mixed(p, steps), DisplacedIn(p, steps))
    ensures Audited(Mixed(p, steps).rows, Mixed(p, steps).log, DisplacedIn(p, steps))
    decreases |steps|
  {
    hide IntactBut, Observe, Operations.Step, DisplacedBy, RowOk;
    if steps == [] {
      NothingDisplaced();
    } else {
      var init, last := steps[..|steps| - 1], steps[|steps| - 1];
      MixedAudited(p, init);
      match last
      case Life(op) =>
        assert DisplacedIn(p, steps) == DisplacedIn(p, init);
        LifeAudited(p, Mixed(p, init), op, DisplacedIn(p, init));
      case Seen(o) =>
        ObserveAudited(p, Mixed(p, init), o, DisplacedIn(p, init));
        ObserveRowsOk(p, Mixed(p, init), o);
    }
  }

  lemma NothingDisplaced()
    ensures Accounted(EMPTY, {})
  {
  }

  /** After any mixed run, the verifier accepts exactly when every row that an observation displaced is either
      not committed or listed as changed by some event, before or after its displacement. */
  lemma MixedRunsVerifyExactly(p: Policy, steps: seq<Step>)
    ensures var l := Mixed(p, steps);
            Accepts(Summarize(l.log), l.rows)
            <==> forall k :: k in DisplacedIn(p, steps) ==> !Stands(l.log, k)
  {
    hide Mixed, DisplacedIn, Summarize, Accepts, Stands, Accounted, Audited;
    var l := Mixed(p, steps);
    MixedAudited(p, steps);
    AuditedAccepts(l.rows, l.log, DisplacedIn(p, steps));
    StandingAre(l.log);
  }

  /** Forgetting a live row lists it as changed: afterwards the verifier accepts exactly when no other displaced
      row of the run is protected. */
  lemma ForgettingRepairs(p: Policy, steps: seq<Step>, k: Id, now: int)
    requires Live(Mixed(p, steps).rows, k)
    ensures var l := Mixed(p, steps + [Life(OpForgetRecord(k, now))]);
            Accepts(Summarize(l.log), l.rows)
            <==> forall j :: j in DisplacedIn(p, steps) && Stands(Mixed(p, steps).log, j) ==> j == k
  {
    hide Accepts, Summarize, DisplacedIn, Mixed, Stands, Protected, Live;
    var last := Life(OpForgetRecord(k, now));
    ForgetSummary(p, steps, k, now);
    SameDisplaced(p, steps, last);
    MixedRunsVerifyExactly(p, steps + [last]);
    StandingAre(Mixed(p, steps).log);
    StandingAre(Mixed(p, steps + [last]).log);
  }

  lemma StandingAre(log: seq<Event>)
    ensures forall k :: k in Protected(Summarize(log)) <==> Stands(log, k)
  {
    hide Summarize, Stands, Protected;
    forall k { SummaryExactly(log, k); }
  }

  lemma ForgetSummary(p: Policy, steps: seq<Step>, k: Id, now: int)
    requires Live(Mixed(p, steps).rows, k)
    ensures Protected(Summarize(Mixed(p, steps + [Life(OpForgetRecord(k, now))]).log))
            == Protected(Summarize(Mixed(p, steps).log)) - {k}
  {
    hide Summarize, KnownBy, ChangedBy, Mixed;
    var last := Life(OpForgetRecord(k, now));
    var l := Mixed(p, steps);
    MixedSnoc(p, steps, last);
    ForgetLog(p, l, k, now);
    var purged := PurgedIds(l.rows, [k]);
    SummarizeSnoc(l.log, Event(EventKind.Note("memory.forget"), Some(k), Payload(purged := purged)));
    PurgeReads(k, purged);
  }

  lemma MixedSnoc(p: Policy, steps: seq<Step>, last: Step)
    ensures Mixed(p, steps + [last]) == Take(p, Mixed(p, steps), last)
  {
    assert (steps + [last])[..|steps|] == steps;
  }

  lemma ForgetLog(p: Policy, l: Ledger, k: Id, now: int)
    requires Live(l.rows, k)
    ensures Take(p, l, Life(OpForgetRecord(k, now))).log
         == l.log + [Event(EventKind.Note("memory.forget"), Some(k), Payload(purged := PurgedIds(l.rows, [k])))]
  {
    hide PurgeRows, PurgedIds;
  }

  lemma PurgeReads(k: Id, purged: seq<Id>)
    requires forall x :: x in purged <==> x == k
    ensures var e := Event(EventKind.Note("memory.forget"), Some(k), Payload(purged := purged));
            ChangedBy(e) == {k} && !IsCreation(e)
  {
  }

  lemma SameDisplaced(p: Policy, steps: seq<Step>, last: Step)
    requires last.Life?
    ensures DisplacedIn(p, steps + [last]) == DisplacedIn(p, steps)
  {
    assert (steps + [last])[..|steps|] == steps;
  }

  function OsloFact(pr: Provenance): Candidate {
    Candidate(1, 0, "I live in Oslo", TrustedUser, Some("city"), pr)
  }

  function BergenSeen(pr: Provenance): Observation {
    Observation(2, 5, Scope("s", "a", "w"), Unit(AtomicFact, OfSubject("user"), "city", Some(5), 7, Active),
                Some("city"), "User lives in Bergen", true, TrustedUser, true, false, false, {}, pr)
  }

  /** A run the verifier rejects: a keyed fact is remembered, then a trusted observation about the user
      replaces it. */
  lemma ExtractionCanFailVerification(p: Policy, pr: Provenance)
    requires p.lower("user") == "user"
    ensures var l := Run(p, EMPTY, [OpRemember(Extracted([OsloFact(pr)], false))]);
            var seen := Observe(p, l, BergenSeen(pr));
            seen.state == Committed && !Accepts(Summarize(seen.l.log), seen.l.rows)
  {
    hide Run, Observe, Summarize, Accepts, Sound, OsloFact, BergenSeen;
    var l := Run(p, EMPTY, [OpRemember(Extracted([OsloFact(pr)], false))]);
    RunSound(p, [OpRemember(Extracted([OsloFact(pr)], false))]);
    BergenFollowsOslo(p, pr);
    RememberedFact(p, OsloFact(pr), l);
    Breaks(p, l, BergenSeen(pr));
  }

  lemma BergenFollowsOslo(p: Policy, pr: Provenance)
    requires p.lower("user") == "user"
    ensures var fact, o := OsloFact(pr), BergenSeen(pr);
            && fact.tier.TrustedUser? && fact.id == 1 && fact.factKey == o.factKey
            && Admissible(o) && o.unit.kind.AtomicFact? && o.unit.holder.OfSubject? && SelfReferring(p, o)
            && o.id != 1 && 1 !in o.excluded
  {
  }

  /** Displacing the one remembered, protected row breaks verification. */
  lemma Breaks(p: Policy, l: Ledger, o: Observation)
    requires Sound(l) && Admissible(o) && o.unit.kind.AtomicFact? && o.unit.holder.OfSubject? && SelfReferring(p, o)
    requires l.rows.Keys == {1} && o.id != 1 && 1 !in o.excluded
    requires l.rows[1].status.Active? && l.rows[1].raw == NO_RAW && l.rows[1].factKey == o.factKey
    requires 1 in Protected(Summarize(l.log))
    ensures Observe(p, l, o).state == Committed && !Accepts(Summarize(Observe(p, l, o).l.log), Observe(p, l, o).l.rows)
  {
    hide Matches, Historical, Summarize, Accepts;
    OneMatch(p, l, o);
    hide Observe;
    ObservationVerifiesExactly(p, l, o);
    SummaryExactly(l.log, 1);
    assert 1 in DisplacedBy(p, l.rows, o);
  }

  lemma RememberedFact(p: Policy, fact: Candidate, l: Ledger)
    requires fact.tier.TrustedUser? && l == Run(p, EMPTY, [OpRemember(Extracted([fact], false))])
    ensures l.rows == map[fact.id := FreshRow(fact, [])] && fact.id in Protected(Summarize(l.log))
  {
    var op := OpRemember(Extracted([fact], false));
    var l1 := Noted(EMPTY, "episode.ingested");
    assert [op][..0] == [] && [fact][1..] == [];
    assert Run(p, EMPTY, []) == EMPTY;
    assert ActiveWithKey(l1.rows, fact.factKey) == {};
    assert Displaced(l1.rows, fact) == [];
    var row := FreshRow(fact, []);
    assert Stored(l1.rows, fact) == map[fact.id := row];
    assert Duplicates(p, l1.rows, fact.content, {Active}) == {};
    var l2 := RememberOne(p, l1, fact).value;
    assert RememberAll(p, l1, [fact]) == RememberAll(p, l2, []);
    assert l == Operations.Step(p, EMPTY, op) == l2;
    var e := CreationEvent(fact.id, row, []);
    assert l.log == l1.log + [e];
    SummarizeSnoc(l1.log, e);
    SummarizeSnoc([], Event(EventKind.Note("episode.ingested")));
  }

  lemma OneMatch(p: Policy, l: Ledger, o: Observation)
    requires Admissible(o) && o.unit.kind.AtomicFact? && o.unit.holder.OfSubject? && SelfReferring(p, o)
    requires l.rows.Keys == {1} && o.id != 1 && 1 !in o.excluded
    requires l.rows[1].status.Active? && l.rows[1].raw == NO_RAW && l.rows[1].factKey == o.factKey
    ensures Matches(p, l.rows, o) == {1} && !Historical(p, l.rows, o) && WillCommit(p, l.rows, o)
    ensures Observe(p, l, o).state == Committed
  {
    assert !LiveIdentity(l.rows, o) && IsMatch(p, l.rows, o, 1);
    assert Matches(p, l.rows, o) == {1};
  }
}
