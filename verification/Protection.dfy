/** Which rows the integrity verifier protects in a run, said without the log: those that an announcing
    operation inserted and nothing has changed since. */
module Protection {
  import opened Wrappers
  import opened Records
  import opened AuditLog
  import opened Operations
  import opened Lifecycle
  import opened Consolidation
  import opened Runs
  import opened Generations

  // ---- what a step adds to the summary --------------------------------------

  /** The operations that announce the rows they insert; a submitted proposal is admitted without commitment. */
  predicate Announces(op: Op) {
    op.OpRemember? || op.OpPropose? || op.OpCorrect?
  }

  /** Exactly the new rows get commitments, with the status they were inserted with, and every row newly
      reported as changed is superseded. */
  ghost predicate Announced(l: Ledger, l': Ledger) {
    var s, s' := Summarize(l.log), Summarize(l'.log);
    && Plain(l.rows, l'.rows)
    && s'.commitments.Keys == s.commitments.Keys + (l'.rows.Keys - l.rows.Keys)
    && (forall k :: k in s.commitments ==> s'.commitments[k] == s.commitments[k])
    && (forall k :: k in l'.rows && k !in l.rows ==>
                      l'.rows[k].status.Superseded? || s'.commitments[k].status == l'.rows[k].status)
    && s.changed <= s'.changed
    && (forall k :: k in s'.changed && k !in s.changed ==> k in l'.rows && l'.rows[k].status.Superseded?)
  }

  /** A row that was retired, purged or taken out of quarantine. */
  predicate Moved(rows: Rows, rows': Rows, k: Id) {
    && k in rows && k in rows'
    && (rows'[k].status.Superseded? || rows'[k].status.Tombstoned?
        || (rows[k].status.Quarantined? && rows'[k].status.Active?))
  }

  /** No row gets a commitment, and every row newly reported as changed has moved. */
  ghost predicate Reported(l: Ledger, l': Ledger) {
    var s, s' := Summarize(l.log), Summarize(l'.log);
    && s'.commitments == s.commitments
    && s.changed <= s'.changed
    && (forall k :: k in s'.changed && k !in s.changed ==> Moved(l.rows, l'.rows, k))
  }

  lemma AnnouncedReflexive(l: Ledger)
    ensures Announced(l, l)
  {
  }

  lemma AnnouncedTransitive(a: Ledger, b: Ledger, c: Ledger)
    requires Announced(a, b) && Announced(b, c) && Summarize(a.log).commitments.Keys <= a.rows.Keys
    ensures Announced(a, c)
  {
    hide Summarize, Plain;
    PlainTransitive(a.rows, b.rows, c.rows);
    PlainStatuses(a.rows, b.rows);
    PlainStatuses(b.rows, c.rows);
  }

  lemma PlainStatuses(rows: Rows, rows': Rows)
    requires Plain(rows, rows')
    ensures rows.Keys <= rows'.Keys
    ensures forall k :: k in rows ==> rows'[k].status == rows[k].status || rows'[k].status.Superseded?
  {
  }

  lemma AnnouncedNote(l: Ledger, e: Event)
    requires e.kind.Note? && e.payload == Payload()
    ensures Announced(l, Logged(l, e))
  {
    SummarizeSnoc(l.log, e);
  }

  lemma AnnouncedRow(l: Ledger, l': Ledger, id: Id, row: Record, older: seq<Id>)
    requires id !in l.rows && Plain(l.rows, l'.rows) && l'.rows.Keys == l.rows.Keys + {id} && l'.rows[id] == row
    requires l'.log == l.log + [CreationEvent(id, row, older)]
    requires Summarize(l.log).commitments.Keys <= l.rows.Keys
    requires forall k :: k in older ==> k in l'.rows && l'.rows[k].status.Superseded?
    ensures Announced(l, l')
  {
    hide Plain, Summarize;
    SummarizeSnoc(l.log, CreationEvent(id, row, older));
    CreationReads(id, row, older);
  }

  /** The rows of the log's commitments exist. */
  ghost predicate Based(l: Ledger) {
    Summarize(l.log).commitments.Keys <= l.rows.Keys
  }

  lemma AnnouncedBased(l: Ledger, l': Ledger)
    requires Announced(l, l') && Based(l)
    ensures Based(l')
  {
    hide Summarize;
  }

  lemma RememberOneAnnounces(p: Policy, l: Ledger, c: Candidate, l': Ledger)
    requires RememberOne(p, l, c) == Ok(l') && Based(l)
    ensures Announced(l, l')
  {
    hide Announced, Stored, Displaced, Summarize, Plain;
    var duplicate := FindDuplicate(p, l.rows, c.content,
                                   if InitialStatus(c.tier).Active? then {Active} else {Active, Quarantined});
    if duplicate.Some? {
      AnnouncedNote(l, Event(EventKind.Note("memory.duplicate_ignored"), duplicate));
    } else {
      StoredShape(l.rows, c);
      AnnouncedRow(l, l', c.id, FreshRow(c, Displaced(l.rows, c)), Displaced(l.rows, c));
    }
  }

  lemma {:induction false} RememberAllAnnounces(p: Policy, l: Ledger, cs: seq<Candidate>)
    requires RememberAll(p, l, cs).Ok? && Based(l)
    ensures Announced(l, RememberAll(p, l, cs).value)
    decreases |cs|
  {
    hide Announced, Based, RememberOne;
    AnnouncedReflexive(l);
    if cs != [] {
      var l1 := RememberOne(p, l, cs[0]).value;
      RememberOneAnnounces(p, l, cs[0], l1);
      AnnouncedBased(l, l1);
      RememberAllAnnounces(p, l1, cs[1..]);
      Compose(l, l1, RememberAll(p, l, cs).value);
    }
  }

  lemma Compose(a: Ledger, b: Ledger, c: Ledger)
    requires Announced(a, b) && Announced(b, c) && Based(a)
    ensures Announced(a, c)
  {
    AnnouncedTransitive(a, b, c);
  }

  /** A note first, then something that announces its rows. */
  lemma Noting(l: Ledger, name: string)
    requires Based(l)
    ensures Announced(l, Noted(l, name)) && Based(Noted(l, name))
  {
    hide Announced, Based;
    AnnouncedNote(l, Event(EventKind.Note(name)));
    AnnouncedBased(l, Noted(l, name));
  }

  lemma RememberAnnounces(p: Policy, l: Ledger, intake: Intake)
    requires Remember(p, l, intake).Ok? && Based(l)
    ensures Announced(l, Remember(p, l, intake).value)
  {
    hide Announced, Based, RememberAll, FindDuplicate;
    var l' := Remember(p, l, intake).value;
    match intake
    case Refused =>
      Noting(l, "memory.content_refused");
    case Interpreted(c) =>
      var duplicate := FindDuplicate(p, l.rows, c.content, {Active});
      if duplicate.Some? {
        AnnouncedNote(l, Event(EventKind.Note("memory.semantic_interpretation_duplicate"), duplicate));
      } else {
        var l1 := Noted(l, "episode.ingested");
        Noting(l, "episode.ingested");
        Noting(l1, "memory.semantic_interpretation_received");
        var l2 := Noted(l1, "memory.semantic_interpretation_received");
        RememberAllAnnounces(p, l2, [c]);
        Compose(l1, l2, l');
        Compose(l, l1, l');
      }
    case Extracted(cs, untrusted) =>
      var l1 := Noted(l, "episode.ingested");
      Noting(l, "episode.ingested");
      if cs == [] && untrusted {
        Noting(l1, "memory.untrusted_source_ignored");
      } else {
        RememberAllAnnounces(p, l1, cs);
      }
      Compose(l, l1, l');
  }

  lemma ProposeOneAnnounces(p: Policy, l: Ledger, d: Draft, sources: set<Id>)
    requires ProposeOne(p, l, d, sources).Ok? && Based(l)
    ensures Announced(l, ProposeOne(p, l, d, sources).value)
  {
    hide Announced, Summarize, FindDuplicate;
    var l' := ProposeOne(p, l, d, sources).value;
    AnnouncedReflexive(l);
    if l' != l {
      AnnouncedRow(l, l', d.id, DraftRow(d), []);
    }
  }

  lemma {:induction false} ProposeAllAnnounces(p: Policy, l: Ledger, ds: seq<Draft>, sources: set<Id>)
    requires ProposeAll(p, l, ds, sources).Ok? && Based(l)
    ensures Announced(l, ProposeAll(p, l, ds, sources).value)
    decreases |ds|
  {
    hide Announced, Based, ProposeOne;
    AnnouncedReflexive(l);
    if ds != [] {
      var l1 := ProposeOne(p, l, ds[0], sources).value;
      ProposeOneAnnounces(p, l, ds[0], sources);
      AnnouncedBased(l, l1);
      ProposeAllAnnounces(p, l1, ds[1..], sources);
      Compose(l, l1, ProposeAll(p, l, ds, sources).value);
    }
  }

  /** The corrected row is superseded and reported, be it displaced by its replacement already. */
  lemma ReplaceAnnounces(l: Ledger, id: Id, newId: Id, now: int)
    requires IsActive(l.rows, id) || (id in l.rows && l.rows[id].status.Superseded?)
    ensures Announced(l, Logged(Supersede(l, [id], newId, now),
                                Event(RecordCorrected, Some(newId), Payload(replaced := Some(id)))))
  {
    hide Summarize;
    var e := Event(RecordCorrected, Some(newId), Payload(replaced := Some(id)));
    SummarizeSnoc(l.log, e);
    assert ChangedBy(e) == {id};
    SupersedeShape(l.rows, [id], newId, now);
  }

  lemma CorrectAnnounces(p: Policy, l: Ledger, id: Id, text: string, newId: Id, now: int, pr: Provenance, l': Ledger)
    requires Correct(p, l, id, text, false, newId, now, pr) == Ok(l') && Based(l)
    ensures Announced(l, l')
  {
    hide Based, Remember;
    var intake := Interpreted(Correction(p, l, id, text, newId, now, pr));
    var l1 := Remember(p, l, intake).value;
    RememberAnnounces(p, l, intake);
    ReplaceAnnounces(l1, id, newId, now);
    hide Announced;
    Compose(l, l1, l');
  }

  // ---- the other operations report what they move ---------------------------

  /** One event that announces nothing and reports rows that moved. */
  lemma OneReport(l: Ledger, l': Ledger, e: Event)
    requires l'.log == l.log + [e] && !IsCreation(e)
    requires forall k :: k in ChangedBy(e) ==> Moved(l.rows, l'.rows, k)
    ensures Reported(l, l')
  {
    SummarizeSnoc(l.log, e);
  }

  lemma PurgeReports(l: Ledger, ids: seq<Id>, now: int, e: Event)
    requires !IsCreation(e) && forall k :: k in ChangedBy(e) ==> k in ids && Live(l.rows, k)
    ensures Reported(l, Logged(Purge(l, ids, now), e))
  {
    hide IsCreation, ChangedBy;
    OneReport(l, Logged(Purge(l, ids, now), e), e);
  }

  lemma SubmitReports(p: Policy, l: Ledger, q: Proposal, l': Ledger)
    requires SubmitProposal(p, l, q) == Ok(l')
    ensures Reported(l, l')
  {
    hide SubmitProposal, ProposalRow, RelatedInScope, Summarize;
    SubmitCases(p, l, q, l');
    if l' != l {
      var e := l'.log[|l.log|];
      assert l'.log == l.log + [e] && !IsCreation(e) && ChangedBy(e) == {};
      OneReport(l, l', e);
    }
  }

  lemma PromoteReports(l: Ledger, id: Id, now: int, l': Ledger)
    requires Promote(l, id, now) == Ok(l')
    ensures Reported(l, l')
  {
    hide Promote, Rivals, Summarize, ChangedBy;
    PromoteShape(l, id, now, l');
    PromoteCounts(l, id, now, l');
    PromotionReads(id, Rivals(l, id, now));
    RivalsAreOthers(l, id, now);
    OneReport(l, l', Event(RecordPromoted, Some(id), Payload(supersedes := Rivals(l, id, now))));
  }

  lemma RivalsAreOthers(l: Ledger, id: Id, now: int)
    requires id in l.rows
    ensures forall k :: k in Rivals(l, id, now) ==> k in l.rows && k != id
  {
  }

  lemma ConsolidateReports(p: Policy, l: Ledger, now: int, l': Ledger)
    requires Consolidate(p, l, now) == Ok(l')
    ensures Reported(l, l')
  {
    hide Consolidate, TraceOf, TwoPasses, Plain, ChangedBy, Summarize;
    ConsolidateTrace(p, l, now);
    var t := TraceOf(p, l, now);
    TraceRows(p, l, now);
    Shape(p, t, now);
    FinishedReads(t);
    OneReport(l, l', Finished(t));
  }

  lemma TraceRows(p: Policy, l: Ledger, now: int)
    ensures TraceOf(p, l, now).rows == l.rows
  {
  }

  // ---- one step -------------------------------------------------------------

  ghost predicate LogsStep(l: Ledger, l': Ledger, op: Op) {
    if Announces(op) then Announced(l, l') else Reported(l, l')
  }

  lemma ApplyLogs(p: Policy, l: Ledger, op: Op, l': Ledger)
    requires Apply(p, l, op) == Ok(l') && Based(l)
    ensures LogsStep(l, l', op)
  {
    hide Announced, Reported, Remember, ProposeAll, SubmitProposal, Promote, Consolidate, Based, ChangedBy, Purge;
    match op
    case OpRemember(intake) => RememberAnnounces(p, l, intake);
    case OpPropose(ds, episodes) => ProposeAllAnnounces(p, l, ds, episodes + l.rows.Keys);
    case OpSubmit(q) => SubmitReports(p, l, q, l');
    case OpPromote(id, now) => PromoteReports(l, id, now, l');
    case OpReject(id, now) => RejectReports(l, id, now, l');
    case OpCorrect(id, text, refused, newId, now, pr) => CorrectAnnounces(p, l, id, text, newId, now, pr, l');
    case OpConsolidate(now) => ConsolidateReports(p, l, now, l');
    case OpForget(needle, now) => ForgetReports(p, l, needle, now, l');
    case OpForgetRecord(id, now) => ForgetRecordReports(l, id, now, l');
  }

  lemma PurgeEventReads(kind: EventKind, id: Option<Id>, purged: seq<Id>)
    requires kind.Note? || (kind.RecordRejected? && id.Some? && id.value in purged)
    ensures var e := Event(kind, id, Payload(purged := purged));
            ChangedBy(e) == Members(purged) && !IsCreation(e)
  {
  }

  lemma RejectReports(l: Ledger, id: Id, now: int, l': Ledger)
    requires Reject(l, id, now) == Ok(l')
    ensures Reported(l, l')
  {
    hide Reported, ChangedBy, IsCreation, Purge;
    var purged := PurgedIds(l.rows, [id]);
    PurgeEventReads(RecordRejected, Some(id), purged);
    PurgeReports(l, [id], now, Event(RecordRejected, Some(id), Payload(purged := purged)));
  }

  lemma ForgetRecordReports(l: Ledger, id: Id, now: int, l': Ledger)
    requires ForgetRecord(l, id, now) == Ok(l')
    ensures Reported(l, l')
  {
    hide Reported, ChangedBy, IsCreation, Purge;
    var purged := PurgedIds(l.rows, [id]);
    PurgeEventReads(EventKind.Note("memory.forget"), Some(id), purged);
    PurgeReports(l, [id], now, Event(EventKind.Note("memory.forget"), Some(id), Payload(purged := purged)));
  }

  lemma ForgetReports(p: Policy, l: Ledger, needle: string, now: int, l': Ledger)
    requires Forget(p, l, needle, now) == Ok(l')
    ensures Reported(l, l')
  {
    hide Reported, ChangedBy, IsCreation, Purge;
    if needle == "" {
      var e := Event(EventKind.Note("memory.forget_rejected"));
      PurgeEventReads(e.kind, None, []);
      OneReport(l, l', e);
    } else {
      var ids := Listing(l.rows, Matching(p, l.rows, needle));
      var purged := PurgedIds(l.rows, ids);
      PurgeEventReads(EventKind.Note("memory.forget"), None, purged);
      PurgeReports(l, ids, now, Event(EventKind.Note("memory.forget"), None, Payload(purged := purged)));
    }
  }

  // ---- runs -----------------------------------------------------------------

  /** Rows reported as changed exist, and have moved past the status they were committed with. */
  ghost predicate Honest(l: Ledger) {
    var s := Summarize(l.log);
    && s.changed <= l.rows.Keys
    && forall k :: k in s.changed && k in s.commitments ==> Stage(s.commitments[k].status) < Stage(l.rows[k].status)
  }

  lemma StepHonest(p: Policy, l: Ledger, op: Op)
    requires Sound(l) && Honest(l)
    ensures Honest(Step(p, l, op)) && LogsStep(l, Step(p, l, op), op)
  {
    hide Step, Apply, Sound, LogsStep, Honest, Tracks;
    StepSound(p, l, op);
    StepTracks(p, l, op);
    StepLogs(p, l, op);
    HonestAfter(l, Step(p, l, op), op);
  }

  lemma StepLogs(p: Policy, l: Ledger, op: Op)
    requires Sound(l)
    ensures LogsStep(l, Step(p, l, op), op)
  {
    hide Apply, Announced, Reported, Sound;
    assert Based(l) by { SoundIsBased(l); }
    if Apply(p, l, op).Ok? {
      ApplyLogs(p, l, op, Apply(p, l, op).value);
    } else {
      AnnouncedReflexive(l);
      NothingReported(l);
    }
  }

  lemma NothingReported(l: Ledger)
    ensures Reported(l, l)
  {
  }

  lemma SoundIsBased(l: Ledger)
    requires Sound(l)
    ensures Based(l)
  {
  }

  /** What soundness says about one committed row. */
  lemma SoundCommits(l: Ledger, k: Id)
    requires Sound(l) && k in Summarize(l.log).commitments
    ensures k in l.rows && Insertable(Summarize(l.log).commitments[k].status)
    ensures k !in Summarize(l.log).changed ==> Summarize(l.log).commitments[k] == Commit(k, l.rows[k])
  {
  }

  lemma HonestAfter(l: Ledger, l': Ledger, op: Op)
    requires Sound(l) && Sound(l') && Honest(l) && Tracks(l, l') && LogsStep(l, l', op)
    ensures Honest(l')
  {
    hide Sound, Summarize, Plain;
    var s, s' := Summarize(l.log), Summarize(l'.log);
    forall k | k in s'.changed && k in s'.commitments
      ensures Stage(s'.commitments[k].status) < Stage(l'.rows[k].status)
    {
      SoundCommits(l', k);
      if k in s.commitments {
        SoundCommits(l, k);
      }
    }
  }

  lemma {:induction false} RunHonest(p: Policy, ops: seq<Op>)
    ensures Honest(Run(p, EMPTY, ops))
    decreases |ops|
  {
    hide Step, Sound, LogsStep;
    if ops != [] {
      var init := ops[..|ops| - 1];
      RunHonest(p, init);
      RunSound(p, init);
      hide Honest;
      StepHonest(p, Run(p, EMPTY, init), ops[|ops| - 1]);
    }
  }

  lemma {:induction false} RunForward(p: Policy, ops: seq<Op>, i: nat)
    requires i <= |ops|
    ensures Tracks(Run(p, EMPTY, ops[..i]), Run(p, EMPTY, ops))
    decreases |ops|
  {
    hide Step;
    if i == |ops| {
      assert ops[..i] == ops;
    } else {
      var init := ops[..|ops| - 1];
      assert init[..i] == ops[..i];
      RunForward(p, init, i);
      StepTracks(p, Run(p, EMPTY, init), ops[|ops| - 1]);
      hide Tracks;
      TracksTransitive(Run(p, EMPTY, ops[..i]), Run(p, EMPTY, init), Run(p, EMPTY, ops));
    }
  }

  /** Step `i` of the run inserted `k` and announced it. */
  ghost predicate InsertedAt(p: Policy, ops: seq<Op>, i: nat, k: Id) {
    i < |ops| && Announces(ops[i]) && k !in Run(p, EMPTY, ops[..i]).rows && k in Run(p, EMPTY, ops[..i + 1]).rows
  }

  /** The status `k` had after step `i`, unless the step retired it again. */
  ghost predicate CommittedAs(p: Policy, ops: seq<Op>, i: nat, k: Id, s: Status)
    requires InsertedAt(p, ops, i, k)
  {
    var was := Run(p, EMPTY, ops[..i + 1]).rows[k].status;
    was.Superseded? || was == s
  }

  lemma InsertedPrefix(p: Policy, ops: seq<Op>, n: nat, i: nat, k: Id)
    requires n <= |ops| && i < n
    ensures InsertedAt(p, ops[..n], i, k) <==> InsertedAt(p, ops, i, k)
    ensures ops[..n][..i + 1] == ops[..i + 1]
  {
    assert ops[..n][..i] == ops[..i] && ops[..n][..i + 1] == ops[..i + 1];
  }

  /** A row is committed exactly when some step inserted and announced it. */
  lemma {:induction false} CommittedExactly(p: Policy, ops: seq<Op>, k: Id)
    ensures k in Summarize(Run(p, EMPTY, ops).log).commitments <==> exists i: nat :: InsertedAt(p, ops, i, k)
    ensures forall i: nat :: InsertedAt(p, ops, i, k) ==>
                               k in Summarize(Run(p, EMPTY, ops).log).commitments
                               && CommittedAs(p, ops, i, k, Summarize(Run(p, EMPTY, ops).log).commitments[k].status)
    decreases |ops|
  {
    hide Summarize, Step, Announced, Reported, InsertedAt;
    if ops == [] {
      NothingCommitted(p, k);
    } else {
      var n := |ops| - 1;
      var init := ops[..n];
      CommittedExactly(p, init, k);
      CommittedStep(p, ops, k);
      forall i: nat | InsertedAt(p, ops, i, k)
        ensures k in Summarize(Run(p, EMPTY, ops).log).commitments
        ensures CommittedAs(p, ops, i, k, Summarize(Run(p, EMPTY, ops).log).commitments[k].status)
      {
        InRange(p, ops, i, k);
        if i < n {
          InsertedPrefix(p, ops, n, i, k);
        }
      }
      if i: nat :| InsertedAt(p, init, i, k) {
        InRange(p, init, i, k);
        InsertedPrefix(p, ops, n, i, k);
      }
    }
  }

  lemma InRange(p: Policy, ops: seq<Op>, i: nat, k: Id)
    requires InsertedAt(p, ops, i, k)
    ensures i < |ops|
  {
  }

  lemma NothingCommitted(p: Policy, k: Id)
    ensures k !in Summarize(Run(p, EMPTY, []).log).commitments
    ensures forall i: nat :: !InsertedAt(p, [], i, k)
  {
  }

  lemma CommittedStep(p: Policy, ops: seq<Op>, k: Id)
    requires ops != []
    ensures var n := |ops| - 1;
            var s, s' := Summarize(Run(p, EMPTY, ops[..n]).log), Summarize(Run(p, EMPTY, ops).log);
            && (k in s'.commitments <==> k in s.commitments || InsertedAt(p, ops, n, k))
            && (k in s.commitments ==> s'.commitments[k] == s.commitments[k])
            && (InsertedAt(p, ops, n, k) ==> CommittedAs(p, ops, n, k, s'.commitments[k].status))
  {
    hide Summarize, Step, Sound, Plain;
    var n := |ops| - 1;
    assert ops[..n + 1] == ops;
    RunSound(p, ops[..n]);
    StepLogs(p, Run(p, EMPTY, ops[..n]), ops[n]);
    var l, l' := Run(p, EMPTY, ops[..n]), Run(p, EMPTY, ops);
    assert LogsStep(l, l', ops[n]);
    SoundIsBased(l);
  }

  /** Step `i` inserted the row as active or quarantined, and it is what it was then. */
  ghost predicate UntouchedSince(p: Policy, ops: seq<Op>, i: nat, k: Id) {
    && InsertedAt(p, ops, i, k) && k in Run(p, EMPTY, ops).rows
    && Insertable(Run(p, EMPTY, ops).rows[k].status)
    && Run(p, EMPTY, ops).rows[k] == Run(p, EMPTY, ops[..i + 1]).rows[k]
  }

  ghost predicate Untouched(p: Policy, ops: seq<Op>, k: Id) {
    exists i: nat :: UntouchedSince(p, ops, i, k)
  }

  lemma ProtectedSince(p: Policy, ops: seq<Op>, i: nat, k: Id)
    requires InsertedAt(p, ops, i, k)
    ensures k in Protected(Summarize(Run(p, EMPTY, ops).log)) <==> UntouchedSince(p, ops, i, k)
  {
    hide Summarize, Run, Sound, Tracks;
    var l, was := Run(p, EMPTY, ops), Run(p, EMPTY, ops[..i + 1]);
    RunSound(p, ops);
    RunHonest(p, ops);
    CommittedExactly(p, ops, k);
    SoundCommits(l, k);
    RunForward(p, ops, i + 1);
    assert Stage(was.rows[k].status) <= Stage(l.rows[k].status) by { MovesForward(was, l, k); }
    if l.rows[k].status == was.rows[k].status {
      MovesForward(was, l, k);
    }
  }

  lemma MovesForward(l: Ledger, l': Ledger, k: Id)
    requires Tracks(l, l') && k in l.rows
    ensures k in l'.rows && Stage(l.rows[k].status) <= Stage(l'.rows[k].status)
    ensures l'.rows[k].status == l.rows[k].status ==> l'.rows[k] == l.rows[k]
  {
  }

  /** In every run, the verifier protects exactly the rows that `remember`, `propose_facts` or `correct_record`
      inserted and that no operation has promoted, rejected, purged, superseded or corrected since. */
  lemma ProtectedExactly(p: Policy, ops: seq<Op>, k: Id)
    ensures k in Protected(Summarize(Run(p, EMPTY, ops).log)) <==> Untouched(p, ops, k)
  {
    hide Summarize, Run, InsertedAt, UntouchedSince;
    CommittedExactly(p, ops, k);
    if i: nat :| InsertedAt(p, ops, i, k) {
      ProtectedSince(p, ops, i, k);
    }
    if i: nat :| UntouchedSince(p, ops, i, k) {
      WasInserted(p, ops, i, k);
      ProtectedSince(p, ops, i, k);
    }
  }

  lemma WasInserted(p: Policy, ops: seq<Op>, i: nat, k: Id)
    requires UntouchedSince(p, ops, i, k)
    ensures InsertedAt(p, ops, i, k)
  {
  }

  // ---- tampering ------------------------------------------------------------

  /** Exactly what the verifier can see: with the log of any run, it accepts a table of rows if and only if no
      step of the run announced a row, or no untouched row was edited in a committed column or deleted and no
      live row was added. */
  lemma TamperEvidence(p: Policy, ops: seq<Op>, tampered: Rows)
    ensures var l := Run(p, EMPTY, ops);
            Accepts(Summarize(l.log), tampered)
            <==> || (forall i: nat, k :: !InsertedAt(p, ops, i, k))
                 || (&& (forall k :: Untouched(p, ops, k) ==>
                                       k in tampered && k in l.rows && SameCommitted(tampered[k], l.rows[k]))
                     && (forall k :: Live(tampered, k) ==> k in l.rows))
  {
    hide Summarize, Run, InsertedAt, Untouched, Accepts;
    RunSound(p, ops);
    var l := Run(p, EMPTY, ops);
    var s := Summarize(l.log);
    forall k
      ensures k in Protected(s) <==> Untouched(p, ops, k)
      ensures k in s.commitments <==> exists i: nat :: InsertedAt(p, ops, i, k)
    {
      ProtectedExactly(p, ops, k);
      CommittedExactly(p, ops, k);
    }
    if s.commitments != map[] {
      var k :| k in s.commitments;
      var i: nat :| InsertedAt(p, ops, i, k);
      AcceptsExactly(l.rows, l.log, tampered);
    } else {
      forall i: nat, k
        ensures !InsertedAt(p, ops, i, k)
      {
        assert k !in s.commitments;
      }
      EmptyAccepts(s, tampered);
    }
  }

  lemma EmptyAccepts(s: Summary, rows: Rows)
    requires s.commitments == map[]
    ensures Accepts(s, rows)
  {
  }
}
