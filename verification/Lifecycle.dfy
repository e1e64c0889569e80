/** What every operation keeps: the log accounts for every row, fact slots hold one active row,
    rows only move along the governed transitions. */
module Lifecycle {
  import opened Wrappers
  import opened Records
  import opened AuditLog
  import opened Operations

  // ---- the log accounts for the rows ----------------------------------------

  /** The log names exactly the rows that exist, rows were committed as active or quarantined, and every
      protected row outside `gone` still is what was committed. */
  ghost predicate IntactBut(rows: Rows, log: seq<Event>, gone: set<Id>) {
    var s := Summarize(log);
    && s.known == rows.Keys
    && s.commitments.Keys <= rows.Keys
    && (forall k :: k in s.commitments ==> Insertable(s.commitments[k].status))
    && forall k :: k in Protected(s) && k !in gone ==> Commit(k, rows[k]) == s.commitments[k]
  }

  /** The statuses a row can be inserted with. */
  predicate Insertable(s: Status) {
    s.Active? || s.Quarantined?
  }

  /** The log accounts for every row. */
  ghost predicate Intact(rows: Rows, log: seq<Event>) {
    IntactBut(rows, log, {})
  }

  /** One event may add the rows it makes known and alter the rows it lists as changed. */
  lemma Extend(rows: Rows, log: seq<Event>, rows': Rows, e: Event, gone: set<Id>)
    requires IntactBut(rows, log, gone)
    requires rows'.Keys == rows.Keys + KnownBy(e)
    requires forall k :: k in rows && k !in ChangedBy(e) ==> Commit(k, rows'[k]) == Commit(k, rows[k])
    requires IsCreation(e) ==> e.record.value in rows' && Insertable(rows'[e.record.value].status)
    requires IsCreation(e) && e.payload.commitment.Some?
             ==> e.payload.commitment.value == Commit(e.record.value, rows'[e.record.value])
    ensures IntactBut(rows', log + [e], gone)
  {
    SummarizeSnoc(log, e);
  }

  lemma Note(l: Ledger, name: string, gone: set<Id>)
    requires IntactBut(l.rows, l.log, gone)
    ensures IntactBut(l.rows, Noted(l, name).log, gone)
  {
    Extend(l.rows, l.log, l.rows, Event(EventKind.Note(name)), gone);
  }

  lemma DuplicateNote(l: Ledger, name: string, id: Option<Id>, gone: set<Id>)
    requires IntactBut(l.rows, l.log, gone)
    ensures IntactBut(l.rows, l.log + [Event(EventKind.Note(name), id)], gone)
  {
    Extend(l.rows, l.log, l.rows, Event(EventKind.Note(name), id), gone);
  }

  // ---- invariants and effects -----------------------------------------------

  ghost predicate Sound(l: Ledger) {
    Accounted(l, {}) && UniqueKeys(l.rows)
  }

  /** The log accounts for every row outside `gone`, and rows are well formed. */
  ghost predicate Accounted(l: Ledger, gone: set<Id>) {
    IntactBut(l.rows, l.log, gone) && forall k :: k in l.rows ==> RowOk(l.rows[k])
  }

  /** A step that keeps the account and the fact slots. */
  ghost predicate Keeps(l: Ledger, l': Ledger, gone: set<Id>) {
    Accounted(l', gone) && (UniqueKeys(l.rows) ==> UniqueKeys(l'.rows))
  }

  predicate RowOk(r: Record) {
    && (r.status.Quarantined? ==> !r.tier.UserConfirmed?)
    && (r.status.Tombstoned? ==> r.raw == PURGED_RAW)
  }

  /** The parts of a row that only purging removes. */
  predicate Carried(r: Record, r': Record) {
    && r'.content == r.content && r'.factKey == r.factKey && r'.createdAt == r.createdAt
    && r'.raw.taint == r.raw.taint && r'.raw.related == r.raw.related && r'.raw.authority == r.raw.authority
  }

  /** Rows may be retired or added without lineage; nothing else happens. */
  ghost predicate Plain(rows: Rows, rows': Rows) {
    && rows.Keys <= rows'.Keys
    && (forall k :: k in rows ==>
                      rows'[k] == rows[k]
                      || (rows[k].status.Active? && rows'[k].status.Superseded? && Carried(rows[k], rows'[k])))
    && (forall k :: k in rows' && k !in rows ==>
                      !rows'[k].status.Tombstoned? && rows'[k].raw.related == [] && rows'[k].raw.taint == {})
  }

  lemma PlainReflexive(rows: Rows)
    ensures Plain(rows, rows)
  {
  }

  lemma PlainTransitive(a: Rows, b: Rows, c: Rows)
    requires Plain(a, b) && Plain(b, c)
    ensures Plain(a, c)
  {
  }

  /** A new row's labels cover its parents' labels, and derivation from a labelled parent is marked. */
  ghost predicate Inherits(rows: Rows, r: Record) {
    forall q :: q in r.raw.related ==>
                  && Live(rows, q)
                  && rows[q].raw.taint <= r.raw.taint
                  && (rows[q].raw.taint != {} ==> DerivedFromTainted in r.raw.taint)
  }

  /** The transitions a step may make. */
  ghost predicate Effect(rows: Rows, rows': Rows, op: Op) {
    && rows.Keys <= rows'.Keys
    && (forall k :: k in rows ==>
                      && (rows[k].status.Tombstoned? ==> rows'[k] == rows[k])
                      && (rows'[k].status.Tombstoned? || Carried(rows[k], rows'[k]))
                      && (rows[k].status.Quarantined? && rows'[k].status.Active? ==> op.OpPromote? && op.id == k)
                      && (rows[k].status.Quarantined? ==> !rows'[k].status.Superseded?)
                      && (rows[k].status.Superseded? ==> !rows'[k].status.Active? && !rows'[k].status.Quarantined?))
    && (forall k :: k in rows' && k !in rows ==>
                      && !rows'[k].status.Tombstoned?
                      && Inherits(rows, rows'[k])
                      && (!rows'[k].status.Quarantined? ==> rows'[k].raw.taint == {}))
  }

  lemma FewerActive(rows: Rows, rows': Rows)
    requires UniqueKeys(rows)
    requires forall k :: IsActive(rows', k) ==> IsActive(rows, k) && rows'[k].factKey == rows[k].factKey
    ensures UniqueKeys(rows')
  {
    forall a, b | SameSlot(rows', a, b)
      ensures a == b
    {
      assert SameSlot(rows, a, b);
    }
  }

  // ---- remember, propose_facts ----------------------------------------------

  lemma StoredShape(rows: Rows, c: Candidate)
    requires c.id !in rows
    ensures Stored(rows, c).Keys == rows.Keys + {c.id}
    ensures Stored(rows, c)[c.id] == FreshRow(c, Displaced(rows, c))
    ensures forall k :: k in rows && k !in Displaced(rows, c) ==> Stored(rows, c)[k] == rows[k]
    ensures forall k :: k in rows && k in Displaced(rows, c) ==> Stored(rows, c)[k] == Retired(rows[k], c.id, c.now)
    ensures Plain(rows, Stored(rows, c)) && RowOk(FreshRow(c, Displaced(rows, c)))
    ensures (forall k :: k in rows ==> RowOk(rows[k])) ==> forall k :: k in Stored(rows, c) ==> RowOk(Stored(rows, c)[k])
  {
  }

  lemma UniqueInsert(rows: Rows, rows': Rows, id: Id)
    requires UniqueKeys(rows)
    requires forall k :: k != id && IsActive(rows', k) ==> IsActive(rows, k) && rows'[k].factKey == rows[k].factKey
    requires forall k :: k != id ==> !SameSlot(rows', k, id)
    ensures UniqueKeys(rows')
  {
    forall a, b | SameSlot(rows', a, b)
      ensures a == b
    {
      assert a != id && b != id ==> SameSlot(rows, a, b);
      assert SameSlot(rows', b, a);
    }
  }

  lemma StoredUnique(rows: Rows, c: Candidate)
    requires c.id !in rows && UniqueKeys(rows)
    ensures UniqueKeys(Stored(rows, c))
  {
    StoredShape(rows, c);
    forall k | k != c.id
      ensures !SameSlot(Stored(rows, c), k, c.id)
    {
      assert IsActive(rows, k) && rows[k].factKey == c.factKey ==> k in ActiveWithKey(rows, c.factKey) || !Truthy(c.factKey);
    }
    UniqueInsert(rows, Stored(rows, c), c.id);
  }

  lemma CreationReads(id: Id, r: Record, older: seq<Id>)
    ensures KnownBy(CreationEvent(id, r, older)) == {id}
    ensures ChangedBy(CreationEvent(id, r, older)) == Members(older)
  {
  }

  lemma StoredIntact(rows: Rows, log: seq<Event>, c: Candidate, gone: set<Id>)
    requires c.id !in rows && IntactBut(rows, log, gone)
    ensures IntactBut(Stored(rows, c), log + [CreationEvent(c.id, Stored(rows, c)[c.id], Displaced(rows, c))], gone)
  {
    StoredShape(rows, c);
    var row := Stored(rows, c)[c.id];
    CreationReads(c.id, row, Displaced(rows, c));
    Extend(rows, log, Stored(rows, c), CreationEvent(c.id, row, Displaced(rows, c)), gone);
  }

  lemma RememberOneSound(p: Policy, l: Ledger, c: Candidate, l': Ledger, gone: set<Id>)
    requires Accounted(l, gone) && RememberOne(p, l, c) == Ok(l')
    ensures Keeps(l, l', gone) && Plain(l.rows, l'.rows)
  {
    hide IntactBut, UniqueKeys, Plain, Stored, Displaced;
    PlainReflexive(l.rows);
    var statuses := if InitialStatus(c.tier).Active? then {Active} else {Active, Quarantined};
    var duplicate := FindDuplicate(p, l.rows, c.content, statuses);
    if duplicate.Some? {
      DuplicateNote(l, "memory.duplicate_ignored", duplicate, gone);
    } else {
      StoredShape(l.rows, c);
      if UniqueKeys(l.rows) {
        StoredUnique(l.rows, c);
      }
      StoredIntact(l.rows, l.log, c, gone);
    }
  }

  lemma {:induction false} RememberAllSound(p: Policy, l: Ledger, cs: seq<Candidate>, gone: set<Id>)
    requires Accounted(l, gone) && RememberAll(p, l, cs).Ok?
    ensures Keeps(l, RememberAll(p, l, cs).value, gone) && Plain(l.rows, RememberAll(p, l, cs).value.rows)
    decreases |cs|
  {
    if cs != [] {
      var l1 := RememberOne(p, l, cs[0]).value;
      RememberOneSound(p, l, cs[0], l1, gone);
      RememberAllSound(p, l1, cs[1..], gone);
      PlainTransitive(l.rows, l1.rows, RememberAll(p, l, cs).value.rows);
    }
  }

  lemma RememberSound(p: Policy, l: Ledger, intake: Intake, gone: set<Id>)
    requires Accounted(l, gone) && Remember(p, l, intake).Ok?
    ensures Keeps(l, Remember(p, l, intake).value, gone) && Plain(l.rows, Remember(p, l, intake).value.rows)
  {
    match intake
    case Refused => Note(l, "memory.content_refused", gone);
    case Interpreted(c) =>
      var duplicate := FindDuplicate(p, l.rows, c.content, {Active});
      if duplicate.Some? {
        DuplicateNote(l, "memory.semantic_interpretation_duplicate", duplicate, gone);
      } else {
        var l1 := Noted(l, "episode.ingested");
        Note(l, "episode.ingested", gone);
        Note(l1, "memory.semantic_interpretation_received", gone);
        RememberAllSound(p, Noted(l1, "memory.semantic_interpretation_received"), [c], gone);
      }
    case Extracted(cs, untrusted) =>
      var l1 := Noted(l, "episode.ingested");
      Note(l, "episode.ingested", gone);
      Note(l1, "memory.untrusted_source_ignored", gone);
      if !(cs == [] && untrusted) {
        RememberAllSound(p, l1, cs, gone);
      }
  }

  lemma ProposeOneSound(p: Policy, l: Ledger, d: Draft, sources: set<Id>, gone: set<Id>)
    requires Accounted(l, gone) && ProposeOne(p, l, d, sources).Ok?
    ensures Keeps(l, ProposeOne(p, l, d, sources).value, gone) && Plain(l.rows, ProposeOne(p, l, d, sources).value.rows)
  {
    var l' := ProposeOne(p, l, d, sources).value;
    if l' != l {
      if UniqueKeys(l.rows) {
        FewerActive(l.rows, l'.rows);
      }
      CreationReads(d.id, DraftRow(d), []);
      Extend(l.rows, l.log, l'.rows, CreationEvent(d.id, DraftRow(d), []), gone);
    }
  }

  lemma {:induction false} ProposeAllSound(p: Policy, l: Ledger, ds: seq<Draft>, sources: set<Id>, gone: set<Id>)
    requires Accounted(l, gone) && ProposeAll(p, l, ds, sources).Ok?
    ensures Keeps(l, ProposeAll(p, l, ds, sources).value, gone) && Plain(l.rows, ProposeAll(p, l, ds, sources).value.rows)
    decreases |ds|
  {
    if ds != [] {
      var l1 := ProposeOne(p, l, ds[0], sources).value;
      ProposeOneSound(p, l, ds[0], sources, gone);
      ProposeAllSound(p, l1, ds[1..], sources, gone);
      PlainTransitive(l.rows, l1.rows, ProposeAll(p, l, ds, sources).value.rows);
    }
  }

  // ---- retiring and purging -------------------------------------------------

  lemma SupersedeShape(rows: Rows, ids: seq<Id>, keeper: Id, now: int)
    ensures Plain(rows, SupersedeRows(rows, ids, keeper, now))
    ensures UniqueKeys(rows) ==> UniqueKeys(SupersedeRows(rows, ids, keeper, now))
    ensures forall k :: k in rows && k !in ids ==> SupersedeRows(rows, ids, keeper, now)[k] == rows[k]
  {
    if UniqueKeys(rows) {
      FewerActive(rows, SupersedeRows(rows, ids, keeper, now));
    }
  }

  lemma ReplaceSound(l: Ledger, id: Id, newId: Id, now: int, gone: set<Id>)
    requires Accounted(l, gone) && newId in l.rows
    ensures var l' := Logged(Supersede(l, [id], newId, now),
                             Event(RecordCorrected, Some(newId), Payload(replaced := Some(id))));
            Keeps(l, l', gone) && Plain(l.rows, l'.rows)
  {
    SupersedeShape(l.rows, [id], newId, now);
    var e := Event(RecordCorrected, Some(newId), Payload(replaced := Some(id)));
    assert KnownBy(e) == {} && ChangedBy(e) == {id};
    Extend(l.rows, l.log, SupersedeRows(l.rows, [id], newId, now), e, gone);
  }

  lemma CorrectSound(p: Policy, l: Ledger, id: Id, text: string, newId: Id, now: int, pr: Provenance, l': Ledger,
                     gone: set<Id>)
    requires Accounted(l, gone) && Correct(p, l, id, text, false, newId, now, pr) == Ok(l')
    ensures Keeps(l, l', gone) && Plain(l.rows, l'.rows)
  {
    var intake := Interpreted(Correction(p, l, id, text, newId, now, pr));
    RememberSound(p, l, intake, gone);
    var l1 := Remember(p, l, intake).value;
    ReplaceSound(l1, id, newId, now, gone);
    PlainTransitive(l.rows, l1.rows, l'.rows);
  }

  /** Purging is logged under `purged_record_ids` by every caller. */
  lemma PurgeSound(l: Ledger, ids: seq<Id>, now: int, e: Event, gone: set<Id>)
    requires Accounted(l, gone)
    requires KnownBy(e) == {} && !IsCreation(e)
    requires forall k :: k in ids && Live(l.rows, k) ==> k in ChangedBy(e)
    ensures Keeps(l, Logged(Purge(l, ids, now), e), gone)
  {
    var rows' := PurgeRows(l.rows, ids, now);
    if UniqueKeys(l.rows) {
      FewerActive(l.rows, rows');
    }
    Extend(l.rows, l.log, rows', e, gone);
  }

  lemma PurgeEffect(rows: Rows, ids: seq<Id>, now: int, op: Op)
    ensures Effect(rows, PurgeRows(rows, ids, now), op)
  {
  }

  lemma PlainEffect(rows: Rows, rows': Rows, op: Op)
    requires Plain(rows, rows')
    ensures Effect(rows, rows', op)
  {
  }

  // ---- promote, submit_proposal ---------------------------------------------

  ghost function Rivals(l: Ledger, id: Id, now: int): seq<Id>
    requires id in l.rows
  {
    var rows1 := l.rows[id := Confirmed(l.rows[id], now)];
    Listing(rows1, ActiveWithKey(rows1, rows1[id].factKey) - {id})
  }

  lemma PromoteShape(l: Ledger, id: Id, now: int, l': Ledger)
    requires Promote(l, id, now) == Ok(l')
    ensures l'.rows.Keys == l.rows.Keys && l'.rows[id] == Confirmed(l.rows[id], now)
    ensures l'.log == l.log + [Event(RecordPromoted, Some(id), Payload(supersedes := Rivals(l, id, now)))]
    ensures forall k :: k in l.rows && k != id ==>
                          if k in Rivals(l, id, now) then IsActive(l.rows, k) && l'.rows[k] == Retired(l.rows[k], id, now)
                          else l'.rows[k] == l.rows[k]
  {
  }

  lemma PromoteEffect(l: Ledger, id: Id, now: int, l': Ledger)
    requires Promote(l, id, now) == Ok(l')
    ensures Effect(l.rows, l'.rows, OpPromote(id, now))
    ensures (forall k :: k in l.rows ==> RowOk(l.rows[k])) ==> forall k :: k in l'.rows ==> RowOk(l'.rows[k])
  {
    PromoteShape(l, id, now, l');
  }

  lemma PromoteUnique(l: Ledger, id: Id, now: int, l': Ledger)
    requires Promote(l, id, now) == Ok(l') && UniqueKeys(l.rows)
    ensures UniqueKeys(l'.rows)
  {
    PromoteShape(l, id, now, l');
    forall k | k != id
      ensures !SameSlot(l'.rows, k, id)
    {
      assert SameSlot(l.rows[id := Confirmed(l.rows[id], now)], k, id) ==> k in Rivals(l, id, now);
    }
    UniqueInsert(l.rows, l'.rows, id);
  }

  lemma PromotionReads(id: Id, older: seq<Id>)
    ensures KnownBy(Event(RecordPromoted, Some(id), Payload(supersedes := older))) == {}
    ensures ChangedBy(Event(RecordPromoted, Some(id), Payload(supersedes := older))) == Members(older) + {id}
  {
  }

  lemma PromoteIntact(l: Ledger, id: Id, now: int, l': Ledger, gone: set<Id>)
    requires Promote(l, id, now) == Ok(l') && IntactBut(l.rows, l.log, gone)
    ensures IntactBut(l'.rows, l'.log, gone)
  {
    PromoteShape(l, id, now, l');
    PromotionReads(id, Rivals(l, id, now));
    Extend(l.rows, l.log, l'.rows, Event(RecordPromoted, Some(id), Payload(supersedes := Rivals(l, id, now))), gone);
  }

  lemma AdmitIntact(l: Ledger, rows': Rows, q: Proposal, d: Decision, recordIds: seq<Id>, candidateIds: seq<Id>,
                    gone: set<Id>)
    requires IntactBut(l.rows, l.log, gone)
    requires rows'.Keys == l.rows.Keys + Members(recordIds) + Members(candidateIds)
    requires forall k :: k in l.rows ==> rows'[k] == l.rows[k]
    ensures IntactBut(rows', Admit(l, q, d, recordIds, candidateIds).log, gone)
  {
    var e := Event(EventKind.Note("memory.proposal_admitted_v1"), FirstOf(recordIds + candidateIds),
                   Payload(recordIds := recordIds, candidateIds := candidateIds, related := q.related));
    assert KnownBy(e) == Members(recordIds) + Members(candidateIds);
    Extend(l.rows, l.log, rows', e, gone);
  }

  /** A labelled parent is tainted, so the new row carries the derivation mark and every parent label. */
  lemma ProposalInherits(p: Policy, rows: Rows, q: Proposal)
    requires RelatedInScope(rows, q)
    requires forall k :: k in rows ==> RowOk(rows[k])
    ensures Inherits(rows, ProposalRow(p, rows, q))
    ensures !ProposalRow(p, rows, q).status.Quarantined? ==> ProposalRow(p, rows, q).raw.taint == {}
    ensures !ProposalRow(p, rows, q).status.Tombstoned? && RowOk(ProposalRow(p, rows, q))
  {
  }

  /** The four ways a submission succeeds: replay, refusal, duplicate, new row. */
  lemma SubmitCases(p: Policy, l: Ledger, q: Proposal, l': Ledger)
    requires SubmitProposal(p, l, q) == Ok(l')
    ensures || l' == l
            || l' == Admit(l, q, Rejected, [], [])
            || (exists k :: k in l.rows && l' == Admit(l, q, Duplicate, [k], []))
            || (&& q.id !in l.rows && RelatedInScope(l.rows, q)
                && exists d, r, c :: Members(r) + Members(c) == {q.id}
                                     && l' == Admit(Insert(l, q.id, ProposalRow(p, l.rows, q)), q, d, r, c))
  {
    hide ProposalRow, SourcesBound, ActiveWithKey;
    if l' != l && !q.refused {
      var duplicate := FindDuplicate(p, l.rows, q.fact, {Active, Quarantined});
      if duplicate.Some? {
        assert duplicate.value in l.rows;
      } else {
        var row := ProposalRow(p, l.rows, q);
        var d := if ActiveWithKey(l.rows, row.factKey) != {} then Conflict else Review;
        if row.status.Active? {
          assert Members([q.id]) + Members([]) == {q.id};
          assert l' == Admit(Insert(l, q.id, row), q, Admitted, [q.id], []);
        } else {
          assert Members([]) + Members([q.id]) == {q.id};
          assert l' == Admit(Insert(l, q.id, row), q, d, [], [q.id]);
        }
      }
    }
  }

  lemma NewProposalSound(p: Policy, l: Ledger, q: Proposal, d: Decision, r: seq<Id>, c: seq<Id>, gone: set<Id>)
    requires Accounted(l, gone) && q.id !in l.rows && RelatedInScope(l.rows, q) && Members(r) + Members(c) == {q.id}
    ensures var l' := Admit(Insert(l, q.id, ProposalRow(p, l.rows, q)), q, d, r, c);
            Keeps(l, l', gone) && Effect(l.rows, l'.rows, OpSubmit(q))
  {
    hide IntactBut, UniqueKeys, Inherits, ProposalRow, RowOk;
    ProposalInherits(p, l.rows, q);
    AdmitIntact(l, l.rows[q.id := ProposalRow(p, l.rows, q)], q, d, r, c, gone);
    if UniqueKeys(l.rows) {
      SubmitUnique(p, l.rows, q);
    }
  }

  lemma SubmitSound(p: Policy, l: Ledger, q: Proposal, l': Ledger, gone: set<Id>)
    requires Accounted(l, gone) && SubmitProposal(p, l, q) == Ok(l')
    ensures Keeps(l, l', gone) && Effect(l.rows, l'.rows, OpSubmit(q))
  {
    hide IntactBut, UniqueKeys, Inherits, ProposalRow, RowOk, SubmitProposal;
    SubmitCases(p, l, q, l');
    if l' == Admit(l, q, Rejected, [], []) {
      AdmitIntact(l, l.rows, q, Rejected, [], [], gone);
    } else if k :| k in l.rows && l' == Admit(l, q, Duplicate, [k], []) {
      AdmitIntact(l, l.rows, q, Duplicate, [k], [], gone);
    } else if l' != l {
      var d, r, c :| Members(r) + Members(c) == {q.id}
                     && l' == Admit(Insert(l, q.id, ProposalRow(p, l.rows, q)), q, d, r, c);
      NewProposalSound(p, l, q, d, r, c, gone);
    }
  }

  lemma SubmitUnique(p: Policy, rows: Rows, q: Proposal)
    requires RelatedInScope(rows, q) && q.id !in rows && UniqueKeys(rows)
    ensures UniqueKeys(rows[q.id := ProposalRow(p, rows, q)])
  {
    var rows' := rows[q.id := ProposalRow(p, rows, q)];
    forall k | k != q.id
      ensures !SameSlot(rows', k, q.id)
    {
      assert SameSlot(rows', k, q.id) ==> k in ActiveWithKey(rows, CanonicalKey(p, q));
    }
    UniqueInsert(rows, rows', q.id);
  }
}
