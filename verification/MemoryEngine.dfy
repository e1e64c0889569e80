/** The engine as an object that updates its tables in place; each public method is one transaction
    and refines the corresponding function of `Operations`. */
module MemoryEngine {
  import opened Wrappers
  import opened Sequences
  import opened Records
  import opened AuditLog
  import opened Operations

  // ---- how the row loops accumulate -----------------------------------------

  lemma SupersedeSnoc(rows: Rows, ids: seq<Id>, id: Id, keeper: Id, now: int)
    ensures SupersedeRows(rows, ids + [id], keeper, now)
         == SupersedeRows(SupersedeRows(rows, ids, keeper, now), [id], keeper, now)
    ensures |SupersedeSet(rows, ids + [id])|
         == |SupersedeSet(rows, ids)| + if IsActive(SupersedeRows(rows, ids, keeper, now), id) then 1 else 0
  {
    if IsActive(SupersedeRows(rows, ids, keeper, now), id) {
      assert SupersedeSet(rows, ids + [id]) == SupersedeSet(rows, ids) + {id};
    } else {
      assert SupersedeSet(rows, ids + [id]) == SupersedeSet(rows, ids);
    }
  }

  lemma SupersedeNothing(rows: Rows, keeper: Id, now: int)
    ensures SupersedeRows(rows, [], keeper, now) == rows && SupersedeSet(rows, []) == {}
  {
  }

  lemma SupersedeOne(rows: Rows, id: Id, keeper: Id, now: int)
    ensures SupersedeRows(rows, [id], keeper, now)
         == if IsActive(rows, id) then rows[id := Retired(rows[id], keeper, now)] else rows
  {
  }

  lemma PurgeSnoc(rows: Rows, ids: seq<Id>, id: Id, now: int)
    requires id !in ids
    ensures var done := PurgeRows(rows, ids, now);
            PurgeRows(rows, ids + [id], now) == if Live(rows, id) then done[id := Purged(done[id], now)] else done
    ensures Live(PurgeRows(rows, ids, now), id) == Live(rows, id)
    ensures PurgedIds(rows, ids + [id]) == PurgedIds(rows, ids) + if Live(rows, id) then [id] else []
  {
    PurgedIdsSnoc(rows, ids, id);
  }

  lemma {:induction false} PurgedIdsSnoc(rows: Rows, ids: seq<Id>, id: Id)
    ensures PurgedIds(rows, ids + [id]) == PurgedIds(rows, ids) + if Live(rows, id) then [id] else []
  {
    if ids != [] {
      assert (ids + [id])[1..] == ids[1..] + [id];
      PurgedIdsSnoc(rows, ids[1..], id);
    }
  }

  lemma DisplacedCount(rows: Rows, c: Candidate)
    requires c.id !in rows
    ensures |SupersedeSet(rows[c.id := FreshRow(c, Displaced(rows, c))], Displaced(rows, c))| == |Displaced(rows, c)|
  {
    var older := Displaced(rows, c);
    var s := SupersedeSet(rows[c.id := FreshRow(c, older)], older);
    if InitialStatus(c.tier).Active? {
      assert s == ActiveWithKey(rows, c.factKey);
    } else {
      assert s == {};
    }
  }

  lemma CollapseUnfold(l: Ledger, f: Id -> string, ids: seq<Id>, now: int)
    requires ids != [] && forall k :: k in ids ==> k in l.rows
    ensures var group := Group(l.rows, f, ids);
            var keeper, older := group[|group| - 1], group[..|group| - 1];
            var rest := Collapse(Supersede(l, older, keeper, now), f, Others(f, ids, f(ids[0])), now);
            Collapse(l, f, ids, now) == Pass(rest.l, older + rest.superseded, [keeper] + rest.keepers)
  {
  }

  ghost function Joined(superseded: seq<Id>, keepers: seq<Id>, left: Pass): Pass {
    Pass(left.l, superseded + left.superseded, keepers + left.keepers)
  }

  lemma JoinedEmpty(left: Pass)
    ensures Joined([], [], left) == left
  {
  }

  lemma Regroup(a: seq<Id>, b: seq<Id>, c: seq<Id>)
    ensures a + (b + c) == (a + b) + c
  {
  }

  class Memory {
    const p: Policy
    var rows: Rows
    var log: seq<Event>
    var generation: nat
    var proposals: map<ProposalKey, Admission>

    ghost function Ledger(): Ledger
      reads this
    {
      Operations.Ledger(rows, log, generation, proposals)
    }

    constructor (p: Policy)
      ensures this.p == p && Ledger() == EMPTY
    {
      this.p := p;
      rows, log, generation, proposals := map[], [], 0, map[];
    }

    method Append(e: Event)
      modifies this`log
      ensures log == old(log) + [e]
    {
      log := log + [e];
    }

    method SupersedeRecords(ids: seq<Id>, keeper: Id, now: int)
      modifies this`rows, this`generation
      ensures Ledger() == Supersede(old(Ledger()), ids, keeper, now)
    {
      hide SupersedeRows, SupersedeSet;
      SupersedeNothing(rows, keeper, now);
      for i := 0 to |ids|
        invariant rows == SupersedeRows(old(rows), ids[..i], keeper, now)
        invariant generation == old(generation) + |SupersedeSet(old(rows), ids[..i])|
      {
        SupersedeSnoc(old(rows), ids[..i], ids[i], keeper, now);
        SupersedeOne(rows, ids[i], keeper, now);
        assert ids[..i + 1] == ids[..i] + [ids[i]];
        if ids[i] in rows && rows[ids[i]].status.Active? {
          rows := rows[ids[i] := Retired(rows[ids[i]], keeper, now)];
          generation := generation + 1;
        }
      }
      assert ids[..|ids|] == ids;
    }

    method TombstoneRecords(ids: seq<Id>, now: int) returns (changed: seq<Id>)
      requires Distinct(ids)
      modifies this`rows, this`generation
      ensures Ledger() == Purge(old(Ledger()), ids, now)
      ensures changed == PurgedIds(old(rows), ids)
    {
      changed := [];
      assert PurgeRows(rows, [], now) == rows;
      for i := 0 to |ids|
        invariant rows == PurgeRows(old(rows), ids[..i], now)
        invariant changed == PurgedIds(old(rows), ids[..i])
        invariant generation == old(generation) + |changed|
      {
        PurgeSnoc(old(rows), ids[..i], ids[i], now);
        assert ids[..i + 1] == ids[..i] + [ids[i]];
        if ids[i] in rows && !rows[ids[i]].status.Tombstoned? {
          rows := rows[ids[i] := Purged(rows[ids[i]], now)];
          generation := generation + 1;
          changed := changed + [ids[i]];
        }
      }
      assert ids[..|ids|] == ids;
    }

    /** Store one candidate, or note that it duplicates a row. */
    method RememberCandidate(c: Candidate) returns (ok: bool)
      modifies this`rows, this`log, this`generation
      ensures ok == RememberOne(p, old(Ledger()), c).Ok?
      ensures ok ==> Ledger() == RememberOne(p, old(Ledger()), c).value
    {
      var status := InitialStatus(c.tier);
      var statuses := if status.Active? then {Active} else {Active, Quarantined};
      var duplicate := FindDuplicate(p, rows, c.content, statuses);
      if duplicate.Some? {
        Append(Event(Note("memory.duplicate_ignored"), duplicate));
        return true;
      }
      if c.id in rows {
        return false;
      }
      var older := if status.Active? then Listing(rows, ActiveWithKey(rows, c.factKey)) else [];
      DisplacedCount(rows, c);
      rows := rows[c.id := FreshRow(c, older)];
      generation := generation + 1;
      SupersedeRecords(older, c.id, c.now);
      Append(CreationEvent(c.id, rows[c.id], older));
      return true;
    }

    /** The candidate loop of `remember`. */
    method RememberCandidates(cs: seq<Candidate>) returns (ok: bool)
      modifies this`rows, this`log, this`generation
      ensures ok == RememberAll(p, old(Ledger()), cs).Ok?
      ensures ok ==> Ledger() == RememberAll(p, old(Ledger()), cs).value
    {
      var i := 0;
      while i < |cs|
        invariant i <= |cs|
        invariant RememberAll(p, old(Ledger()), cs) == RememberAll(p, Ledger(), cs[i..])
        invariant proposals == old(proposals)
      {
        assert cs[i..][1..] == cs[i + 1..];
        var stored := RememberCandidate(cs[i]);
        if !stored {
          return false;
        }
        i := i + 1;
      }
      return true;
    }

    method RememberIntake(intake: Intake) returns (ok: bool)
      modifies this`rows, this`log, this`generation
      ensures ok == Operations.Remember(p, old(Ledger()), intake).Ok?
      ensures ok ==> Ledger() == Operations.Remember(p, old(Ledger()), intake).value
    {
      match intake {
        case Refused =>
          Append(Event(Note("memory.content_refused")));
          ok := true;
        case Interpreted(c) =>
          if !c.tier.TrustedUser? || |c.content| > 2000 {
            return false;
          }
          var duplicate := FindDuplicate(p, rows, c.content, {Active});
          if duplicate.Some? {
            Append(Event(Note("memory.semantic_interpretation_duplicate"), duplicate));
            return true;
          }
          Append(Event(Note("episode.ingested")));
          Append(Event(Note("memory.semantic_interpretation_received")));
          ok := RememberCandidates([c]);
        case Extracted(cs, untrusted) =>
          Append(Event(Note("episode.ingested")));
          if cs == [] && untrusted {
            Append(Event(Note("memory.untrusted_source_ignored")));
            return true;
          }
          ok := RememberCandidates(cs);
      }
    }

    /** `remember`: an error rolls everything back. */
    method Remember(intake: Intake) returns (ok: bool)
      modifies this
      ensures Ledger() == Step(p, old(Ledger()), OpRemember(intake))
      ensures ok == Apply(p, old(Ledger()), OpRemember(intake)).Ok?
    {
      var rows0, log0, generation0 := rows, log, generation;
      ok := RememberIntake(intake);
      if !ok {
        rows, log, generation := rows0, log0, generation0;
      }
    }

    method ProposeFacts(drafts: seq<Draft>, episodes: set<Id>) returns (ok: bool)
      modifies this
      ensures Ledger() == Step(p, old(Ledger()), OpPropose(drafts, episodes))
      ensures ok == Apply(p, old(Ledger()), OpPropose(drafts, episodes)).Ok?
    {
      var rows0, log0, generation0 := rows, log, generation;
      var sources := episodes + rows.Keys;
      var i := 0;
      while i < |drafts|
        invariant i <= |drafts|
        invariant ProposeAll(p, old(Ledger()), drafts, sources) == ProposeAll(p, Ledger(), drafts[i..], sources)
        invariant proposals == old(proposals)
      {
        var d := drafts[i];
        assert drafts[i..][1..] == drafts[i + 1..];
        i := i + 1;
        if d.content == "" || !Cited(d, sources) {
          continue;
        }
        var duplicate := FindDuplicate(p, rows, d.content, {Active, Quarantined});
        if duplicate.Some? {
          continue;
        }
        if d.id in rows {
          rows, log, generation := rows0, log0, generation0;
          return false;
        }
        rows := rows[d.id := DraftRow(d)];
        generation := generation + 1;
        Append(CreationEvent(d.id, DraftRow(d), []));
      }
      return true;
    }

    /** Log the admission and remember it under its idempotency key. */
    method RecordAdmission(q: Proposal, decision: Decision, recordIds: seq<Id>, candidateIds: seq<Id>)
      modifies this`log, this`proposals
      ensures Ledger() == Admit(old(Ledger()), q, decision, recordIds, candidateIds)
    {
      Append(Event(Note("memory.proposal_admitted_v1"), FirstOf(recordIds + candidateIds),
                   Payload(recordIds := recordIds, candidateIds := candidateIds, related := q.related)));
      proposals := proposals[Slot(q) := Admission(q.digest, decision, recordIds, candidateIds)];
    }

    method SubmitProposal(q: Proposal) returns (ok: bool)
      modifies this
      ensures Ledger() == Step(p, old(Ledger()), OpSubmit(q))
      ensures ok == Apply(p, old(Ledger()), OpSubmit(q)).Ok?
    {
      hide FindDuplicate, SourcesBound, ProposalRow, ActiveWithKey, Admit;
      if q.key.DigestKey? && q.key.digest != q.digest {
        return false;
      }
      if Slot(q) in proposals {
        return proposals[Slot(q)].digest == q.digest;
      }
      if !SourcesBound(q) || !RelatedInScope(rows, q) {
        return false;
      }
      if q.refused {
        RecordAdmission(q, Rejected, [], []);
        return true;
      }
      var duplicate := FindDuplicate(p, rows, q.fact, {Active, Quarantined});
      if duplicate.Some? {
        RecordAdmission(q, Duplicate, [duplicate.value], []);
        return true;
      }
      if q.id in rows {
        return false;
      }
      var row := ProposalRow(p, rows, q);
      var conflict := ActiveWithKey(rows, row.factKey) != {};
      rows := rows[q.id := row];
      generation := generation + 1;
      if row.status.Active? {
        RecordAdmission(q, Admitted, [q.id], []);
      } else {
        RecordAdmission(q, if conflict then Conflict else Review, [], [q.id]);
      }
      return true;
    }

    method PromoteRecord(id: Id, now: int) returns (ok: bool)
      modifies this
      ensures Ledger() == Step(p, old(Ledger()), OpPromote(id, now))
      ensures ok == Apply(p, old(Ledger()), OpPromote(id, now)).Ok?
    {
      if id !in rows || !rows[id].status.Quarantined? {
        return false;
      }
      rows := rows[id := Confirmed(rows[id], now)];
      generation := generation + 1;
      var older := Listing(rows, ActiveWithKey(rows, rows[id].factKey) - {id});
      SupersedeRecords(older, id, now);
      Append(Event(RecordPromoted, Some(id), Payload(supersedes := older)));
      return true;
    }

    method RejectRecord(id: Id, now: int) returns (ok: bool)
      modifies this
      ensures Ledger() == Step(p, old(Ledger()), OpReject(id, now))
      ensures ok == Apply(p, old(Ledger()), OpReject(id, now)).Ok?
    {
      if id !in rows || !rows[id].status.Quarantined? {
        return false;
      }
      var purged := TombstoneRecords([id], now);
      Append(Event(RecordRejected, Some(id), Payload(purged := purged)));
      return true;
    }

    method CorrectRecord(id: Id, corrected: string, refused: bool, newId: Id, now: int, pr: Provenance)
      returns (ok: bool)
      modifies this
      ensures Ledger() == Step(p, old(Ledger()), OpCorrect(id, corrected, refused, newId, now, pr))
      ensures ok == Apply(p, old(Ledger()), OpCorrect(id, corrected, refused, newId, now, pr)).Ok?
    {
      hide Operations.Remember, SupersedeRows, SupersedeSet;
      if id !in rows || !rows[id].status.Active? || corrected == "" || corrected == p.strip(rows[id].content) || refused {
        return false;
      }
      var rows0, log0, generation0 := rows, log, generation;
      var key := if Truthy(rows[id].factKey) then rows[id].factKey.value else "correction-" + p.idText(id);
      var c := Candidate(newId, now, p.note(corrected), TrustedUser, Some(p.normalize(key)), pr);
      ok := RememberIntake(Interpreted(c));
      if ok && newId !in rows0 && newId in rows {
        SupersedeRecords([id], newId, now);
        Append(Event(RecordCorrected, Some(newId), Payload(replaced := Some(id))));
      } else {
        rows, log, generation := rows0, log0, generation0;
        ok := false;
      }
    }

    method ForgetMatching(needle: string, now: int)
      modifies this
      ensures Ledger() == Step(p, old(Ledger()), OpForget(needle, now))
    {
      if needle == "" {
        Append(Event(Note("memory.forget_rejected")));
        return;
      }
      var ids := Listing(rows, Matching(p, rows, needle));
      var purged := TombstoneRecords(ids, now);
      Append(Event(Note("memory.forget"), None, Payload(purged := purged)));
    }

    method ForgetOne(id: Id, now: int) returns (ok: bool)
      modifies this
      ensures Ledger() == Step(p, old(Ledger()), OpForgetRecord(id, now))
      ensures ok == Apply(p, old(Ledger()), OpForgetRecord(id, now)).Ok?
    {
      if id !in rows || rows[id].status.Tombstoned? {
        return false;
      }
      var purged := TombstoneRecords([id], now);
      Append(Event(Note("memory.forget"), Some(id), Payload(purged := purged)));
      return true;
    }

    /** One grouping pass of `consolidate`. */
    method CollapsePass(f: Id -> string, ids: seq<Id>, now: int) returns (superseded: seq<Id>, keepers: seq<Id>)
      requires forall k :: k in ids ==> k in rows
      modifies this`rows, this`generation
      ensures Pass(Ledger(), superseded, keepers) == Collapse(old(Ledger()), f, ids, now)
    {
      superseded, keepers := [], [];
      var rest := ids;
      ghost var whole := Collapse(Ledger(), f, ids, now);
      JoinedEmpty(whole);
      while rest != []
        invariant forall k :: k in rest ==> k in rows
        invariant log == old(log) && proposals == old(proposals)
        invariant whole == Joined(superseded, keepers, Collapse(Ledger(), f, rest, now))
        decreases |rest|
      {
        var group := Group(rows, f, rest);
        var keeper, older := group[|group| - 1], group[..|group| - 1];
        CollapseUnfold(Ledger(), f, rest, now);
        SupersedeRecords(older, keeper, now);
        rest := Others(f, rest, f(rest[0]));
        ghost var left := Collapse(Ledger(), f, rest, now);
        Regroup(superseded, older, left.superseded);
        Regroup(keepers, [keeper], left.keepers);
        superseded, keepers := superseded + older, keepers + [keeper];
      }
    }

    method ConsolidateAll(now: int)
      modifies this
      ensures Ledger() == Step(p, old(Ledger()), OpConsolidate(now))
    {
      var before := rows;
      var active := Listing(rows, ActiveIds(rows));
      var dups, survivors := CollapsePass(ContentClass(p, before), active, now);
      CollapseKeys(old(Ledger()), ContentClass(p, before), active, now);
      var repaired, _ := CollapsePass(KeyClass(before), Keyed(before, survivors), now);
      Append(Event(Note("memory.consolidated"), None, Payload(duplicates := dups, repaired := repaired)));
    }
  }
}
