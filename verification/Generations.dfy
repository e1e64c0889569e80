/** The generation counter and the log track every change of the rows. */
module Generations {
  import opened Wrappers
  import opened Records
  import opened AuditLog
  import opened Operations
  import opened Lifecycle

  /** Rows only move forward: none disappears, and a row that changes moves to a later status. */
  ghost predicate Forward(rows: Rows, rows': Rows) {
    && rows.Keys <= rows'.Keys
    && forall k :: k in rows ==> rows'[k] == rows[k] || Stage(rows[k].status) < Stage(rows'[k].status)
  }

  /** The log only grows, rows only move forward, and the generation is the same exactly when the rows are. */
  ghost predicate Tracks(l: Ledger, l': Ledger) {
    && l.log <= l'.log
    && l.generation <= l'.generation
    && Forward(l.rows, l'.rows)
    && (l'.generation == l.generation <==> l'.rows == l.rows)
  }

  lemma TracksTransitive(a: Ledger, b: Ledger, c: Ledger)
    requires Tracks(a, b) && Tracks(b, c)
    ensures Tracks(a, c)
  {
  }

  lemma SupersedeTracks(l: Ledger, ids: seq<Id>, keeper: Id, now: int)
    ensures Tracks(l, Supersede(l, ids, keeper, now))
  {
    if SupersedeSet(l.rows, ids) == {} {
      forall k | k in l.rows && k in ids
        ensures !l.rows[k].status.Active?
      {
        assert k !in SupersedeSet(l.rows, ids);
      }
    }
  }

  lemma PurgeTracks(l: Ledger, ids: seq<Id>, now: int)
    ensures Tracks(l, Purge(l, ids, now))
  {
    if PurgedIds(l.rows, ids) == [] {
      assert forall k :: k in ids && k in l.rows ==> k !in PurgedIds(l.rows, ids);
    } else {
      assert Live(l.rows, PurgedIds(l.rows, ids)[0]);
    }
  }

  lemma RememberOneTracks(p: Policy, l: Ledger, c: Candidate, l': Ledger)
    requires RememberOne(p, l, c) == Ok(l')
    ensures Tracks(l, l')
  {
    hide FindDuplicate, Stored, Displaced, Plain;
    if c.id !in l.rows {
      StoredShape(l.rows, c);
      assert c.id in Stored(l.rows, c);
      OnlyActiveDisplaced(l.rows, c);
    }
  }

  lemma OnlyActiveDisplaced(rows: Rows, c: Candidate)
    ensures forall k :: k in Displaced(rows, c) ==> IsActive(rows, k)
  {
  }

  lemma {:induction false} RememberAllTracks(p: Policy, l: Ledger, cs: seq<Candidate>)
    requires RememberAll(p, l, cs).Ok?
    ensures Tracks(l, RememberAll(p, l, cs).value)
    decreases |cs|
  {
    if cs != [] {
      hide Tracks, RememberOne;
      var l1 := RememberOne(p, l, cs[0]).value;
      RememberOneTracks(p, l, cs[0], l1);
      RememberAllTracks(p, l1, cs[1..]);
      TracksTransitive(l, l1, RememberAll(p, l, cs).value);
    }
  }

  lemma RememberTracks(p: Policy, l: Ledger, intake: Intake, l': Ledger)
    requires Remember(p, l, intake) == Ok(l')
    ensures Tracks(l, l')
  {
    match intake
    case Refused =>
    case Interpreted(c) =>
      if FindDuplicate(p, l.rows, c.content, {Active}).None? {
        var l1 := Noted(Noted(l, "episode.ingested"), "memory.semantic_interpretation_received");
        RememberAllTracks(p, l1, [c]);
        TracksTransitive(l, l1, l');
      }
    case Extracted(cs, untrusted) =>
      var l1 := Noted(l, "episode.ingested");
      if !(cs == [] && untrusted) {
        RememberAllTracks(p, l1, cs);
        TracksTransitive(l, l1, l');
      }
  }

  lemma {:induction false} ProposeAllTracks(p: Policy, l: Ledger, ds: seq<Draft>, sources: set<Id>)
    requires ProposeAll(p, l, ds, sources).Ok?
    ensures Tracks(l, ProposeAll(p, l, ds, sources).value)
    decreases |ds|
  {
    if ds != [] {
      var l1 := ProposeOne(p, l, ds[0], sources).value;
      ProposeAllTracks(p, l1, ds[1..], sources);
      TracksTransitive(l, l1, ProposeAll(p, l, ds, sources).value);
    }
  }

  lemma CorrectTracks(p: Policy, l: Ledger, op: Op, l': Ledger)
    requires op.OpCorrect? && Apply(p, l, op) == Ok(l')
    ensures Tracks(l, l')
  {
    hide Remember, Tracks, Supersede;
    var intake := Interpreted(Correction(p, l, op.id, op.corrected, op.newId, op.now, op.provenance));
    var l1 := Remember(p, l, intake).value;
    RememberTracks(p, l, intake, l1);
    SupersedeTracks(l1, [op.id], op.newId, op.now);
    TracksTransitive(l, l1, Supersede(l1, [op.id], op.newId, op.now));
    LoggedTracks(l, Supersede(l1, [op.id], op.newId, op.now), l'.log[|l'.log| - 1]);
  }

  lemma PromoteTracks(l: Ledger, id: Id, now: int, l': Ledger)
    requires Promote(l, id, now) == Ok(l')
    ensures Tracks(l, l')
  {
    hide Promote, Rivals;
    PromoteCounts(l, id, now, l');
    PromoteShape(l, id, now, l');
    assert l'.rows[id] != l.rows[id];
  }

  lemma PromoteCounts(l: Ledger, id: Id, now: int, l': Ledger)
    requires Promote(l, id, now) == Ok(l')
    ensures l.log <= l'.log && l.generation < l'.generation && id in l.rows && l.rows[id].status.Quarantined?
  {
    hide SupersedeRows;
  }

  lemma {:induction false} CollapseTracks(l: Ledger, f: Id -> string, ids: seq<Id>, now: int)
    requires forall k :: k in ids ==> k in l.rows
    ensures Tracks(l, Collapse(l, f, ids, now).l)
    decreases |ids|
  {
    if ids != [] {
      var group := Group(l.rows, f, ids);
      var l1 := Supersede(l, group[..|group| - 1], group[|group| - 1], now);
      SupersedeTracks(l, group[..|group| - 1], group[|group| - 1], now);
      CollapseTracks(l1, f, Others(f, ids, f(ids[0])), now);
      TracksTransitive(l, l1, Collapse(l, f, ids, now).l);
    }
  }

  lemma ConsolidateTracks(p: Policy, l: Ledger, now: int, l': Ledger)
    requires Consolidate(p, l, now) == Ok(l')
    ensures Tracks(l, l')
  {
    var c, k := ByContent(p, l, now), ByKey(p, l, now);
    CollapseTracks(l, ContentClass(p, l.rows), Listing(l.rows, ActiveIds(l.rows)), now);
    CollapseTracks(c.l, KeyClass(l.rows), Keyed(l.rows, c.keepers), now);
    TracksTransitive(l, c.l, k.l);
  }

  lemma SubmitTracks(p: Policy, l: Ledger, q: Proposal, l': Ledger)
    requires SubmitProposal(p, l, q) == Ok(l')
    ensures Tracks(l, l')
  {
    hide SubmitProposal, ProposalRow, RelatedInScope;
    SubmitCases(p, l, q, l');
  }

  lemma LoggedTracks(l: Ledger, l': Ledger, e: Event)
    requires Tracks(l, l')
    ensures Tracks(l, Logged(l', e))
  {
  }

  lemma ForgetTracks(p: Policy, l: Ledger, needle: string, now: int, l': Ledger)
    requires Forget(p, l, needle, now) == Ok(l')
    ensures Tracks(l, l')
  {
    hide Purge;
    if needle != "" {
      var ids := Listing(l.rows, Matching(p, l.rows, needle));
      PurgeTracks(l, ids, now);
      LoggedTracks(l, Purge(l, ids, now), l'.log[|l'.log| - 1]);
    }
  }

  lemma PurgeOneTracks(l: Ledger, id: Id, now: int, l': Ledger)
    requires Reject(l, id, now) == Ok(l') || ForgetRecord(l, id, now) == Ok(l')
    ensures Tracks(l, l')
  {
    hide Purge;
    PurgeTracks(l, [id], now);
    LoggedTracks(l, Purge(l, [id], now), l'.log[|l'.log| - 1]);
  }

  lemma ApplyTracks(p: Policy, l: Ledger, op: Op, l': Ledger)
    requires Apply(p, l, op) == Ok(l')
    ensures Tracks(l, l')
  {
    hide Tracks, Remember, ProposeAll, SubmitProposal, Promote, Reject, Consolidate, Forget, ForgetRecord;
    match op
    case OpRemember(intake) => RememberTracks(p, l, intake, l');
    case OpPropose(ds, episodes) => ProposeAllTracks(p, l, ds, episodes + l.rows.Keys);
    case OpSubmit(q) => SubmitTracks(p, l, q, l');
    case OpPromote(id, now) => PromoteTracks(l, id, now, l');
    case OpReject(id, now) => PurgeOneTracks(l, id, now, l');
    case OpCorrect(_, _, _, _, _, _) => CorrectTracks(p, l, op, l');
    case OpConsolidate(now) => ConsolidateTracks(p, l, now, l');
    case OpForget(needle, now) => ForgetTracks(p, l, needle, now, l');
    case OpForgetRecord(id, now) => PurgeOneTracks(l, id, now, l');
  }

  lemma StepTracks(p: Policy, l: Ledger, op: Op)
    ensures Tracks(l, Step(p, l, op))
  {
    if Apply(p, l, op).Ok? {
      ApplyTracks(p, l, op, Apply(p, l, op).value);
    }
  }
}
