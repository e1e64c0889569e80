/** What single operations achieve, stated without their definitions, and the idempotence of submissions
    over whole runs. */
module Outcomes {
  import opened Wrappers
  import opened Records
  import opened Operations
  import opened Lifecycle
  import opened Admissions
  import opened Consolidation
  import opened Runs

  // ---- forgetting -----------------------------------------------------------

  /** A purged row: no content, no key, no payload, and no way back. */
  predicate IsPurged(r: Record, was: Record) {
    r.status.Tombstoned? && r.content == "" && r.factKey.None? && r.raw == PURGED_RAW
    && r.createdAt == was.createdAt && r.provenance == was.provenance && r.tier == was.tier
  }

  /** Exactly the rows of `ids` that were live are purged; every other row is untouched. */
  ghost predicate PurgesExactly(rows: Rows, rows': Rows, ids: set<Id>) {
    && rows'.Keys == rows.Keys
    && forall k :: k in rows ==> if k in ids && Live(rows, k) then IsPurged(rows'[k], rows[k]) else rows'[k] == rows[k]
  }

  /** The row mentions the text, up to case. */
  predicate Mentions(p: Policy, r: Record, needle: string) {
    exists i :: 0 <= i <= |p.lower(r.content)| && p.lower(needle) <= p.lower(r.content)[i..]
  }

  /** `forget` always succeeds. It purges exactly the live rows that mention the text, so that none is left; asked
      to forget nothing, it notes the request and changes no row. */
  lemma ForgetIsExact(p: Policy, l: Ledger, needle: string, now: int)
    ensures Forget(p, l, needle, now).Ok? && |Forget(p, l, needle, now).value.log| == |l.log| + 1
    ensures needle == "" ==> Forget(p, l, needle, now).value.rows == l.rows
    ensures needle != "" ==>
              var rows' := Forget(p, l, needle, now).value.rows;
              && PurgesExactly(l.rows, rows', set k | k in l.rows && Mentions(p, l.rows[k], needle))
              && forall k :: Live(rows', k) ==> !Mentions(p, rows'[k], needle)
  {
    hide Mentions, Contains, IsPurged;
    forall r: Record { MentionsIs(p, r, needle); }
    PurgedIs(l.rows, now);
  }

  lemma MentionsIs(p: Policy, r: Record, needle: string)
    ensures Contains(p.lower(needle), p.lower(r.content)) <==> Mentions(p, r, needle)
  {
  }

  lemma PurgedIs(rows: Rows, now: int)
    ensures forall k :: k in rows ==> IsPurged(Purged(rows[k], now), rows[k]) && Purged(rows[k], now).status.Tombstoned?
  {
  }

  /** `forget_record` purges a live row and `reject` a quarantined one; neither works on any other row. */
  lemma PurgingOneIsExact(l: Ledger, id: Id, now: int)
    ensures ForgetRecord(l, id, now).Ok? <==> Live(l.rows, id)
    ensures Reject(l, id, now).Ok? <==> id in l.rows && l.rows[id].status.Quarantined?
    ensures ForgetRecord(l, id, now).Ok? ==> PurgesExactly(l.rows, ForgetRecord(l, id, now).value.rows, {id})
    ensures Reject(l, id, now).Ok? ==> PurgesExactly(l.rows, Reject(l, id, now).value.rows, {id})
  {
  }

  // ---- promoting ------------------------------------------------------------

  /** Promotion works on quarantined rows only: the row becomes active and confirmed by the user and is otherwise
      kept; every other active row of its fact slot is retired in its favour, and nothing else changes. */
  lemma PromotionIsExact(l: Ledger, id: Id, now: int)
    ensures Promote(l, id, now).Ok? <==> id in l.rows && l.rows[id].status.Quarantined?
    ensures Promote(l, id, now).Ok? ==>
              var rows' := Promote(l, id, now).value.rows;
              && rows'.Keys == l.rows.Keys
              && IsPromoted(rows'[id], l.rows[id], now)
              && forall k :: k in l.rows && k != id ==>
                               if IsActive(l.rows, k) && l.rows[k].factKey == l.rows[id].factKey && Truthy(l.rows[id].factKey)
                               then RetiredFor(l.rows[k], rows'[k], id, now) else rows'[k] == l.rows[k]
  {
    if Promote(l, id, now).Ok? {
      hide Promote, Rivals;
      PromotionGuard(l, id, now);
      PromoteShape(l, id, now, Promote(l, id, now).value);
      RivalsAre(l, id, now);
    }
  }

  lemma PromotionGuard(l: Ledger, id: Id, now: int)
    ensures Promote(l, id, now).Ok? <==> id in l.rows && l.rows[id].status.Quarantined?
  {
  }

  lemma RivalsAre(l: Ledger, id: Id, now: int)
    requires id in l.rows
    ensures forall k :: k in Rivals(l, id, now)
                        <==> k != id && IsActive(l.rows, k) && l.rows[k].factKey == l.rows[id].factKey
                             && Truthy(l.rows[id].factKey)
  {
  }

  /** The row with its new status, tier and time; a typed payload becomes active, too. */
  predicate IsPromoted(r: Record, was: Record, now: int) {
    && r.status == Active && r.tier == UserConfirmed && r.updatedAt == Some(now)
    && r.content == was.content && r.provenance == was.provenance && r.createdAt == was.createdAt
    && r.supersedes == was.supersedes && r.factKey == was.factKey
    && r.raw.(unit := was.raw.unit) == was.raw
    && (was.raw.unit.None? ==> r.raw.unit.None?)
    && (was.raw.unit.Some? ==> r.raw.unit == Some(was.raw.unit.value.(lifecycle := Active)))
  }

  // ---- correcting -----------------------------------------------------------

  lemma CorrectionSteps(p: Policy, l: Ledger, id: Id, text: string, newId: Id, now: int, pr: Provenance, l': Ledger)
    returns (c: Candidate, stored: Rows)
    requires Correct(p, l, id, text, false, newId, now, pr) == Ok(l')
    ensures IsActive(l.rows, id) && c == Correction(p, l, id, text, newId, now, pr)
    ensures Stores(l.rows, stored, c) && l'.rows == SupersedeRows(stored, [id], newId, now)
  {
    hide Remember, Known, Stores;
    c := Correction(p, l, id, text, newId, now, pr);
    InterpretationExactly(p, l, c);
    stored := Remember(p, l, Interpreted(c)).value.rows;
  }

  lemma SupersedeOne(rows: Rows, id: Id, keeper: Id, now: int)
    ensures forall k :: k in rows && k != id ==> SupersedeRows(rows, [id], keeper, now)[k] == rows[k]
    ensures IsActive(rows, id) ==> RetiredFor(rows[id], SupersedeRows(rows, [id], keeper, now)[id], keeper, now)
    ensures id in rows && !rows[id].status.Active? ==> SupersedeRows(rows, [id], keeper, now)[id] == rows[id]
  {
  }

  /** When a correction succeeds: the record is active, the corrected text is new, allowed and short enough, no
      active row says it already, and the new id is free. */
  lemma CorrectionSucceedsExactly(p: Policy, l: Ledger, id: Id, text: string, refused: bool, newId: Id, now: int,
                                  pr: Provenance)
    ensures Correct(p, l, id, text, refused, newId, now, pr).Ok?
            <==> && IsActive(l.rows, id) && text != "" && text != p.strip(l.rows[id].content) && !refused
                 && |p.note(text)| <= 2000 && !Known(p, l.rows, p.note(text), false) && newId !in l.rows
  {
    hide Remember, Known;
    if IsActive(l.rows, id) {
      InterpretationExactly(p, l, Correction(p, l, id, text, newId, now, pr));
    }
  }

  /** `correct_record` leaves one new active row with the corrected text, trusted and without labels, and the
      corrected row superseded with its text kept as history. */
  lemma CorrectionReplaces(p: Policy, l: Ledger, id: Id, text: string, newId: Id, now: int, pr: Provenance, l': Ledger)
    requires Correct(p, l, id, text, false, newId, now, pr) == Ok(l')
    ensures id in l.rows && l'.rows.Keys == l.rows.Keys + {newId} && newId !in l.rows
    ensures IsActive(l'.rows, newId) && l'.rows[newId].content == p.note(text)
            && l'.rows[newId].tier.TrustedUser? && l'.rows[newId].raw.taint == {}
            && l'.rows[newId].createdAt == now && l'.rows[newId].provenance == pr
            && l'.rows[newId].factKey
               == Some(p.normalize(if Truthy(l.rows[id].factKey) then l.rows[id].factKey.value
                                   else "correction-" + p.idText(id)))
    ensures forall k :: k in l.rows && k != id ==>
                          if IsActive(l.rows, k) && l.rows[k].factKey == l'.rows[newId].factKey != Some("")
                          then RetiredFor(l.rows[k], l'.rows[k], newId, now) else l'.rows[k] == l.rows[k]
    ensures RetiredFor(l.rows[id], l'.rows[id], newId, now)
  {
    hide Correct, SupersedeRows;
    var c, stored := CorrectionSteps(p, l, id, text, newId, now, pr, l');
    SupersedeOne(stored, id, newId, now);
  }

  // ---- submitting -----------------------------------------------------------

  /** A submitted proposal becomes active exactly when it is a plain addition of non-sensitive content from
      trusted sources, none of its parents is tainted, and its fact slot is free; otherwise it waits for review. */
  lemma SubmissionActivates(p: Policy, l: Ledger, q: Proposal, l': Ledger)
    requires SubmitProposal(p, l, q) == Ok(l') && q.id !in l.rows && q.id in l'.rows
    ensures RelatedInScope(l.rows, q) && SourcesBound(q)
    ensures IsActive(l'.rows, q.id)
            <==> && q.additive && q.sensitivity !in {"sensitive", "restricted"} && TrustedSource(q)
                 && (forall k :: k in q.related ==> l.rows[k].raw.taint == {} && !l.rows[k].tier.Untrusted?
                                                    && l.rows[k].status.Active?)
                 && ActiveWithKey(l.rows, CanonicalKey(p, q)) == {}
    ensures !IsActive(l'.rows, q.id) ==> l'.rows[q.id].status.Quarantined?
  {
    hide FindDuplicate, SourcesBound, TrustedSource, ActiveWithKey, CanonicalKey;
    assert RelatedInScope(l.rows, q);
    CleanParents(l.rows, q.related);
  }

  lemma CleanParents(rows: Rows, related: seq<Id>)
    requires forall k :: k in related ==> k in rows
    ensures !ParentTainted(rows, related)
            <==> forall k :: k in related ==> rows[k].raw.taint == {} && !rows[k].tier.Untrusted? && rows[k].status.Active?
  {
    assert forall k, x :: k in related && x in rows[k].raw.taint ==> x in ParentLabels(rows, related);
  }

  // ---- who may tombstone, who may activate ----------------------------------

  /** The operations that purge a record: two name it, one names text it contains. */
  predicate Purges(p: Policy, op: Op, r: Record, k: Id) {
    || (op.OpReject? && op.id == k)
    || (op.OpForgetRecord? && op.id == k)
    || (op.OpForget? && op.needle != "" && Mentions(p, r, op.needle))
  }

  lemma PlainStaysLive(rows: Rows, rows': Rows, k: Id)
    requires Plain(rows, rows') && Live(rows, k)
    ensures Live(rows', k)
  {
  }

  lemma ApplyStaysLive(p: Policy, l: Ledger, op: Op, l': Ledger, k: Id)
    requires Accounted(l, {}) && Live(l.rows, k) && Apply(p, l, op) == Ok(l') && !Purges(p, op, l.rows[k], k)
    ensures Live(l'.rows, k)
  {
    hide Accounted, Keeps, Plain, Live, Remember, ProposeAll, SubmitProposal, Promote, Reject, Correct, Consolidate, Forget,
         ForgetRecord, Mentions;
    match op
    case OpRemember(intake) =>
      RememberSound(p, l, intake, {});
      PlainStaysLive(l.rows, l'.rows, k);
    case OpPropose(ds, episodes) =>
      ProposeAllSound(p, l, ds, episodes + l.rows.Keys, {});
      PlainStaysLive(l.rows, l'.rows, k);
    case OpSubmit(q) =>
      SubmitStaysLive(p, l, q, l', k);
    case OpPromote(id, now) =>
      PromoteStaysLive(l, id, now, l', k);
    case OpCorrect(id, text, refused, newId, now, pr) =>
      CorrectIsSafe(p, l, id, text, refused, newId, now, pr, l', k);
    case OpConsolidate(now) =>
      ConsolidateSound(p, l, now, l', {});
      PlainStaysLive(l.rows, l'.rows, k);
    case OpReject(id, now) =>
      PurgeOneStaysLive(l, id, now, l', k);
    case OpForgetRecord(id, now) =>
      PurgeOneStaysLive(l, id, now, l', k);
    case OpForget(needle, now) =>
      ForgetStaysLive(p, l, needle, now, l', k);
  }

  lemma StepTombstones(p: Policy, l: Ledger, op: Op, k: Id)
    requires Sound(l) && Live(l.rows, k) && !Live(Step(p, l, op).rows, k)
    ensures Purges(p, op, l.rows[k], k)
  {
    hide Sound, Apply, Purges;
    SoundIsAccounted(l);
    if Apply(p, l, op).Ok? && !Purges(p, op, l.rows[k], k) {
      ApplyStaysLive(p, l, op, Apply(p, l, op).value, k);
    }
  }

  lemma SoundIsAccounted(l: Ledger)
    requires Sound(l)
    ensures Accounted(l, {})
  {
  }

  lemma CorrectIsSafe(p: Policy, l: Ledger, id: Id, text: string, refused: bool, newId: Id, now: int, pr: Provenance,
                      l': Ledger, k: Id)
    requires Accounted(l, {}) && Correct(p, l, id, text, refused, newId, now, pr) == Ok(l') && Live(l.rows, k)
    ensures Live(l'.rows, k)
  {
    hide Accounted, Plain, Remember;
    CorrectSound(p, l, id, text, newId, now, pr, l', {});
    PlainStaysLive(l.rows, l'.rows, k);
  }

  lemma SubmitStaysLive(p: Policy, l: Ledger, q: Proposal, l': Ledger, k: Id)
    requires SubmitProposal(p, l, q) == Ok(l') && Live(l.rows, k)
    ensures Live(l'.rows, k)
  {
    hide FindDuplicate, SourcesBound, RelatedInScope, ProposalRow, ActiveWithKey;
  }

  lemma PromoteStaysLive(l: Ledger, id: Id, now: int, l': Ledger, k: Id)
    requires Promote(l, id, now) == Ok(l') && Live(l.rows, k)
    ensures Live(l'.rows, k)
  {
    hide Promote;
    PromoteShape(l, id, now, l');
  }

  lemma PurgeOneStaysLive(l: Ledger, id: Id, now: int, l': Ledger, k: Id)
    requires Reject(l, id, now) == Ok(l') || ForgetRecord(l, id, now) == Ok(l')
    requires Live(l.rows, k) && k != id
    ensures Live(l'.rows, k)
  {
    hide Reject, ForgetRecord;
    PurgingOneIsExact(l, id, now);
  }

  lemma ForgetStaysLive(p: Policy, l: Ledger, needle: string, now: int, l': Ledger, k: Id)
    requires Forget(p, l, needle, now) == Ok(l') && Live(l.rows, k)
    requires needle == "" || !Mentions(p, l.rows[k], needle)
    ensures Live(l'.rows, k)
  {
    hide Mentions, Forget, IsPurged;
    ForgetIsExact(p, l, needle, now);
  }

  /** In every run, a record that was live and later is not was purged in between by an operation that names it
      or text it contained at that moment. */
  lemma {:induction false} OnlyRequestsTombstone(p: Policy, ops: seq<Op>, i: nat, k: Id) returns (j: nat)
    requires i <= |ops| && Live(Run(p, EMPTY, ops[..i]).rows, k) && !Live(Run(p, EMPTY, ops).rows, k)
    ensures i <= j < |ops| && Live(Run(p, EMPTY, ops[..j]).rows, k)
            && Purges(p, ops[j], Run(p, EMPTY, ops[..j]).rows[k], k)
    decreases |ops|
  {
    hide Step, Purges;
    assert i < |ops| by { assert ops[..|ops|] == ops; }
    var n := |ops| - 1;
    var init := ops[..n];
    assert init[..i] == ops[..i];
    if Live(Run(p, EMPTY, init).rows, k) {
      RunSound(p, init);
      StepTombstones(p, Run(p, EMPTY, init), ops[n], k);
      j := n;
    } else {
      j := OnlyRequestsTombstone(p, init, i, k);
      assert init[..j] == ops[..j] && init[j] == ops[j];
    }
  }

  /** In every run, a submitted record that is or was active without ever being promoted had earned it when it
      was submitted: a plain addition of non-sensitive content from trusted sources, with clean active parents
      and a free slot. */
  lemma UnpromotedAdmissionIsEarned(p: Policy, ops: seq<Op>, j: nat, q: Proposal)
    requires j < |ops| && ops[j] == OpSubmit(q)
    requires q.id !in Run(p, EMPTY, ops[..j]).rows && q.id in Run(p, EMPTY, ops[..j + 1]).rows
    requires q.id in Run(p, EMPTY, ops).rows
    requires Run(p, EMPTY, ops).rows[q.id].status.Active? || Run(p, EMPTY, ops).rows[q.id].status.Superseded?
    requires forall n: nat :: !Promotes(p, ops, n, q.id)
    ensures var rows := Run(p, EMPTY, ops[..j]).rows;
            && RelatedInScope(rows, q) && q.additive && q.sensitivity !in {"sensitive", "restricted"} && TrustedSource(q)
            && (forall k :: k in q.related ==> rows[k].raw.taint == {} && !rows[k].tier.Untrusted? && rows[k].status.Active?)
            && ActiveWithKey(rows, CanonicalKey(p, q)) == {}
  {
    hide Promotes, TrustedSource, ActiveWithKey, RelatedInScope, SubmitProposal;
    var l, l' := Run(p, EMPTY, ops[..j]), Run(p, EMPTY, ops[..j + 1]);
    assert ops[..j + 1][..j] == ops[..j] && ops[..j + 1][j] == OpSubmit(q);
    assert l' == Step(p, l, OpSubmit(q));
    assert SubmitProposal(p, l, q) == Ok(l');
    SubmissionActivates(p, l, q, l');
    if !IsActive(l'.rows, q.id) {
      var n := OnlyPromotionActivates(p, ops, j + 1, q.id);
      assert false;
    }
  }

  // ---- submissions are idempotent over runs ---------------------------------

  /** Recorded admissions are never dropped or replaced. */
  ghost predicate Keeps(l: Ledger, l': Ledger) {
    forall s :: s in l.proposals ==> s in l'.proposals && l'.proposals[s] == l.proposals[s]
  }

  lemma {:induction false} RememberAllKeeps(p: Policy, l: Ledger, cs: seq<Candidate>)
    requires RememberAll(p, l, cs).Ok?
    ensures RememberAll(p, l, cs).value.proposals == l.proposals
    decreases |cs|
  {
    hide Stored, FindDuplicate;
    if cs != [] {
      RememberAllKeeps(p, RememberOne(p, l, cs[0]).value, cs[1..]);
    }
  }

  lemma RememberKeeps(p: Policy, l: Ledger, intake: Intake)
    requires Remember(p, l, intake).Ok?
    ensures Remember(p, l, intake).value.proposals == l.proposals
  {
    hide RememberAll, FindDuplicate;
    match intake
    case Refused =>
    case Interpreted(c) =>
      var l1 := Noted(Noted(l, "episode.ingested"), "memory.semantic_interpretation_received");
      if RememberAll(p, l1, [c]).Ok? {
        RememberAllKeeps(p, l1, [c]);
      }
    case Extracted(cs, untrusted) =>
      if RememberAll(p, Noted(l, "episode.ingested"), cs).Ok? {
        RememberAllKeeps(p, Noted(l, "episode.ingested"), cs);
      }
  }

  lemma {:induction false} ProposeAllKeeps(p: Policy, l: Ledger, ds: seq<Draft>, sources: set<Id>)
    requires ProposeAll(p, l, ds, sources).Ok?
    ensures ProposeAll(p, l, ds, sources).value.proposals == l.proposals
    decreases |ds|
  {
    hide FindDuplicate;
    if ds != [] {
      ProposeAllKeeps(p, ProposeOne(p, l, ds[0], sources).value, ds[1..], sources);
    }
  }

  lemma {:induction false} CollapseKeeps(l: Ledger, f: Id -> string, ids: seq<Id>, now: int)
    requires forall k :: k in ids ==> k in l.rows
    ensures Collapse(l, f, ids, now).l.proposals == l.proposals
    decreases |ids|
  {
    hide Group, SupersedeRows, SupersedeSet;
    if ids != [] {
      var group := Group(l.rows, f, ids);
      CollapseKeeps(Supersede(l, group[..|group| - 1], group[|group| - 1], now), f, Others(f, ids, f(ids[0])), now);
    }
  }

  lemma SubmitKeeps(p: Policy, l: Ledger, q: Proposal, l': Ledger)
    requires SubmitProposal(p, l, q) == Ok(l')
    ensures Keeps(l, l') && Slot(q) in l'.proposals && l'.proposals[Slot(q)].digest == q.digest
    ensures q.key.DigestKey? ==> q.key.digest == q.digest
  {
    hide FindDuplicate, SourcesBound, RelatedInScope, ProposalRow, ActiveWithKey;
  }

  lemma StepKeeps(p: Policy, l: Ledger, op: Op)
    ensures Keeps(l, Step(p, l, op))
  {
    if Apply(p, l, op).Ok? {
      var l' := Apply(p, l, op).value;
      match op
      case OpRemember(intake) => RememberKeeps(p, l, intake);
      case OpPropose(ds, episodes) => ProposeAllKeeps(p, l, ds, episodes + l.rows.Keys);
      case OpSubmit(q) => SubmitKeeps(p, l, q, l');
      case OpCorrect(id, text, refused, newId, now, pr) =>
        hide Remember;
        RememberKeeps(p, l, Interpreted(Correction(p, l, id, text, newId, now, pr)));
      case OpConsolidate(now) =>
        hide Collapse;
        CollapseKeeps(l, ContentClass(p, l.rows), Listing(l.rows, ActiveIds(l.rows)), now);
        var c := ByContent(p, l, now);
        CollapseKeeps(c.l, KeyClass(l.rows), Keyed(l.rows, c.keepers), now);
      case OpPromote(_, _) =>
      case OpReject(_, _) =>
      case OpForget(_, _) =>
      case OpForgetRecord(_, _) =>
    }
  }

  lemma {:induction false} RunKeeps(p: Policy, l: Ledger, ops: seq<Op>)
    ensures Keeps(l, Run(p, l, ops))
    decreases |ops|
  {
    if ops != [] {
      RunKeeps(p, l, ops[..|ops| - 1]);
      StepKeeps(p, Run(p, l, ops[..|ops| - 1]), ops[|ops| - 1]);
    }
  }

  /** Once a proposal was admitted, submitting it again changes nothing, whatever happened in between; the same
      key with another payload is refused. */
  lemma ResubmissionIsSilent(p: Policy, l: Ledger, q: Proposal, l1: Ledger, ops: seq<Op>, other: Proposal)
    requires SubmitProposal(p, l, q) == Ok(l1)
    requires Slot(other) == Slot(q) && other.digest != q.digest
    ensures var l2 := Run(p, l1, ops);
            SubmitProposal(p, l2, q) == Ok(l2) && SubmitProposal(p, l2, other).Err?
  {
    SubmitKeeps(p, l, q, l1);
    RunKeeps(p, l1, ops);
    hide FindDuplicate, SourcesBound, RelatedInScope, ProposalRow, ActiveWithKey, Run, Admit;
  }
}
