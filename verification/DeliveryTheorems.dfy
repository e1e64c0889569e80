/** Exposure safety over every interleaving of delivery and lifecycle steps. */
module DeliveryTheorems {
  import opened Wrappers
  import opened Records
  import opened AuditLog
  import opened Operations
  import opened Lifecycle
  import opened Runs
  import opened Generations
  import opened Delivery

  // ---- the world invariant --------------------------------------------------

  /** While the generation stands still, every candidate is a row in scope. */
  ghost predicate SetFresh(l: Ledger, cs: CandidateSet) {
    && cs.generation <= l.generation
    && (cs.generation == l.generation ==>
          forall k :: k in cs.candidates ==> k in l.rows && InScope(l.rows[k], cs.scope))
  }

  /** Every record is an active row in scope and the context is its serialization, right now. */
  ghost predicate Current(p: Policy, rows: Rows, prep: Preparation) {
    && (forall k :: k in prep.recordIds ==> IsActive(rows, k) && k in rows && InScope(rows[k], prep.scope))
    && prep.context == Serialize(p, rows, prep.recordIds)
  }

  ghost predicate PrepFresh(p: Policy, l: Ledger, prep: Preparation) {
    && prep.generation <= l.generation
    && (prep.generation == l.generation ==> Current(p, l.rows, prep))
  }

  /** The audit log ties the preparation to a candidate set of its own scope that contains all its records. */
  ghost predicate Links(w: World, id: Id, prep: Preparation, e: Event) {
    && e.payload.preparation == Some(id) && e.payload.candidateSet.Some?
    && e.payload.candidateSet.value in w.sets
    && w.sets[e.payload.candidateSet.value].scope == prep.scope
    && forall k :: k in prep.recordIds ==> k in w.sets[e.payload.candidateSet.value].candidates
  }

  ghost predicate Linked(w: World, id: Id, prep: Preparation) {
    exists e :: e in LedgerOf(w, prep.scope.subject).log && Links(w, id, prep, e)
  }

  ghost predicate Inv(p: Policy, w: World) {
    && (forall s :: s in w.ledgers ==> Sound(w.ledgers[s]))
    && (forall x :: x in w.sets ==> SetFresh(LedgerOf(w, w.sets[x].scope.subject), w.sets[x]))
    && (forall x :: x in w.preps ==> PrepFresh(p, LedgerOf(w, w.preps[x].scope.subject), w.preps[x]))
    && (forall x :: x in w.preps ==> Linked(w, x, w.preps[x]))
    && (forall c :: c in w.exposures ==> w.exposures[c].preparation in w.preps)
    && (forall c, d ::
          (c in w.exposures && d in w.exposures && w.exposures[c].preparation == w.exposures[d].preparation) ==> c == d)
  }

  /** Ledgers may advance, sets may be added; sets and preparations already stored are untouched. */
  ghost predicate Advances(w: World, w': World) {
    && (forall s :: Tracks(LedgerOf(w, s), LedgerOf(w', s)))
    && (forall x :: x in w.sets ==> x in w'.sets && w'.sets[x] == w.sets[x])
    && (forall x :: x in w.preps ==> x in w'.preps && w'.preps[x] == w.preps[x])
    && (forall c :: c in w.exposures ==> c in w'.exposures && w'.exposures[c] == w.exposures[c])
  }

  lemma FreshPersists(p: Policy, l: Ledger, l': Ledger, cs: CandidateSet, prep: Preparation)
    requires Tracks(l, l')
    ensures SetFresh(l, cs) ==> SetFresh(l', cs)
    ensures PrepFresh(p, l, prep) ==> PrepFresh(p, l', prep)
  {
  }

  lemma LinkedPersists(w: World, w': World, id: Id, prep: Preparation)
    requires Advances(w, w') && Linked(w, id, prep)
    ensures Linked(w', id, prep)
  {
    var l, l' := LedgerOf(w, prep.scope.subject), LedgerOf(w', prep.scope.subject);
    var e :| e in l.log && Links(w, id, prep, e);
    assert Tracks(l, l');
    assert forall i :: 0 <= i < |l.log| ==> l.log[i] == l'.log[i];
    assert e in l'.log && Links(w', id, prep, e);
  }

  /** What was fresh and linked stays so when the world advances. */
  lemma Persists(p: Policy, w: World, w': World)
    requires Inv(p, w) && Advances(w, w')
    ensures forall x :: x in w.sets ==> x in w'.sets && SetFresh(LedgerOf(w', w'.sets[x].scope.subject), w'.sets[x])
    ensures forall x :: x in w.preps ==>
                          x in w'.preps && PrepFresh(p, LedgerOf(w', w'.preps[x].scope.subject), w'.preps[x])
                          && Linked(w', x, w'.preps[x])
  {
    forall x | x in w.sets
      ensures x in w'.sets && SetFresh(LedgerOf(w', w'.sets[x].scope.subject), w'.sets[x])
    {
      var s := w.sets[x].scope.subject;
      FreshPersists(p, LedgerOf(w, s), LedgerOf(w', s), w.sets[x], Preparation(w.sets[x].scope, 0, 0, [], ""));
    }
    forall x | x in w.preps
      ensures x in w'.preps && PrepFresh(p, LedgerOf(w', w'.preps[x].scope.subject), w'.preps[x])
      ensures Linked(w', x, w'.preps[x])
    {
      var s := w.preps[x].scope.subject;
      FreshPersists(p, LedgerOf(w, s), LedgerOf(w', s), CandidateSet(w.preps[x].scope, 0, 0, []), w.preps[x]);
      LinkedPersists(w, w', x, w.preps[x]);
    }
  }

  lemma EmptySound()
    ensures Sound(EMPTY)
  {
  }

  /** An event that only names existing records keeps a ledger sound. */
  lemma EventSound(l: Ledger, e: Event)
    requires Sound(l) && e.kind.Note? && Members(e.payload.recordIds) <= l.rows.Keys
    requires e.payload.candidateIds == [] && e.payload.supersedes == e.payload.purged == []
             && e.payload.duplicates == e.payload.repaired == []
    ensures Sound(Logged(l, e))
  {
    assert KnownBy(e) == Members(e.payload.recordIds);
    Extend(l.rows, l.log, l.rows, e, {});
  }

  // ---- the four ways the world changes --------------------------------------

  lemma AdvancesTransitive(w: World, w1: World, w2: World)
    requires Advances(w, w1) && Advances(w1, w2)
    ensures Advances(w, w2)
  {
    forall s
      ensures Tracks(LedgerOf(w, s), LedgerOf(w2, s))
    {
      TracksTransitive(LedgerOf(w, s), LedgerOf(w1, s), LedgerOf(w2, s));
    }
  }

  lemma SameLedgers(w: World, w': World)
    requires w'.ledgers == w.ledgers
    requires forall x :: x in w.sets ==> x in w'.sets && w'.sets[x] == w.sets[x]
    requires forall x :: x in w.preps ==> x in w'.preps && w'.preps[x] == w.preps[x]
    requires forall c :: c in w.exposures ==> c in w'.exposures && w'.exposures[c] == w.exposures[c]
    ensures Advances(w, w')
  {
    forall s { Unmoved(LedgerOf(w, s)); }
  }

  ghost function SetLedger(w: World, subject: string, l: Ledger): World {
    w.(ledgers := w.ledgers[subject := l])
  }

  lemma LedgerAdvances(w: World, subject: string, l: Ledger)
    requires Tracks(LedgerOf(w, subject), l)
    ensures Advances(w, SetLedger(w, subject, l))
  {
    hide Tracks;
    assert forall s :: LedgerOf(SetLedger(w, subject, l), s) == if s == subject then l else LedgerOf(w, s);
    forall s
      ensures Tracks(LedgerOf(w, s), LedgerOf(SetLedger(w, subject, l), s))
    {
      Unmoved(LedgerOf(w, s));
    }
  }

  lemma Unmoved(l: Ledger)
    ensures Tracks(l, l)
  {
  }

  lemma KeepLedger(p: Policy, w: World, subject: string, l: Ledger)
    requires Inv(p, w) && Tracks(LedgerOf(w, subject), l) && Sound(l)
    ensures Inv(p, SetLedger(w, subject, l)) && Advances(w, SetLedger(w, subject, l))
  {
    hide Sound, Tracks, SetFresh, PrepFresh, Linked;
    LedgerAdvances(w, subject, l);
    Persists(p, w, SetLedger(w, subject, l));
  }

  lemma KeepSet(p: Policy, w: World, id: Id, cs: CandidateSet)
    requires Inv(p, w) && id !in w.sets && SetFresh(LedgerOf(w, cs.scope.subject), cs)
    ensures Inv(p, w.(sets := w.sets[id := cs])) && Advances(w, w.(sets := w.sets[id := cs]))
  {
    hide Sound, Tracks, SetFresh, PrepFresh, Linked;
    var w' := w.(sets := w.sets[id := cs]);
    SameLedgers(w, w');
    Persists(p, w, w');
  }

  lemma KeepPrep(p: Policy, w: World, id: Id, prep: Preparation)
    requires Inv(p, w) && id !in w.preps && PrepFresh(p, LedgerOf(w, prep.scope.subject), prep) && Linked(w, id, prep)
    ensures Inv(p, w.(preps := w.preps[id := prep])) && Advances(w, w.(preps := w.preps[id := prep]))
  {
    hide Sound, Tracks, SetFresh, PrepFresh, Linked;
    var w' := w.(preps := w.preps[id := prep]);
    SameLedgers(w, w');
    Persists(p, w, w');
    LinkedHere(w, w', id, prep);
  }

  lemma LinkedHere(w: World, w': World, id: Id, prep: Preparation)
    requires Linked(w, id, prep) && w'.ledgers == w.ledgers && w'.sets == w.sets
    ensures Linked(w', id, prep)
  {
    var e :| e in LedgerOf(w, prep.scope.subject).log && Links(w, id, prep, e);
    assert Links(w', id, prep, e);
  }

  lemma KeepExposure(p: Policy, w: World, c: Id, r: Receipt)
    requires Inv(p, w) && c !in w.exposures && r.preparation in w.preps && !AlreadyExposed(w, r.preparation)
    ensures Inv(p, w.(exposures := w.exposures[c := r])) && Advances(w, w.(exposures := w.exposures[c := r]))
  {
    hide Sound, Tracks, SetFresh, PrepFresh, Linked;
    var w' := w.(exposures := w.exposures[c := r]);
    SameLedgers(w, w');
    Persists(p, w, w');
  }

  lemma KeepEvent(p: Policy, w: World, subject: string, e: Event)
    requires Inv(p, w) && e.kind.Note? && Members(e.payload.recordIds) <= LedgerOf(w, subject).rows.Keys
    requires e.payload.candidateIds == [] && e.payload.supersedes == e.payload.purged == []
             && e.payload.duplicates == e.payload.repaired == []
    ensures Inv(p, WithEvent(w, subject, e)) && Advances(w, WithEvent(w, subject, e))
  {
    EmptySound();
    EventSound(LedgerOf(w, subject), e);
    KeepLedger(p, w, subject, Logged(LedgerOf(w, subject), e));
  }

  // ---- each action keeps the invariant --------------------------------------

  lemma MutateKeeps(p: Policy, w: World, subject: string, op: Op)
    requires Inv(p, w)
    ensures Inv(p, Act(p, w, Mutate(subject, op))) && Advances(w, Act(p, w, Mutate(subject, op)))
  {
    EmptySound();
    StepSound(p, LedgerOf(w, subject), op);
    StepTracks(p, LedgerOf(w, subject), op);
    KeepLedger(p, w, subject, Step(p, LedgerOf(w, subject), op));
  }

  lemma DurableRows(w: World, q: SetRequest, w': World)
    requires CreateSet(w, q) == Ok(w')
    ensures forall k :: k in Durable(q) ==>
                          k in LedgerOf(w, q.scope.subject).rows && InScope(LedgerOf(w, q.scope.subject).rows[k], q.scope)
  {
    hide Durable, Nominated;
    var l := LedgerOf(w, q.scope.subject);
    forall k | k in Durable(q)
      ensures k in l.rows && InScope(l.rows[k], q.scope)
    {
      var n :| n in Nominated(q) && n.id == k;
      assert Eligible(l.rows, ExcludedOf(w, q.scope.subject), q, n);
    }
  }

  lemma CreateSetKeeps(p: Policy, w: World, q: SetRequest, w': World)
    requires Inv(p, w) && CreateSet(w, q) == Ok(w')
    ensures Inv(p, w') && Advances(w, w')
  {
    hide Inv, Advances, Durable, Nominated;
    DurableRows(w, q, w');
    var e := Event(EventKind.Note("memory.eligible_candidates_v1"), None,
                   Payload(recordIds := Durable(q), candidateSet := Some(q.id)));
    var w1 := WithEvent(w, q.scope.subject, e);
    KeepEvent(p, w, q.scope.subject, e);
    KeepSet(p, w1, q.id, w'.sets[q.id]);
    AdvancesTransitive(w, w1, w');
  }

  lemma AcceptedRows(p: Policy, w: World, q: ContextRequest, w': World, prep: Preparation)
    requires Inv(p, w) && Prepare(p, w, q) == Ok(w') && q.id in w'.preps && w'.preps[q.id] == prep
    ensures prep.scope == q.scope && q.setId in w.sets
    ensures Current(p, LedgerOf(w, q.scope.subject).rows, prep)
    ensures forall k :: k in prep.recordIds ==> k in w.sets[q.setId].candidates
  {
    hide Sound, PrepFresh, Linked, Serialize;
    var l := LedgerOf(w, q.scope.subject);
    assert prep.recordIds == Accepted(p, l.rows, q);
    hide Accepted;
    assert SetFresh(l, w.sets[q.setId]);
    forall k | k in prep.recordIds
      ensures IsActive(l.rows, k) && k in l.rows && InScope(l.rows[k], q.scope) && k in w.sets[q.setId].candidates
    {
      assert k in q.recordIds;
    }
  }

  lemma PrepareKeeps(p: Policy, w: World, q: ContextRequest, w': World)
    requires Inv(p, w) && Prepare(p, w, q) == Ok(w')
    ensures Inv(p, w') && Advances(w, w')
  {
    hide Inv, Advances, Accepted, Serialize;
    var prep := w'.preps[q.id];
    AcceptedRows(p, w, q, w', prep);
    var e := Event(EventKind.Note("memory.context_prepared_v1"), None,
                   Payload(recordIds := prep.recordIds, preparation := Some(q.id), candidateSet := Some(q.setId)));
    var w1 := WithEvent(w, q.scope.subject, e);
    KeepEvent(p, w, q.scope.subject, e);
    assert e in LedgerOf(w1, q.scope.subject).log && Links(w1, q.id, prep, e);
    KeepPrep(p, w1, q.id, prep);
    AdvancesTransitive(w, w1, w');
  }

  lemma PrepCurrent(p: Policy, w: World, id: Id)
    requires Inv(p, w) && id in w.preps
    requires w.preps[id].generation == LedgerOf(w, w.preps[id].scope.subject).generation
    ensures Current(p, LedgerOf(w, w.preps[id].scope.subject).rows, w.preps[id])
  {
    hide Sound, SetFresh, Linked, Current;
  }

  lemma ConfirmKeeps(p: Policy, w: World, c: Confirmation, w': World, receipt: Receipt)
    requires Inv(p, w) && Confirm(w, c) == Ok((w', Fresh(receipt)))
    ensures Inv(p, w') && Advances(w, w')
  {
    hide Inv, Advances, Serialize;
    var prep := w.preps[c.preparation];
    PrepCurrent(p, w, c.preparation);
    var e := Event(EventKind.Note("memory.context_injected"), None,
                   Payload(recordIds := prep.recordIds, preparation := Some(c.preparation)));
    var w1 := WithEvent(w, c.scope.subject, e);
    KeepEvent(p, w, c.scope.subject, e);
    KeepExposure(p, w1, c.id, receipt);
    AdvancesTransitive(w, w1, w');
  }

  lemma ExcludeKeeps(p: Policy, w: World, subject: string, id: Id, excluded: bool)
    requires Inv(p, w)
    ensures Inv(p, Exclude(w, subject, id, excluded)) && Advances(w, Exclude(w, subject, id, excluded))
  {
    hide Inv, Advances;
    Standing(w);
    if IsActive(LedgerOf(w, subject).rows, id) {
      var e := Event(EventKind.Note(if excluded then "memory.retrieval_excluded" else "memory.retrieval_restored"), Some(id));
      KeepEvent(p, w, subject, e);
      IgnoresExclusions(p, WithEvent(w, subject, e), Exclude(w, subject, id, excluded));
      AdvancesTransitive(w, WithEvent(w, subject, e), Exclude(w, subject, id, excluded));
    }
  }

  lemma IgnoresExclusions(p: Policy, w: World, w': World)
    requires Inv(p, w) && w' == w.(excluded := w'.excluded)
    ensures Inv(p, w') && Advances(w, w')
  {
    hide Sound, Tracks, SetFresh, PrepFresh, Linked;
    SameLedgers(w, w');
    Persists(p, w, w');
  }

  lemma Standing(w: World)
    ensures Advances(w, w)
  {
    forall s { Unmoved(LedgerOf(w, s)); }
  }

  lemma ActKeeps(p: Policy, w: World, a: Action)
    requires Inv(p, w)
    ensures Inv(p, Act(p, w, a)) && Advances(w, Act(p, w, a))
  {
    hide Inv, Advances, CreateSet, Prepare, Step, Exclude;
    Standing(w);
    match a
    case Mutate(subject, op) => MutateKeeps(p, w, subject, op);
    case SetExcluded(subject, id, excluded) => ExcludeKeeps(p, w, subject, id, excluded);
    case DoCreateSet(q) =>
      if CreateSet(w, q).Ok? { CreateSetKeeps(p, w, q, CreateSet(w, q).value); }
    case DoPrepare(q) =>
      if Prepare(p, w, q).Ok? { PrepareKeeps(p, w, q, Prepare(p, w, q).value); }
    case DoConfirm(c) =>
      if Confirm(w, c).Ok? && Confirm(w, c).value.1.Fresh? {
        ConfirmKeeps(p, w, c, Confirm(w, c).value.0, Confirm(w, c).value.1.receipt);
      }
  }

  lemma {:induction false} Reachable(p: Policy, actions: seq<Action>)
    ensures Inv(p, Reach(p, actions))
  {
    if actions != [] {
      Reachable(p, actions[..|actions| - 1]);
      ActKeeps(p, Reach(p, actions[..|actions| - 1]), actions[|actions| - 1]);
    }
  }

  // ---- the theorems ---------------------------------------------------------

  /** A receipt that is not a replay names a preparation and, through the log, a candidate set of its own
      scope holding every exposed record; each record is at that moment active and in scope, and the
      exposed context is the serialization of the current rows. */
  lemma ExposureIsFaithful(p: Policy, actions: seq<Action>, c: Confirmation, w': World, receipt: Receipt)
    requires Confirm(Reach(p, actions), c) == Ok((w', Fresh(receipt)))
    ensures var w := Reach(p, actions);
            && receipt.preparation in w.preps
            && var prep := w.preps[receipt.preparation];
            && prep.scope == receipt.scope == c.scope
            && Linked(w, receipt.preparation, prep)
            && Current(p, LedgerOf(w, receipt.scope.subject).rows, prep)
            && receipt.context == prep.context
            && !AlreadyExposed(w, receipt.preparation)
  {
    hide Sound, SetFresh, Linked, Current, Reach, AlreadyExposed;
    Reachable(p, actions);
  }

  /** No preparation is exposed twice. */
  lemma ExposedOnce(p: Policy, actions: seq<Action>, c: Id, d: Id)
    requires c in Reach(p, actions).exposures && d in Reach(p, actions).exposures
    requires Reach(p, actions).exposures[c].preparation == Reach(p, actions).exposures[d].preparation
    ensures c == d
  {
    Reachable(p, actions);
  }

  lemma {:induction false} ExposuresStay(p: Policy, actions: seq<Action>, i: nat, c: Id)
    requires i <= |actions| && c in Reach(p, actions[..i]).exposures
    ensures c in Reach(p, actions).exposures
    ensures Reach(p, actions).exposures[c] == Reach(p, actions[..i]).exposures[c]
  {
    if i == |actions| {
      assert actions[..i] == actions;
    } else {
      var init := actions[..|actions| - 1];
      assert init[..i] == actions[..i];
      ExposuresStay(p, init, i, c);
      Reachable(p, init);
      ActKeeps(p, Reach(p, init), actions[|actions| - 1]);
    }
  }

  /** Repeating a confirmation id, however much later and whatever else it says, returns the first
      receipt (for the scope it names) and changes nothing, the audit log included. */
  lemma ReplayIsSilent(p: Policy, actions: seq<Action>, i: nat, first: Confirmation, later: Confirmation,
                       w': World, receipt: Receipt)
    requires i < |actions| && actions[i] == DoConfirm(first) && later.id == first.id
    requires Confirm(Reach(p, actions[..i]), first) == Ok((w', Fresh(receipt)))
    ensures Confirm(Reach(p, actions), later) == Ok((Reach(p, actions), Replayed(receipt.(scope := later.scope))))
  {
    assert actions[..i + 1][..i] == actions[..i];
    assert Reach(p, actions[..i + 1]) == w';
    ExposuresStay(p, actions, i + 1, first.id);
  }

  /** Delivery steps never disturb record integrity: every subject still verifies. */
  lemma WorldVerifies(p: Policy, actions: seq<Action>, subject: string)
    ensures var l := LedgerOf(Reach(p, actions), subject); Accepts(Summarize(l.log), l.rows)
  {
    Reachable(p, actions);
    EmptySound();
  }

  /** The packed context respects its budget, unless even the bare envelope does not. */
  lemma ContextFits(p: Policy, rows: Rows, q: ContextRequest)
    requires forall k :: k in q.recordIds ==> k in rows
    ensures |Serialize(p, rows, Accepted(p, rows, q))| <= q.budget || Accepted(p, rows, q) == []
  {
    hide Block;
    if Accepted(p, rows, q) != [] {
      PackedFits(p, rows, Requested(q), |HEADER| + |FOOTER|, q.budget);
    }
  }

  lemma {:induction false} PackedFits(p: Policy, rows: Rows, ids: seq<Id>, used: nat, budget: int)
    requires forall k :: k in ids ==> k in rows
    requires Packed(p, rows, ids, used, budget) != []
    ensures used + |Blocks(p, rows, Packed(p, rows, ids, used, budget))| <= budget
  {
    hide Block, Blocks;
    var size := |Block(p, ids[0], rows[ids[0]])|;
    var rest := Packed(p, rows, ids[1..], used + size, budget);
    assert Packed(p, rows, ids, used, budget) == [ids[0]] + rest;
    hide Packed;
    BlocksCons(p, rows, ids[0], rest);
    if rest != [] {
      PackedFits(p, rows, ids[1..], used + size, budget);
    } else {
      NoBlocks(p, rows);
    }
  }

  lemma {:induction false} BlocksCons(p: Policy, rows: Rows, id: Id, ids: seq<Id>)
    requires id in rows && forall k :: k in ids ==> k in rows
    ensures |Blocks(p, rows, [id] + ids)| == |Block(p, id, rows[id])| + |Blocks(p, rows, ids)|
    decreases |ids|
  {
    if ids == [] {
      assert [id] + ids == [id];
      assert [id][..0] == [];
    } else {
      var n := |ids| - 1;
      assert ([id] + ids)[..n + 1] == [id] + ids[..n];
      BlocksCons(p, rows, id, ids[..n]);
    }
  }

  // ---- undisturbed delivery succeeds ----------------------------------------

  /** A request that nominates one record and a ranker that keeps it. */
  ghost predicate NominatesOne(w: World, q: SetRequest, k: Id) {
    && q.nominees == [Nominee(k, "")] && q.window >= 1 && q.limit >= 1 && q.aggregate([k]) == [k] && !q.remote
    && IsActive(LedgerOf(w, q.scope.subject).rows, k) && k !in ExcludedOf(w, q.scope.subject)
    && InScope(LedgerOf(w, q.scope.subject).rows[k], q.scope)
  }

  lemma OneCandidate(w: World, q: SetRequest, k: Id)
    requires NominatesOne(w, q, k)
    ensures Durable(q) == [k] && Nominated(q) == q.nominees
  {
    assert Prefix(q.nominees, q.window) == q.nominees;
    assert q.nominees[1..] == [];
    assert Unique(q.nominees, {}) == q.nominees;
    var ids := Ids(Nominated(q));
    assert ids == [k];
    assert [k][1..] == [];
    assert Within([k], [k]) == [k];
  }

  lemma SetSucceeds(w: World, q: SetRequest, k: Id)
    requires NominatesOne(w, q, k) && q.id !in w.sets
    ensures CreateSet(w, q).Ok?
    ensures var w1, l := CreateSet(w, q).value, LedgerOf(w, q.scope.subject);
            && q.id in w1.sets && w1.sets[q.id] == CandidateSet(q.scope, l.generation, q.now + SET_LIFETIME, [k])
            && Quiet(w, w1, q.scope.subject) && w1.preps == w.preps
  {
    OneCandidate(w, q, k);
    hide Durable, Nominated;
    assert Eligible(LedgerOf(w, q.scope.subject).rows, ExcludedOf(w, q.scope.subject), q, q.nominees[0]);
  }

  /** Rows, generation and exclusions of the subject and the exposures are as before. */
  ghost predicate Quiet(w: World, w': World, subject: string) {
    && LedgerOf(w', subject).rows == LedgerOf(w, subject).rows
    && LedgerOf(w', subject).generation == LedgerOf(w, subject).generation
    && w'.excluded == w.excluded && w'.exposures == w.exposures
  }

  lemma PrepareSucceeds(p: Policy, w: World, r: ContextRequest, k: Id)
    requires r.setId in w.sets && w.sets[r.setId].scope == r.scope && w.sets[r.setId].candidates == [k]
    requires w.sets[r.setId].generation == LedgerOf(w, r.scope.subject).generation && r.now <= w.sets[r.setId].expires
    requires r.recordIds == [k] && IsActive(LedgerOf(w, r.scope.subject).rows, k)
    requires k !in ExcludedOf(w, r.scope.subject) && r.id !in w.preps
    ensures Prepare(p, w, r).Ok?
    ensures var w1 := Prepare(p, w, r).value;
            && r.id in w1.preps && w1.preps[r.id].scope == r.scope
            && w1.preps[r.id].generation == LedgerOf(w, r.scope.subject).generation
            && w1.preps[r.id].expires == r.now + PREPARATION_LIFETIME
            && w1.preps[r.id].recordIds == Delivered(p, w, r, k)
            && w1.preps[r.id].context == Serialize(p, LedgerOf(w, r.scope.subject).rows, Delivered(p, w, r, k))
            && Quiet(w, w1, r.scope.subject)
  {
    OneAccepted(p, LedgerOf(w, r.scope.subject).rows, r, k);
    hide Accepted, Serialize, Block;
  }

  /** The frame and the record's block stay within the budget. */
  predicate FitsAlone(p: Policy, rows: Rows, k: Id, budget: int)
    requires k in rows
  {
    |HEADER| + |FOOTER| + |Block(p, k, rows[k])| <= budget
  }

  /** What a request for one active record delivers: that record if its block fits, else nothing. */
  function Delivered(p: Policy, w: World, r: ContextRequest, k: Id): (ids: seq<Id>)
    requires IsActive(LedgerOf(w, r.scope.subject).rows, k)
    ensures forall x :: x in ids ==> x == k
  {
    if FitsAlone(p, LedgerOf(w, r.scope.subject).rows, k, r.budget) then [k] else []
  }

  lemma OneAccepted(p: Policy, rows: Rows, r: ContextRequest, k: Id)
    requires r.recordIds == [k] && k in rows
    ensures Accepted(p, rows, r) == if FitsAlone(p, rows, k, r.budget) then [k] else []
  {
    hide Block;
    assert r.recordIds[1..] == [];
    assert Dedupe(r.recordIds, {}) == [k] + Dedupe(r.recordIds[1..], {} + {r.recordIds[0]});
    assert Requested(r) == [k];
    assert [k][1..] == [];
  }

  /** If nothing changes in between, nominating an eligible record, preparing it within the lifetime of the
      candidate set and confirming the prepared text within the lifetime of the preparation always succeeds; the
      context holds the record exactly when its block fits the budget. */
  lemma UndisturbedDeliverySucceeds(p: Policy, w: World, q: SetRequest, k: Id, r: ContextRequest, c: Confirmation)
    requires NominatesOne(w, q, k) && q.id !in w.sets
    requires r.setId == q.id && r.scope == q.scope && r.recordIds == [k] && r.id !in w.preps
    requires r.now <= q.now + SET_LIFETIME && c.now <= r.now + PREPARATION_LIFETIME
    requires c.preparation == r.id && c.scope == q.scope && c.id !in w.exposures && !AlreadyExposed(w, r.id)
    ensures CreateSet(w, q).Ok? && Prepare(p, CreateSet(w, q).value, r).Ok?
    ensures var w2 := Prepare(p, CreateSet(w, q).value, r).value;
            && r.id in w2.preps && w2.preps[r.id].recordIds == Delivered(p, w, r, k)
            && w2.preps[r.id].context == Serialize(p, LedgerOf(w, q.scope.subject).rows, Delivered(p, w, r, k))
            && (c.context == w2.preps[r.id].context ==> Confirm(w2, c).Ok? && Confirm(w2, c).value.1.Fresh?)
            && (c.context != w2.preps[r.id].context ==> Confirm(w2, c).Err?)
  {
    hide CreateSet, Prepare, Serialize, FitsAlone;
    SetSucceeds(w, q, k);
    PrepareSucceeds(p, CreateSet(w, q).value, r, k);
  }
}
