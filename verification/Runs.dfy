/** Theorems over every run of the lifecycle operations, starting from an empty store. */
module Runs {
  import opened Wrappers
  import opened Records
  import opened AuditLog
  import opened Operations
  import opened Lifecycle
  import opened Consolidation

  lemma PromoteSound(l: Ledger, id: Id, now: int, l': Ledger, gone: set<Id>)
    requires Accounted(l, gone) && Promote(l, id, now) == Ok(l')
    ensures Keeps(l, l', gone) && Effect(l.rows, l'.rows, OpPromote(id, now))
  {
    hide IntactBut, UniqueKeys, Effect, RowOk, Promote;
    PromoteEffect(l, id, now, l');
    if UniqueKeys(l.rows) {
      PromoteUnique(l, id, now, l');
    }
    PromoteIntact(l, id, now, l', gone);
  }

  lemma RejectSound(l: Ledger, id: Id, now: int, l': Ledger, gone: set<Id>)
    requires Accounted(l, gone) && Reject(l, id, now) == Ok(l')
    ensures Keeps(l, l', gone) && Effect(l.rows, l'.rows, OpReject(id, now))
  {
    RejectionReads(id, PurgedIds(l.rows, [id]));
    hide Accounted, Keeps, Effect, KnownBy, ChangedBy;
    PurgeSound(l, [id], now, Event(RecordRejected, Some(id), Payload(purged := PurgedIds(l.rows, [id]))), gone);
    PurgeEffect(l.rows, [id], now, OpReject(id, now));
  }

  lemma ForgetRecordSound(l: Ledger, id: Id, now: int, l': Ledger, gone: set<Id>)
    requires Accounted(l, gone) && ForgetRecord(l, id, now) == Ok(l')
    ensures Keeps(l, l', gone) && Effect(l.rows, l'.rows, OpForgetRecord(id, now))
  {
    ForgetReads(Some(id), PurgedIds(l.rows, [id]));
    hide Accounted, Keeps, Effect, KnownBy, ChangedBy;
    PurgeSound(l, [id], now, Event(EventKind.Note("memory.forget"), Some(id), Payload(purged := PurgedIds(l.rows, [id]))), gone);
    PurgeEffect(l.rows, [id], now, OpForgetRecord(id, now));
  }

  lemma ApplySound(p: Policy, l: Ledger, op: Op, l': Ledger, gone: set<Id>)
    requires Accounted(l, gone) && Apply(p, l, op) == Ok(l')
    ensures Keeps(l, l', gone) && Effect(l.rows, l'.rows, op)
  {
    hide Accounted, Keeps, Effect, Plain, Remember, ProposeAll, SubmitProposal, Promote, Reject, Consolidate, Forget, ForgetRecord;
    match op
    case OpRemember(intake) =>
      RememberSound(p, l, intake, gone);
      PlainEffect(l.rows, l'.rows, op);
    case OpPropose(ds, episodes) =>
      ProposeAllSound(p, l, ds, episodes + l.rows.Keys, gone);
      PlainEffect(l.rows, l'.rows, op);
    case OpSubmit(q) =>
      SubmitSound(p, l, q, l', gone);
    case OpPromote(id, now) =>
      PromoteSound(l, id, now, l', gone);
    case OpReject(id, now) =>
      RejectSound(l, id, now, l', gone);
    case OpCorrect(id, text, refused, newId, now, pr) =>
      CorrectSound(p, l, id, text, newId, now, pr, l', gone);
      PlainEffect(l.rows, l'.rows, op);
    case OpConsolidate(now) =>
      ConsolidateSound(p, l, now, l', gone);
      PlainEffect(l.rows, l'.rows, op);
    case OpForget(needle, now) =>
      ForgetSound(p, l, needle, now, l', gone);
    case OpForgetRecord(id, now) =>
      ForgetRecordSound(l, id, now, l', gone);
  }

  lemma RejectionReads(id: Id, purged: seq<Id>)
    ensures var e := Event(RecordRejected, Some(id), Payload(purged := purged));
            KnownBy(e) == {} && Members(purged) <= ChangedBy(e)
  {
  }

  lemma ForgetReads(id: Option<Id>, purged: seq<Id>)
    ensures var e := Event(EventKind.Note("memory.forget"), id, Payload(purged := purged));
            KnownBy(e) == {} && Members(purged) <= ChangedBy(e)
  {
  }

  lemma ForgetSound(p: Policy, l: Ledger, needle: string, now: int, l': Ledger, gone: set<Id>)
    requires Accounted(l, gone) && Forget(p, l, needle, now) == Ok(l')
    ensures Keeps(l, l', gone) && Effect(l.rows, l'.rows, OpForget(needle, now))
  {
    if needle == "" {
      Lifecycle.Note(l, "memory.forget_rejected", gone);
    } else {
      var ids := Listing(l.rows, Matching(p, l.rows, needle));
      ForgetReads(None, PurgedIds(l.rows, ids));
      PurgeSound(l, ids, now, Event(EventKind.Note("memory.forget"), None, Payload(purged := PurgedIds(l.rows, ids))), gone);
      PurgeEffect(l.rows, ids, now, OpForget(needle, now));
    }
  }

  lemma StepSound(p: Policy, l: Ledger, op: Op)
    requires Sound(l)
    ensures Sound(Step(p, l, op)) && Effect(l.rows, Step(p, l, op).rows, op)
  {
    if Apply(p, l, op).Ok? {
      ApplySound(p, l, op, Apply(p, l, op).value, {});
    }
  }

  lemma {:induction false} RunSound(p: Policy, ops: seq<Op>)
    ensures Sound(Run(p, EMPTY, ops))
  {
    if ops != [] {
      RunSound(p, ops[..|ops| - 1]);
      StepSound(p, Run(p, EMPTY, ops[..|ops| - 1]), ops[|ops| - 1]);
    }
  }

  // ---- the verifier ---------------------------------------------------------

  /** Every legitimate run verifies. */
  lemma LegitimateRunsVerify(p: Policy, ops: seq<Op>)
    ensures var l := Run(p, EMPTY, ops); Accepts(Summarize(l.log), l.rows)
  {
    RunSound(p, ops);
  }

  /** The committed columns of two rows agree. */
  predicate SameCommitted(a: Record, b: Record) {
    a.(updatedAt := b.updatedAt) == b
  }

  lemma CommitInjective(k: Id, a: Record, b: Record)
    ensures Commit(k, a) == Commit(k, b) <==> SameCommitted(a, b)
  {
  }

  lemma AcceptsExactly(rows: Rows, log: seq<Event>, tampered: Rows)
    requires Intact(rows, log) && Summarize(log).commitments != map[]
    ensures var s := Summarize(log);
            Accepts(s, tampered)
            <==> && (forall k :: k in Protected(s) ==> k in tampered && k in rows && SameCommitted(tampered[k], rows[k]))
                 && (forall k :: Live(tampered, k) ==> k in rows)
  {
    var s := Summarize(log);
    forall k | k in Protected(s)
      ensures (!IsFailure(s, tampered, Missing(k)) && !IsFailure(s, tampered, Altered(k)))
              <==> (k in tampered && k in rows && SameCommitted(tampered[k], rows[k]))
    {
      if k in tampered {
        CommitInjective(k, tampered[k], rows[k]);
      }
    }
    forall k
      ensures !IsFailure(s, tampered, Unlogged(k)) <==> (Live(tampered, k) ==> k in rows)
    {
    }
    if Accepts(s, tampered) {
      forall k | k in Protected(s)
        ensures k in tampered && k in rows && SameCommitted(tampered[k], rows[k])
      {
        assert !IsFailure(s, tampered, Missing(k)) && !IsFailure(s, tampered, Altered(k));
      }
      forall k | Live(tampered, k)
        ensures k in rows
      {
        assert !IsFailure(s, tampered, Unlogged(k));
      }
    }
  }

  // ---- statuses and slots ---------------------------------------------------

  /** At most one active row per fact slot, in every reachable state. */
  lemma UniqueFactSlots(p: Policy, ops: seq<Op>, a: Id, b: Id)
    requires SameSlot(Run(p, EMPTY, ops).rows, a, b)
    ensures a == b
  {
    RunSound(p, ops);
  }

  /** A tombstoned row never changes again. */
  lemma {:induction false} TombstonesAreFinal(p: Policy, ops: seq<Op>, i: nat, k: Id)
    requires i <= |ops| && k in Run(p, EMPTY, ops[..i]).rows
    requires Run(p, EMPTY, ops[..i]).rows[k].status.Tombstoned?
    ensures k in Run(p, EMPTY, ops).rows
    ensures Run(p, EMPTY, ops).rows[k] == Run(p, EMPTY, ops[..i]).rows[k]
  {
    if i == |ops| {
      assert ops[..i] == ops;
    } else {
      var init := ops[..|ops| - 1];
      assert init[..i] == ops[..i];
      TombstonesAreFinal(p, init, i, k);
      RunSound(p, init);
      StepSound(p, Run(p, EMPTY, init), ops[|ops| - 1]);
    }
  }

  /** Step `j` of the run is a successful promotion of `k`. */
  ghost predicate Promotes(p: Policy, ops: seq<Op>, j: nat, k: Id) {
    j < |ops| && ops[j].OpPromote? && ops[j].id == k && Promote(Run(p, EMPTY, ops[..j]), k, ops[j].now).Ok?
  }

  lemma PromotesPrefix(p: Policy, ops: seq<Op>, n: nat, j: nat, k: Id)
    requires n <= |ops| && Promotes(p, ops[..n], j, k)
    ensures Promotes(p, ops, j, k)
  {
    assert ops[..n][..j] == ops[..j];
  }

  /** Leaving quarantine alive takes a promotion of that very record. */
  lemma {:induction false} OnlyPromotionActivates(p: Policy, ops: seq<Op>, i: nat, k: Id) returns (j: nat)
    requires i <= |ops| && k in Run(p, EMPTY, ops[..i]).rows
    requires Run(p, EMPTY, ops[..i]).rows[k].status.Quarantined?
    requires k in Run(p, EMPTY, ops).rows
    requires Run(p, EMPTY, ops).rows[k].status.Active? || Run(p, EMPTY, ops).rows[k].status.Superseded?
    ensures i <= j && Promotes(p, ops, j, k)
  {
    assert i < |ops| by { assert ops[..|ops|] == ops; }
    var n := |ops| - 1;
    var init := ops[..n];
    assert init[..i] == ops[..i];
    var l := Run(p, EMPTY, init);
    RunSound(p, init);
    StepSound(p, l, ops[n]);
    KeysGrow(p, init, i);
    if l.rows[k].status.Quarantined? {
      j := n;
    } else {
      j := OnlyPromotionActivates(p, init, i, k);
      PromotesPrefix(p, ops, n, j, k);
    }
  }

  lemma {:induction false} KeysGrow(p: Policy, ops: seq<Op>, i: nat)
    requires i <= |ops|
    ensures Run(p, EMPTY, ops[..i]).rows.Keys <= Run(p, EMPTY, ops).rows.Keys
  {
    if i == |ops| {
      assert ops[..i] == ops;
    } else {
      var init := ops[..|ops| - 1];
      assert init[..i] == ops[..i];
      KeysGrow(p, init, i);
      RunSound(p, init);
      StepSound(p, Run(p, EMPTY, init), ops[|ops| - 1]);
    }
  }
}
