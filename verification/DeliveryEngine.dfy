/** The delivery protocol as an object over the stored tables; each method refines one action of `Delivery`. */
module DeliveryEngine {
  import opened Wrappers
  import opened Records
  import opened AuditLog
  import opened Operations
  import opened Delivery

  method FirstOccurrences(ns: seq<Nominee>) returns (r: seq<Nominee>)
    ensures r == Unique(ns, {})
  {
    r := [];
    var seen: set<Id> := {};
    for i := 0 to |ns|
      invariant Unique(ns, {}) == r + Unique(ns[i..], seen)
    {
      assert ns[i..][1..] == ns[i + 1..];
      if ns[i].id !in seen {
        seen := seen + {ns[i].id};
        r := r + [ns[i]];
      }
    }
  }

  method DistinctIds(ids: seq<Id>) returns (r: seq<Id>)
    ensures r == Dedupe(ids, {})
  {
    r := [];
    var seen: set<Id> := {};
    for i := 0 to |ids|
      invariant Dedupe(ids, {}) == r + Dedupe(ids[i..], seen)
    {
      assert ids[i..][1..] == ids[i + 1..];
      if ids[i] !in seen {
        seen := seen + {ids[i]};
        r := r + [ids[i]];
      }
    }
  }

  lemma PackedStep(p: Policy, rows: Rows, ids: seq<Id>, i: nat, used: nat, budget: int)
    requires (forall k :: k in ids ==> k in rows) && i < |ids|
    ensures var size := |Block(p, ids[i], rows[ids[i]])|;
            Packed(p, rows, ids[i..], used, budget)
            == if used + size > budget then [] else [ids[i]] + Packed(p, rows, ids[i + 1..], used + size, budget)
  {
    hide Block;
    assert ids[i..][0] == ids[i] && ids[i..][1..] == ids[i + 1..];
  }

  lemma BlocksStep(p: Policy, rows: Rows, ids: seq<Id>, id: Id)
    requires (forall k :: k in ids ==> k in rows) && id in rows
    ensures Blocks(p, rows, ids + [id]) == Blocks(p, rows, ids) + Block(p, id, rows[id])
  {
    hide Block;
    assert (ids + [id])[..|ids|] == ids;
  }

  /** The packing loop: blocks are appended until the first that does not fit. */
  method PackBlocks(p: Policy, rows: Rows, ids: seq<Id>, overhead: nat, budget: int)
    returns (accepted: seq<Id>, body: string)
    requires forall k :: k in ids ==> k in rows
    ensures accepted == Packed(p, rows, ids, overhead, budget)
    ensures body == Blocks(p, rows, accepted)
  {
    hide Block, Blocks, Packed;
    body, accepted := "", [];
    NoBlocks(p, rows);
    var used: nat, i := overhead, 0;
    assert ids[0..] == ids;
    while i < |ids|
      invariant i <= |ids|
      invariant forall k :: k in accepted ==> k in rows
      invariant body == Blocks(p, rows, accepted)
      invariant Packed(p, rows, ids, overhead, budget) == accepted + Packed(p, rows, ids[i..], used, budget)
    {
      var block := Block(p, ids[i], rows[ids[i]]);
      PackedStep(p, rows, ids, i, used, budget);
      if used + |block| > budget {
        return;
      }
      BlocksStep(p, rows, accepted, ids[i]);
      accepted, body, used, i := accepted + [ids[i]], body + block, used + |block|, i + 1;
    }
    assert ids[i..] == [];
    NothingPacked(p, rows, used, budget);
  }

  lemma NothingPacked(p: Policy, rows: Rows, used: nat, budget: int)
    ensures Packed(p, rows, [], used, budget) == []
  {
  }

  /** The context is the packed blocks between header and footer. */
  method Pack(p: Policy, rows: Rows, ids: seq<Id>, budget: int) returns (accepted: seq<Id>, context: string)
    requires forall k :: k in ids ==> k in rows
    ensures accepted == Packed(p, rows, ids, |HEADER| + |FOOTER|, budget)
    ensures context == Serialize(p, rows, accepted)
  {
    hide Blocks, Packed;
    var body;
    accepted, body := PackBlocks(p, rows, ids, |HEADER| + |FOOTER|, budget);
    context := HEADER + body + FOOTER;
  }

  /** Every requested record is a candidate, active and not excluded. */
  method AllUsable(ids: seq<Id>, candidates: seq<Id>, rows: Rows, out: set<Id>) returns (ok: bool)
    ensures ok <==> forall k :: k in ids ==> k in candidates && IsActive(rows, k) && k !in out
  {
    for i := 0 to |ids|
      invariant forall k :: k in ids[..i] ==> k in candidates && IsActive(rows, k) && k !in out
    {
      var k := ids[i];
      assert k in ids;
      if k !in candidates || k !in rows || !rows[k].status.Active? || k in out {
        return false;
      }
      assert ids[..i + 1] == ids[..i] + [k];
    }
    assert ids[..|ids|] == ids;
    return true;
  }

  class Protocol {
    const p: Policy
    var ledgers: map<string, Ledger>
    var excluded: map<string, set<Id>>
    var sets: map<Id, CandidateSet>
    var preps: map<Id, Preparation>
    var exposures: map<Id, Receipt>

    ghost function World(): World
      reads this
    {
      Delivery.World(ledgers, excluded, sets, preps, exposures)
    }

    constructor (p: Policy)
      ensures this.p == p && World() == START
    {
      this.p := p;
      ledgers, excluded, sets, preps, exposures := map[], map[], map[], map[], map[];
    }

    method Ledger(subject: string) returns (l: Ledger)
      ensures l == LedgerOf(World(), subject)
    {
      l := if subject in ledgers then ledgers[subject] else EMPTY;
    }

    method Append(subject: string, e: Event)
      modifies this`ledgers
      ensures World() == WithEvent(old(World()), subject, e)
    {
      var l := Ledger(subject);
      ledgers := ledgers[subject := Logged(l, e)];
    }

    method CreateCandidateSet(q: SetRequest) returns (ok: bool)
      modifies this
      ensures ok == CreateSet(old(World()), q).Ok?
      ensures World() == Act(p, old(World()), DoCreateSet(q))
    {
      hide Eligible, Logged;
      var l := Ledger(q.scope.subject);
      var out := if q.scope.subject in excluded then excluded[q.scope.subject] else {};
      var nominated := FirstOccurrences(Prefix(q.nominees, q.window));
      var i := 0;
      while i < |nominated|
        invariant i <= |nominated|
        invariant forall n :: n in nominated[..i] ==> Eligible(l.rows, out, q, n)
      {
        if !Eligible(l.rows, out, q, nominated[i]) {
          assert nominated[i] in Nominated(q);
          return false;
        }
        i := i + 1;
      }
      assert nominated[..|nominated|] == nominated;
      if q.id in sets {
        return false;
      }
      var durable := Durable(q);
      Append(q.scope.subject, Event(Note("memory.eligible_candidates_v1"), None,
                                    Payload(recordIds := durable, candidateSet := Some(q.id))));
      sets := sets[q.id := CandidateSet(q.scope, l.generation, q.now + SET_LIFETIME, durable)];
      return true;
    }

    method PrepareContext(q: ContextRequest) returns (ok: bool)
      modifies this
      ensures ok == Prepare(p, old(World()), q).Ok?
      ensures World() == Act(p, old(World()), DoPrepare(q))
    {
      hide Packed, Serialize, Dedupe, Logged;
      if q.setId !in sets {
        return false;
      }
      var cs := sets[q.setId];
      var l := Ledger(q.scope.subject);
      if cs.scope != q.scope || cs.expires < q.now || cs.generation != l.generation {
        return false;
      }
      var out := if q.scope.subject in excluded then excluded[q.scope.subject] else {};
      var requested := DistinctIds(q.recordIds);
      var usable := AllUsable(requested, cs.candidates, l.rows, out);
      assert forall k :: k in requested <==> k in q.recordIds;
      if !usable {
        return false;
      }
      if q.id in preps {
        return false;
      }
      var accepted, context := Pack(p, l.rows, requested, q.budget);
      Append(q.scope.subject, Event(Note("memory.context_prepared_v1"), None,
                                    Payload(recordIds := accepted, preparation := Some(q.id),
                                            candidateSet := Some(q.setId))));
      preps := preps[q.id := Preparation(q.scope, l.generation, q.now + PREPARATION_LIFETIME, accepted, context)];
      return true;
    }

    method ConfirmExposure(c: Confirmation) returns (reply: Option<Reply>)
      modifies this
      ensures reply == match Confirm(old(World()), c) case Ok((_, r)) => Some(r) case Err(_) => None
      ensures World() == Act(p, old(World()), DoConfirm(c))
    {
      if c.id in exposures {
        return Some(Replayed(exposures[c.id].(scope := c.scope)));
      }
      if c.preparation !in preps || AlreadyExposed(Delivery.World(ledgers, excluded, sets, preps, exposures), c.preparation) {
        return None;
      }
      var prep := preps[c.preparation];
      var l := Ledger(c.scope.subject);
      if prep.scope != c.scope || prep.expires < c.now || prep.context != c.context || prep.generation != l.generation {
        return None;
      }
      Append(c.scope.subject, Event(Note("memory.context_injected"), None,
                                    Payload(recordIds := prep.recordIds, preparation := Some(c.preparation))));
      var receipt := Receipt(c.receiptId, c.preparation, c.scope, c.context, c.now, |l.log|);
      exposures := exposures[c.id := receipt];
      return Some(Fresh(receipt));
    }
  }
}
