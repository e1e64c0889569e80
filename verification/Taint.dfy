/** Taint is closed under derivation, over every run, whatever is purged on the way. */
module Taint {
  import opened Wrappers
  import opened Records
  import opened Operations
  import opened Lifecycle
  import opened Runs

  /** The labels and parents a record was stored with. Purging erases both from the row,
      so the derivation history is read off the run instead of the final table. */
  datatype Origin = Origin(labels: set<Label>, parents: seq<Id>)

  function OriginOf(r: Record): Origin {
    Origin(r.raw.taint, r.raw.related)
  }

  ghost function Origins(p: Policy, ops: seq<Op>): map<Id, Origin> {
    if ops == [] then map[]
    else
      var before := Origins(p, ops[..|ops| - 1]);
      var rows := Run(p, EMPTY, ops).rows;
      map k | k in rows :: if k in before then before[k] else OriginOf(rows[k])
  }

  /** Origins describe exactly the stored rows, agree with every row not yet purged, and inherit. */
  ghost predicate Faithful(rows: Rows, o: map<Id, Origin>) {
    && o.Keys == rows.Keys
    && (forall k :: k in rows && !rows[k].status.Tombstoned? ==> o[k] == OriginOf(rows[k]))
    && (forall k, q :: k in o && q in o[k].parents ==> q in o && Derived(o[q], o[k]))
  }

  ghost predicate Derived(parent: Origin, child: Origin) {
    && parent.labels <= child.labels
    && (parent.labels != {} ==> DerivedFromTainted in child.labels)
  }

  /** A new row inherits from parents that are still live, hence still described by their origins. */
  lemma NewRowDerived(rows: Rows, o: map<Id, Origin>, r: Record, q: Id)
    requires Faithful(rows, o) && Inherits(rows, r) && q in r.raw.related
    ensures q in o && Derived(o[q], OriginOf(r))
  {
    assert Live(rows, q);
  }

  lemma ParentsDerived(rows: Rows, rows': Rows, op: Op, o: map<Id, Origin>, o': map<Id, Origin>, k: Id, q: Id)
    requires Faithful(rows, o) && Effect(rows, rows', op)
    requires o' == map k | k in rows' :: if k in o then o[k] else OriginOf(rows'[k])
    requires k in o' && q in o'[k].parents
    ensures q in o' && Derived(o'[q], o'[k])
  {
    hide Derived, Inherits, Carried;
    if k !in o {
      NewRowDerived(rows, o, rows'[k], q);
    }
  }

  lemma LiveOrigin(rows: Rows, rows': Rows, op: Op, o: map<Id, Origin>, k: Id)
    requires Faithful(rows, o) && Effect(rows, rows', op) && k in rows && !rows'[k].status.Tombstoned?
    ensures o[k] == OriginOf(rows'[k])
  {
    hide Derived, Inherits;
    assert Carried(rows[k], rows'[k]);
  }

  lemma FaithfulStep(rows: Rows, rows': Rows, op: Op, o: map<Id, Origin>, o': map<Id, Origin>)
    requires Faithful(rows, o) && Effect(rows, rows', op)
    requires o' == map k | k in rows' :: if k in o then o[k] else OriginOf(rows'[k])
    ensures Faithful(rows', o')
  {
    hide Derived, Effect;
    forall k, q | k in o' && q in o'[k].parents
      ensures q in o' && Derived(o'[q], o'[k])
    {
      ParentsDerived(rows, rows', op, o, o', k, q);
    }
    forall k | k in rows' && !rows'[k].status.Tombstoned?
      ensures o'[k] == OriginOf(rows'[k])
    {
      if k in rows {
        LiveOrigin(rows, rows', op, o, k);
      }
    }
  }

  lemma {:induction false} OriginsFaithful(p: Policy, ops: seq<Op>)
    ensures Faithful(Run(p, EMPTY, ops).rows, Origins(p, ops))
  {
    if ops != [] {
      var init := ops[..|ops| - 1];
      OriginsFaithful(p, init);
      RunSound(p, init);
      StepSound(p, Run(p, EMPTY, init), ops[|ops| - 1]);
      FaithfulStep(Run(p, EMPTY, init).rows, Run(p, EMPTY, ops).rows, ops[|ops| - 1], Origins(p, init), Origins(p, ops));
    }
  }

  /** A derivation chain: each record names its predecessor among its `related_record_ids`. */
  ghost predicate DerivationChain(o: map<Id, Origin>, chain: seq<Id>) {
    && |chain| >= 2
    && (forall i :: 0 <= i < |chain| ==> chain[i] in o)
    && (forall i :: 0 <= i < |chain| - 1 ==> chain[i] in o[chain[i + 1]].parents)
  }

  lemma {:induction false} ChainInherits(o: map<Id, Origin>, chain: seq<Id>)
    requires DerivationChain(o, chain)
    requires forall k, q :: k in o && q in o[k].parents ==> q in o && Derived(o[q], o[k])
    ensures Derived(o[chain[0]], o[chain[|chain| - 1]])
    decreases |chain|
  {
    var n := |chain| - 1;
    assert Derived(o[chain[n - 1]], o[chain[n]]);
    if n > 1 {
      var init := chain[..n];
      assert forall i :: 0 <= i < |init| ==> init[i] == chain[i];
      ChainInherits(o, init);
    }
  }

  /** In every run, a record derived through any chain from a labelled record carries all of that
      record's labels and the derivation mark, until it is itself purged. */
  lemma TaintIsClosed(p: Policy, ops: seq<Op>, chain: seq<Id>)
    requires DerivationChain(Origins(p, ops), chain)
    requires Live(Run(p, EMPTY, ops).rows, chain[|chain| - 1])
    ensures var labels := Run(p, EMPTY, ops).rows[chain[|chain| - 1]].raw.taint;
            && Origins(p, ops)[chain[0]].labels <= labels
            && (Origins(p, ops)[chain[0]].labels != {} ==> DerivedFromTainted in labels)
  {
    OriginsFaithful(p, ops);
    ChainInherits(Origins(p, ops), chain);
  }

  /** Labels of a record never change while it lives. */
  lemma LabelsArePermanent(p: Policy, ops: seq<Op>, i: nat, k: Id)
    requires i <= |ops| && Live(Run(p, EMPTY, ops[..i]).rows, k) && Live(Run(p, EMPTY, ops).rows, k)
    ensures Run(p, EMPTY, ops).rows[k].raw.taint == Run(p, EMPTY, ops[..i]).rows[k].raw.taint
  {
    OriginsFaithful(p, ops);
    OriginsFaithful(p, ops[..i]);
    OriginsStable(p, ops, i, k);
  }

  lemma {:induction false} OriginsStable(p: Policy, ops: seq<Op>, i: nat, k: Id)
    requires i <= |ops| && k in Origins(p, ops[..i])
    ensures k in Origins(p, ops) && Origins(p, ops)[k] == Origins(p, ops[..i])[k]
  {
    if i == |ops| {
      assert ops[..i] == ops;
    } else {
      var init := ops[..|ops| - 1];
      assert init[..i] == ops[..i];
      OriginsStable(p, init, i, k);
      OriginsFaithful(p, init);
      RunSound(p, init);
      StepSound(p, Run(p, EMPTY, init), ops[|ops| - 1]);
    }
  }

  /** A labelled record is (or was) active only if some step promoted it by name. */
  lemma {:induction false} LabelledNeedsPromotion(p: Policy, ops: seq<Op>, k: Id) returns (j: nat)
    requires k in Run(p, EMPTY, ops).rows && Run(p, EMPTY, ops).rows[k].raw.taint != {}
    requires Run(p, EMPTY, ops).rows[k].status.Active? || Run(p, EMPTY, ops).rows[k].status.Superseded?
    ensures Promotes(p, ops, j, k)
  {
    var n := |ops| - 1;
    var init := ops[..n];
    var l := Run(p, EMPTY, init);
    RunSound(p, init);
    StepSound(p, l, ops[n]);
    if l.rows[k].status.Quarantined? {
      j := n;
    } else {
      j := LabelledNeedsPromotion(p, init, k);
      PromotesPrefix(p, ops, n, j, k);
    }
  }

  /** Promotion keeps every label but always changes the trust tier: the store writes `user_confirmed`,
      and no quarantined record of a reachable state has that tier already. */
  lemma PromotionRaisesTier(p: Policy, ops: seq<Op>, k: Id, now: int, l': Ledger)
    requires Promote(Run(p, EMPTY, ops), k, now) == Ok(l')
    ensures k in Run(p, EMPTY, ops).rows && k in l'.rows
    ensures l'.rows[k].raw.taint == Run(p, EMPTY, ops).rows[k].raw.taint
    ensures l'.rows[k].tier.UserConfirmed? && !Run(p, EMPTY, ops).rows[k].tier.UserConfirmed?
  {
    RunSound(p, ops);
    PromoteShape(Run(p, EMPTY, ops), k, now, l');
  }

  /** A run that raises a tier: an untrusted fact is remembered, which quarantines it, and then promoted. */
  lemma UntrustedBecomesConfirmed(p: Policy, pr: Provenance)
    ensures var fact := Candidate(1, 0, "Dinner is at eight", Untrusted, None, pr);
            var remembered := Run(p, EMPTY, [OpRemember(Extracted([fact], true))]);
            var promoted := Run(p, EMPTY, [OpRemember(Extracted([fact], true)), OpPromote(1, 5)]);
            && 1 in remembered.rows && remembered.rows[1].tier.Untrusted? && remembered.rows[1].status.Quarantined?
            && 1 in promoted.rows && promoted.rows[1].tier.UserConfirmed? && promoted.rows[1].status.Active?
  {
    var fact := Candidate(1, 0, "Dinner is at eight", Untrusted, None, pr);
    var first, second := OpRemember(Extracted([fact], true)), OpPromote(1, 5);
    assert [first][..0] == [] && [first, second][..1] == [first];
    assert Run(p, EMPTY, []) == EMPTY;
    var l := Run(p, EMPTY, [first]);
    QuarantinedFact(p, fact);
    assert Promote(l, 1, 5).Ok?;
    PromoteShape(l, 1, 5, Promote(l, 1, 5).value);
  }

  lemma QuarantinedFact(p: Policy, fact: Candidate)
    requires !InitialStatus(fact.tier).Active?
    ensures Step(p, EMPTY, OpRemember(Extracted([fact], true))).rows == map[fact.id := FreshRow(fact, [])]
  {
    var l1 := Noted(EMPTY, "episode.ingested");
    assert [fact][1..] == [];
    assert Duplicates(p, l1.rows, fact.content, {Active, Quarantined}) == {};
    var l2 := RememberOne(p, l1, fact).value;
    assert Stored(l1.rows, fact) == map[fact.id := FreshRow(fact, [])];
    assert RememberAll(p, l1, [fact]) == RememberAll(p, l2, []);
  }
}
