/** What retrieval exclusion means for exposure: it is checked at preparation and not again at confirmation. */
module DeliveryExclusion {
  import opened Wrappers
  import opened Records
  import opened Operations
  import opened Delivery
  import opened Generations
  import opened DeliveryTheorems
  import opened DeliveryConditions

  /** Some action excludes the record and no later one restores it. */
  ghost predicate LeftExcluded(actions: seq<Action>, subject: string, k: Id) {
    exists m :: 0 <= m < |actions| && actions[m] == SetExcluded(subject, k, true)
                && forall n :: m < n < |actions| ==> actions[n] != SetExcluded(subject, k, false)
  }

  lemma LeftSnoc(actions: seq<Action>, a: Action, subject: string, k: Id)
    ensures LeftExcluded(actions + [a], subject, k)
            <==> a == SetExcluded(subject, k, true)
                 || (LeftExcluded(actions, subject, k) && a != SetExcluded(subject, k, false))
  {
    var all, n := actions + [a], |actions|;
    assert all[n] == a && forall i :: 0 <= i < n ==> all[i] == actions[i];
    if LeftExcluded(actions, subject, k) && a != SetExcluded(subject, k, false) {
      var m :| 0 <= m < n && actions[m] == SetExcluded(subject, k, true)
               && forall i :: m < i < n ==> actions[i] != SetExcluded(subject, k, false);
      assert all[m] == SetExcluded(subject, k, true);
    }
    if LeftExcluded(all, subject, k) {
      var m :| 0 <= m < |all| && all[m] == SetExcluded(subject, k, true)
               && forall i :: m < i < |all| ==> all[i] != SetExcluded(subject, k, false);
      if m < n {
        assert actions[m] == SetExcluded(subject, k, true);
      }
    }
  }

  /** Excluding and restoring work on active records, one at a time; on any other record nothing happens. */
  lemma ExcludesExactly(w: World, subject: string, id: Id, excluded: bool, other: string, k: Id)
    ensures var w' := Exclude(w, subject, id, excluded);
            && (k in ExcludedOf(w', other)
                <==> if other == subject && k == id && IsActive(LedgerOf(w, subject).rows, id) then excluded
                     else k in ExcludedOf(w, other))
            && (!IsActive(LedgerOf(w, subject).rows, id) ==> w' == w)
            && LedgerOf(w', other).rows == LedgerOf(w, other).rows
  {
  }

  /** One action on the exclusions of an active record. */
  lemma ExclusionStep(p: Policy, w: World, a: Action, subject: string, k: Id)
    requires IsActive(LedgerOf(w, subject).rows, k)
    ensures k in ExcludedOf(Act(p, w, a), subject)
            <==> a == SetExcluded(subject, k, true)
                 || (k in ExcludedOf(w, subject) && a != SetExcluded(subject, k, false))
  {
    hide CreateSet, Prepare, Confirm, Step, Logged;
    match a
    case Mutate(_, _) =>
    case SetExcluded(_, _, _) =>
    case DoCreateSet(q) => SetKeepsExclusions(w, q);
    case DoPrepare(q) => PrepareKeepsExclusions(p, w, q);
    case DoConfirm(c) => ConfirmKeepsExclusions(w, c);
  }

  lemma SetKeepsExclusions(w: World, q: SetRequest)
    ensures CreateSet(w, q).Ok? ==> CreateSet(w, q).value.excluded == w.excluded
  {
    hide Durable, Nominated, Eligible;
  }

  lemma PrepareKeepsExclusions(p: Policy, w: World, q: ContextRequest)
    ensures Prepare(p, w, q).Ok? ==> Prepare(p, w, q).value.excluded == w.excluded
  {
    hide Accepted, Serialize;
  }

  lemma ConfirmKeepsExclusions(w: World, c: Confirmation)
    ensures Confirm(w, c).Ok? ==> Confirm(w, c).value.0.excluded == w.excluded
  {
  }

  lemma PreparedRows(p: Policy, w: World, q: ContextRequest, k: Id)
    requires Prepare(p, w, q).Ok?
    ensures var w1, l := Prepare(p, w, q).value, LedgerOf(w, q.scope.subject);
            && q.id in w1.preps && w1.preps[q.id].scope == q.scope && w1.preps[q.id].generation == l.generation
            && LedgerOf(w1, q.scope.subject).generation == l.generation && LedgerOf(w1, q.scope.subject).rows == l.rows
            && (k in w1.preps[q.id].recordIds ==> IsActive(l.rows, k) && k !in ExcludedOf(w1, q.scope.subject))
  {
    hide Serialize;
  }

  lemma NoneLeft(subject: string, k: Id)
    ensures !LeftExcluded([], subject, k)
  {
  }

  /** Nothing changed in between when the generation is the same at both ends. */
  lemma Between(a: World, b: World, c: World, subject: string)
    requires Advances(a, b) && Advances(b, c)
    requires LedgerOf(a, subject).generation == LedgerOf(c, subject).generation
    ensures LedgerOf(b, subject).generation == LedgerOf(a, subject).generation
    ensures LedgerOf(b, subject).rows == LedgerOf(a, subject).rows
  {
    assert Tracks(LedgerOf(a, subject), LedgerOf(b, subject)) && Tracks(LedgerOf(b, subject), LedgerOf(c, subject));
  }

  /** Between two moments of equal generation, exclusion of an active record follows the actions alone. */
  lemma {:induction false} ExclusionFollows(p: Policy, actions: seq<Action>, i: nat, subject: string, k: Id)
    requires i <= |actions| && IsActive(LedgerOf(Reach(p, actions[..i]), subject).rows, k)
    requires k !in ExcludedOf(Reach(p, actions[..i]), subject)
    requires LedgerOf(Reach(p, actions[..i]), subject).generation == LedgerOf(Reach(p, actions), subject).generation
    ensures k in ExcludedOf(Reach(p, actions), subject) <==> LeftExcluded(actions[i..], subject, k)
    decreases |actions|
  {
    hide Advances, LeftExcluded, Act, ExcludedOf, LedgerOf;
    if i == |actions| {
      assert actions[..i] == actions && actions[i..] == [];
      assert !LeftExcluded([], subject, k) by { NoneLeft(subject, k); }
    } else {
      var n := |actions| - 1;
      var init, a := actions[..n], actions[n];
      assert init[..i] == actions[..i];
      var w := Reach(p, init);
      ReachAdvances(p, init, i);
      ReachAdvances(p, actions, n);
      Between(Reach(p, actions[..i]), w, Reach(p, actions), subject);
      ExclusionFollows(p, init, i, subject, k);
      ExclusionStep(p, w, a, subject, k);
      assert actions[i..] == init[i..] + [a];
      LeftSnoc(init[i..], a, subject, k);
    }
  }

  /** A freshly exposed record is excluded from retrieval at that moment if and only if it was excluded, and not
      restored, after its preparation: confirmation does not look at exclusions again. */
  lemma ExposedThoughExcludedExactly(p: Policy, actions: seq<Action>, i: nat, c: Confirmation, w': World,
                                     receipt: Receipt, k: Id)
    requires PreparedAt(p, actions, i, c.preparation)
    requires Confirm(Reach(p, actions), c) == Ok((w', Fresh(receipt)))
    requires c.preparation in Reach(p, actions).preps && k in Reach(p, actions).preps[c.preparation].recordIds
    ensures k in ExcludedOf(Reach(p, actions), c.scope.subject)
            <==> LeftExcluded(actions[i + 1..], c.scope.subject, k)
  {
    hide Prepare, LeftExcluded, Advances;
    var q, w, w2 := actions[i].contextRequest, Reach(p, actions[..i]), Reach(p, actions);
    assert actions[..i + 1][..i] == actions[..i];
    var w1 := Reach(p, actions[..i + 1]);
    assert w1 == Prepare(p, w, q).value;
    PreparedRows(p, w, q, k);
    ReachAdvances(p, actions, i + 1);
    SamePreparation(w1, w2, q.id);
    ExclusionFollows(p, actions, i + 1, c.scope.subject, k);
  }

  lemma SamePreparation(w1: World, w2: World, id: Id)
    requires Advances(w1, w2) && id in w1.preps
    ensures id in w2.preps && w2.preps[id] == w1.preps[id]
  {
  }

  /** The failing run, from any world: nominate, prepare, exclude, confirm. The confirmation succeeds, and the
      exposed context holds the excluded record exactly when its block fits the budget. */
  lemma ExcludedIsStillExposed(p: Policy, w: World, q: SetRequest, k: Id, r: ContextRequest, c: Confirmation)
    requires NominatesOne(w, q, k) && q.id !in w.sets
    requires r.setId == q.id && r.scope == q.scope && r.recordIds == [k] && r.id !in w.preps
    requires r.now <= q.now + SET_LIFETIME && c.now <= r.now + PREPARATION_LIFETIME
    requires c.preparation == r.id && c.scope == q.scope && c.id !in w.exposures && !AlreadyExposed(w, r.id)
    ensures CreateSet(w, q).Ok? && Prepare(p, CreateSet(w, q).value, r).Ok?
    ensures var rows := LedgerOf(w, q.scope.subject).rows;
            var w2 := Prepare(p, CreateSet(w, q).value, r).value;
            var w3 := Exclude(w2, q.scope.subject, k, true);
            && r.id in w2.preps && k in ExcludedOf(w3, q.scope.subject)
            && w2.preps[r.id].recordIds == (if FitsAlone(p, rows, k, r.budget) then [k] else [])
            && (FitsAlone(p, rows, k, r.budget) ==> w2.preps[r.id].context == Serialize(p, rows, [k]))
            && (c.context == w2.preps[r.id].context ==>
                  Confirm(w3, c).Ok? && Confirm(w3, c).value.1.Fresh?
                  && Confirm(w3, c).value.1.receipt.context == w2.preps[r.id].context)
  {
    hide CreateSet, Prepare, Serialize, FitsAlone;
    SetSucceeds(w, q, k);
    PrepareSucceeds(p, CreateSet(w, q).value, r, k);
  }
}
