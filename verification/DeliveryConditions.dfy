/** Exactly when each delivery step succeeds in a run, with the times of the requests before it. */
module DeliveryConditions {
  import opened Wrappers
  import opened Sequences
  import opened Records
  import opened Operations
  import opened Generations
  import opened Delivery
  import opened DeliveryTheorems

  // ---- the successful steps of a run ----------------------------------------

  /** Action `i` of the run creates the candidate set `id`. */
  ghost predicate CreatedAt(p: Policy, actions: seq<Action>, i: nat, id: Id) {
    && i < |actions| && actions[i].DoCreateSet? && actions[i].setRequest.id == id
    && CreateSet(Reach(p, actions[..i]), actions[i].setRequest).Ok?
  }

  /** Action `i` of the run is the successful preparation `id`. */
  ghost predicate PreparedAt(p: Policy, actions: seq<Action>, i: nat, id: Id) {
    && i < |actions| && actions[i].DoPrepare? && actions[i].contextRequest.id == id
    && Prepare(p, Reach(p, actions[..i]), actions[i].contextRequest).Ok?
  }

  /** Action `i` of the run is the confirmation `id`, with a fresh receipt. */
  ghost predicate ConfirmedAt(p: Policy, actions: seq<Action>, i: nat, id: Id) {
    && i < |actions| && actions[i].DoConfirm? && actions[i].confirmation.id == id
    && (var r := Confirm(Reach(p, actions[..i]), actions[i].confirmation); r.Ok? && r.value.1.Fresh?)
  }

  /** Worlds along a run advance. */
  lemma {:induction false} ReachAdvances(p: Policy, actions: seq<Action>, i: nat)
    requires i <= |actions|
    ensures Advances(Reach(p, actions[..i]), Reach(p, actions))
    decreases |actions|
  {
    hide Advances, Act;
    if i == |actions| {
      assert actions[..i] == actions;
      AdvancesReflexive(Reach(p, actions));
    } else {
      var init := actions[..|actions| - 1];
      assert init[..i] == actions[..i];
      ReachAdvances(p, init, i);
      Reachable(p, init);
      ActKeeps(p, Reach(p, init), actions[|actions| - 1]);
      AdvancesTransitive(Reach(p, actions[..i]), Reach(p, init), Reach(p, actions));
    }
  }

  lemma AdvancesReflexive(w: World)
    ensures Advances(w, w)
  {
  }

  /** A step that adds a set, a preparation or an exposure is the successful request for it. */
  lemma ActAdds(p: Policy, w: World, a: Action, id: Id)
    ensures id in Act(p, w, a).sets && id !in w.sets ==>
              a.DoCreateSet? && a.setRequest.id == id && CreateSet(w, a.setRequest).Ok?
    ensures id in Act(p, w, a).preps && id !in w.preps ==>
              a.DoPrepare? && a.contextRequest.id == id && Prepare(p, w, a.contextRequest).Ok?
    ensures id in Act(p, w, a).exposures && id !in w.exposures ==>
              a.DoConfirm? && a.confirmation.id == id && Confirm(w, a.confirmation).Ok?
              && Confirm(w, a.confirmation).value.1.Fresh?
  {
    hide Step, CreateSet, Prepare, Confirm;
    match a
    case Mutate(_, _) =>
    case SetExcluded(_, _, _) =>
    case DoCreateSet(q) =>
      if CreateSet(w, q).Ok? { CreateSetAdds(w, q, id); }
    case DoPrepare(q) =>
      if Prepare(p, w, q).Ok? { PrepareAdds(p, w, q, id); }
    case DoConfirm(c) =>
      if Confirm(w, c).Ok? { ConfirmAdds(w, c, id); }
  }

  lemma CreateSetAdds(w: World, q: SetRequest, id: Id)
    requires CreateSet(w, q).Ok?
    ensures var w' := CreateSet(w, q).value;
            (id in w'.sets <==> id in w.sets || id == q.id) && w'.preps == w.preps && w'.exposures == w.exposures
  {
    hide Durable, Nominated, Eligible;
  }

  lemma PrepareAdds(p: Policy, w: World, q: ContextRequest, id: Id)
    requires Prepare(p, w, q).Ok?
    ensures var w' := Prepare(p, w, q).value;
            (id in w'.preps <==> id in w.preps || id == q.id) && w'.sets == w.sets && w'.exposures == w.exposures
  {
    hide Accepted, Serialize;
  }

  lemma ConfirmAdds(w: World, c: Confirmation, id: Id)
    requires Confirm(w, c).Ok?
    ensures var w' := Confirm(w, c).value.0;
            && (id in w'.exposures && id !in w.exposures ==> id == c.id && Confirm(w, c).value.1.Fresh?)
            && w'.sets == w.sets && w'.preps == w.preps
  {
  }

  lemma CreatedPrefix(p: Policy, actions: seq<Action>, n: nat, i: nat, id: Id)
    requires n <= |actions| && i < n
    ensures CreatedAt(p, actions[..n], i, id) <==> CreatedAt(p, actions, i, id)
    ensures PreparedAt(p, actions[..n], i, id) <==> PreparedAt(p, actions, i, id)
    ensures ConfirmedAt(p, actions[..n], i, id) <==> ConfirmedAt(p, actions, i, id)
  {
    assert actions[..n][..i] == actions[..i];
  }

  lemma {:induction false} SetOrigin(p: Policy, actions: seq<Action>, id: Id) returns (i: nat)
    requires id in Reach(p, actions).sets
    ensures CreatedAt(p, actions, i, id)
    decreases |actions|
  {
    hide Act, CreateSet;
    var n := |actions| - 1;
    ActAdds(p, Reach(p, actions[..n]), actions[n], id);
    if id in Reach(p, actions[..n]).sets {
      i := SetOrigin(p, actions[..n], id);
      CreatedPrefix(p, actions, n, i, id);
    } else {
      i := n;
    }
  }

  lemma {:induction false} PreparationOrigin(p: Policy, actions: seq<Action>, id: Id) returns (i: nat)
    requires id in Reach(p, actions).preps
    ensures PreparedAt(p, actions, i, id)
    decreases |actions|
  {
    hide Act, Prepare;
    var n := |actions| - 1;
    ActAdds(p, Reach(p, actions[..n]), actions[n], id);
    if id in Reach(p, actions[..n]).preps {
      i := PreparationOrigin(p, actions[..n], id);
      CreatedPrefix(p, actions, n, i, id);
    } else {
      i := n;
    }
  }

  lemma {:induction false} ExposureOrigin(p: Policy, actions: seq<Action>, id: Id) returns (i: nat)
    requires id in Reach(p, actions).exposures
    ensures ConfirmedAt(p, actions, i, id)
    decreases |actions|
  {
    hide Act, Confirm;
    var n := |actions| - 1;
    ActAdds(p, Reach(p, actions[..n]), actions[n], id);
    if id in Reach(p, actions[..n]).exposures {
      i := ExposureOrigin(p, actions[..n], id);
      CreatedPrefix(p, actions, n, i, id);
    } else {
      i := n;
    }
  }

  /** The rows of a subject before action `i`. */
  ghost function RowsAt(p: Policy, actions: seq<Action>, i: nat, subject: string): Rows
    requires i <= |actions|
  {
    LedgerOf(Reach(p, actions[..i]), subject).rows
  }

  /** The generation is unchanged since action `i` exactly when the rows are. */
  lemma GenerationTells(p: Policy, actions: seq<Action>, i: nat, subject: string)
    requires i <= |actions|
    ensures LedgerOf(Reach(p, actions[..i]), subject).generation == LedgerOf(Reach(p, actions), subject).generation
            <==> RowsAt(p, actions, i, subject) == LedgerOf(Reach(p, actions), subject).rows
  {
    hide Reach;
    ReachAdvances(p, actions, i);
    assert Tracks(LedgerOf(Reach(p, actions[..i]), subject), LedgerOf(Reach(p, actions), subject));
  }

  lemma SetIs(w: World, q: SetRequest)
    requires CreateSet(w, q).Ok?
    ensures q.id in CreateSet(w, q).value.sets
    ensures CreateSet(w, q).value.sets[q.id]
            == CandidateSet(q.scope, LedgerOf(w, q.scope.subject).generation, q.now + 300, Durable(q))
  {
    hide Durable, Nominated, Eligible;
  }

  lemma CreatedStays(p: Policy, actions: seq<Action>, i: nat, id: Id)
    requires CreatedAt(p, actions, i, id)
    ensures var q := actions[i].setRequest;
            && id in Reach(p, actions).sets
            && Reach(p, actions).sets[id]
               == CandidateSet(q.scope, LedgerOf(Reach(p, actions[..i]), q.scope.subject).generation, q.now + 300, Durable(q))
  {
    hide CreateSet, Durable;
    var w, q := Reach(p, actions[..i]), actions[i].setRequest;
    assert actions[..i + 1][..i] == actions[..i];
    assert Reach(p, actions[..i + 1]) == CreateSet(w, q).value;
    SetIs(w, q);
    hide Reach;
    ReachAdvances(p, actions, i + 1);
  }

  lemma PreparationIs(p: Policy, w: World, q: ContextRequest)
    requires Prepare(p, w, q).Ok?
    ensures q.id in Prepare(p, w, q).value.preps && forall k :: k in q.recordIds ==> k in LedgerOf(w, q.scope.subject).rows
    ensures var rows := LedgerOf(w, q.scope.subject).rows;
            Prepare(p, w, q).value.preps[q.id]
            == Preparation(q.scope, LedgerOf(w, q.scope.subject).generation, q.now + 120, Accepted(p, rows, q),
                           Serialize(p, rows, Accepted(p, rows, q)))
  {
    hide Accepted, Serialize;
  }

  lemma PreparedStays(p: Policy, actions: seq<Action>, i: nat, id: Id)
    requires PreparedAt(p, actions, i, id)
    ensures var q := actions[i].contextRequest;
            var l := LedgerOf(Reach(p, actions[..i]), q.scope.subject);
            && (forall k :: k in q.recordIds ==> k in l.rows)
            && id in Reach(p, actions).preps
            && Reach(p, actions).preps[id]
               == Preparation(q.scope, l.generation, q.now + 120, Accepted(p, l.rows, q),
                              Serialize(p, l.rows, Accepted(p, l.rows, q)))
  {
    hide Prepare, Accepted, Serialize, LedgerOf;
    var w, q := Reach(p, actions[..i]), actions[i].contextRequest;
    assert actions[..i + 1][..i] == actions[..i];
    assert Reach(p, actions[..i + 1]) == Prepare(p, w, q).value;
    PreparationIs(p, w, q);
    PreparedKept(p, actions, i + 1, id);
  }

  lemma PreparedKept(p: Policy, actions: seq<Action>, i: nat, id: Id)
    requires i <= |actions| && id in Reach(p, actions[..i]).preps
    ensures id in Reach(p, actions).preps && Reach(p, actions).preps[id] == Reach(p, actions[..i]).preps[id]
  {
    hide Reach;
    ReachAdvances(p, actions, i);
  }

  lemma ConfirmedStays(p: Policy, actions: seq<Action>, i: nat, id: Id)
    requires ConfirmedAt(p, actions, i, id)
    ensures id in Reach(p, actions).exposures
    ensures Reach(p, actions).exposures[id].preparation == actions[i].confirmation.preparation
  {
    var w := Reach(p, actions[..i]);
    assert actions[..i + 1][..i] == actions[..i];
    assert Reach(p, actions[..i + 1]) == Confirm(w, actions[i].confirmation).value.0;
    hide Reach;
    ReachAdvances(p, actions, i + 1);
  }

  // ---- preparation ----------------------------------------------------------

  /** The request fits the candidate set that action `i` created: same scope, not more than 300 seconds later,
      no row changed in between, and only active, not excluded candidates are asked for. */
  ghost predicate FitsSet(p: Policy, actions: seq<Action>, i: nat, q: ContextRequest)
    requires i < |actions| && actions[i].DoCreateSet?
  {
    var s, w, subject := actions[i].setRequest, Reach(p, actions), q.scope.subject;
    && s.scope == q.scope && q.now <= s.now + 300
    && RowsAt(p, actions, i, subject) == LedgerOf(w, subject).rows
    && forall k :: k in q.recordIds ==>
                     k in Durable(s) && IsActive(LedgerOf(w, subject).rows, k) && k !in ExcludedOf(w, subject)
  }

  /** Action `i` created the candidate set, and the request fits it. */
  ghost predicate CreatedFor(p: Policy, actions: seq<Action>, i: nat, q: ContextRequest) {
    CreatedAt(p, actions, i, q.setId) && FitsSet(p, actions, i, q)
  }

  /** In every run, a preparation succeeds if and only if its id is new and it fits a candidate set created
      before. */
  lemma PreparesExactly(p: Policy, actions: seq<Action>, q: ContextRequest)
    ensures Prepare(p, Reach(p, actions), q).Ok?
            <==> && (forall i: nat :: !PreparedAt(p, actions, i, q.id))
                 && exists i: nat :: CreatedFor(p, actions, i, q)
  {
    hide Reach, Prepare, PreparedAt, CreatedAt, FitsSet;
    var w := Reach(p, actions);
    if q.id in w.preps {
      var i := PreparationOrigin(p, actions, q.id);
    }
    if i: nat :| PreparedAt(p, actions, i, q.id) {
      PreparedStays(p, actions, i, q.id);
    }
    PrepareGuards(p, w, q);
    if q.setId in w.sets {
      var i := SetOrigin(p, actions, q.setId);
      SetGuards(p, actions, i, q);
      assert SetAllows(w, q) ==> CreatedFor(p, actions, i, q);
    }
    if i: nat :| CreatedFor(p, actions, i, q) {
      SetGuards(p, actions, i, q);
    }
  }

  /** The guards of `prepare_context` on the stored set. */
  ghost predicate SetAllows(w: World, q: ContextRequest) {
    q.setId in w.sets
    && var cs, l := w.sets[q.setId], LedgerOf(w, q.scope.subject);
    && cs.scope == q.scope && q.now <= cs.expires && cs.generation == l.generation
    && forall k :: k in q.recordIds ==>
                     k in cs.candidates && IsActive(l.rows, k) && k !in ExcludedOf(w, q.scope.subject)
  }

  lemma PrepareGuards(p: Policy, w: World, q: ContextRequest)
    ensures Prepare(p, w, q).Ok? <==> SetAllows(w, q) && q.id !in w.preps
  {
    hide Accepted, Serialize;
  }

  lemma SetGuards(p: Policy, actions: seq<Action>, i: nat, q: ContextRequest)
    requires CreatedAt(p, actions, i, q.setId)
    ensures SetAllows(Reach(p, actions), q) <==> FitsSet(p, actions, i, q)
  {
    hide Reach, CreateSet, Durable, LedgerOf;
    CreatedStays(p, actions, i, q.setId);
    GenerationTells(p, actions, i, q.scope.subject);
  }

  // ---- confirmation ---------------------------------------------------------

  /** The preparation was exposed by some confirmation of the run. */
  ghost predicate ExposedIn(p: Policy, actions: seq<Action>, preparation: Id) {
    exists i: nat, id :: ConfirmedAt(p, actions, i, id) && actions[i].confirmation.preparation == preparation
  }

  lemma ExposedExactly(p: Policy, actions: seq<Action>, preparation: Id)
    ensures AlreadyExposed(Reach(p, actions), preparation) <==> ExposedIn(p, actions, preparation)
  {
    hide Reach, Confirm;
    if AlreadyExposed(Reach(p, actions), preparation) {
      var id :| id in Reach(p, actions).exposures && Reach(p, actions).exposures[id].preparation == preparation;
      var i := ExposureOrigin(p, actions, id);
      ConfirmedStays(p, actions, i, id);
    }
    if ExposedIn(p, actions, preparation) {
      var i: nat, id :| ConfirmedAt(p, actions, i, id) && actions[i].confirmation.preparation == preparation;
      ConfirmedStays(p, actions, i, id);
    }
  }

  /** The confirmation fits the preparation of action `i`: same scope, not more than 120 seconds later, the very
      text that was prepared, and no row changed in between. */
  ghost predicate FitsPreparation(p: Policy, actions: seq<Action>, i: nat, c: Confirmation)
    requires i < |actions| && actions[i].DoPrepare?
    requires forall k :: k in actions[i].contextRequest.recordIds ==>
                           k in RowsAt(p, actions, i, actions[i].contextRequest.scope.subject)
  {
    var q := actions[i].contextRequest;
    var rows := RowsAt(p, actions, i, q.scope.subject);
    && q.scope == c.scope && c.now <= q.now + 120
    && c.context == Serialize(p, rows, Accepted(p, rows, q))
    && rows == LedgerOf(Reach(p, actions), q.scope.subject).rows
  }

  lemma PreparedFromRows(p: Policy, actions: seq<Action>, i: nat, id: Id)
    requires PreparedAt(p, actions, i, id)
    ensures forall k :: k in actions[i].contextRequest.recordIds ==>
                          k in RowsAt(p, actions, i, actions[i].contextRequest.scope.subject)
  {
    hide Prepare, Reach;
    PreparationIs(p, Reach(p, actions[..i]), actions[i].contextRequest);
  }

  /** The guards of `confirm_exposure` on the stored preparation. */
  ghost predicate PreparationAllows(w: World, c: Confirmation) {
    && c.preparation in w.preps && !AlreadyExposed(w, c.preparation)
    && var prep := w.preps[c.preparation];
    && prep.scope == c.scope && c.now <= prep.expires && prep.context == c.context
    && prep.generation == LedgerOf(w, c.scope.subject).generation
  }

  ghost predicate IsFresh(w: World, c: Confirmation) {
    Confirm(w, c).Ok? && Confirm(w, c).value.1.Fresh?
  }

  lemma ConfirmGuards(w: World, c: Confirmation)
    ensures IsFresh(w, c) <==> c.id !in w.exposures && PreparationAllows(w, c)
    ensures Confirm(w, c).Ok? && !IsFresh(w, c) <==> c.id in w.exposures
  {
    hide AlreadyExposed;
  }

  lemma PreparationGuards(p: Policy, actions: seq<Action>, i: nat, c: Confirmation)
    requires PreparedAt(p, actions, i, c.preparation)
    ensures forall k :: k in actions[i].contextRequest.recordIds ==>
                          k in RowsAt(p, actions, i, actions[i].contextRequest.scope.subject)
    ensures PreparationAllows(Reach(p, actions), c)
            <==> !ExposedIn(p, actions, c.preparation) && FitsPreparation(p, actions, i, c)
  {
    hide Reach, Prepare, Accepted, Serialize, LedgerOf, ExposedIn;
    PreparedStays(p, actions, i, c.preparation);
    ExposedExactly(p, actions, c.preparation);
    GenerationTells(p, actions, i, c.scope.subject);
  }

  /** Action `i` is the preparation, and the confirmation fits it. */
  ghost predicate PreparedFor(p: Policy, actions: seq<Action>, i: nat, c: Confirmation) {
    PreparedAt(p, actions, i, c.preparation)
    && (PreparedFromRows(p, actions, i, c.preparation); FitsPreparation(p, actions, i, c))
  }

  /** In every run, a confirmation yields a fresh receipt if and only if its id is new and it fits a preparation
      made before that is not exposed yet; it is a replay if and only if its id was confirmed before. */
  lemma ConfirmsExactly(p: Policy, actions: seq<Action>, c: Confirmation)
    ensures IsFresh(Reach(p, actions), c)
            <==> && (forall i: nat :: !ConfirmedAt(p, actions, i, c.id))
                 && !ExposedIn(p, actions, c.preparation)
                 && exists i: nat :: PreparedFor(p, actions, i, c)
    ensures Confirm(Reach(p, actions), c).Ok? && !IsFresh(Reach(p, actions), c)
            <==> exists i: nat :: ConfirmedAt(p, actions, i, c.id)
  {
    hide Reach, Confirm, Prepare, ConfirmedAt, PreparedAt, ExposedIn, FitsPreparation, PreparationAllows;
    var w := Reach(p, actions);
    ConfirmGuards(w, c);
    if c.id in w.exposures {
      var i := ExposureOrigin(p, actions, c.id);
    }
    if i: nat :| ConfirmedAt(p, actions, i, c.id) {
      ConfirmedStays(p, actions, i, c.id);
    }
    if PreparationAllows(w, c) {
      Allowed(w, c);
      var i := PreparationOrigin(p, actions, c.preparation);
      PreparationGuards(p, actions, i, c);
      assert PreparedFor(p, actions, i, c);
    }
    if i: nat :| PreparedFor(p, actions, i, c) {
      PreparationGuards(p, actions, i, c);
    }
  }

  lemma Allowed(w: World, c: Confirmation)
    requires PreparationAllows(w, c)
    ensures c.preparation in w.preps
  {
  }

  // ---- candidate sets -------------------------------------------------------

  /** The nominee is the first in the window that names its record. */
  predicate FirstMention(ns: seq<Nominee>, i: nat) {
    i < |ns| && forall j :: 0 <= j < i ==> ns[j].id != ns[i].id
  }

  lemma {:induction false} UniqueExactly(ns: seq<Nominee>, seen: set<Id>, n: Nominee)
    ensures n in Unique(ns, seen) <==> n.id !in seen && exists i: nat :: FirstMention(ns, i) && ns[i] == n
    decreases |ns|
  {
    if ns != [] {
      var rest := ns[1..];
      UniqueExactly(rest, if ns[0].id in seen then seen else seen + {ns[0].id}, n);
      assert FirstMention(ns, 0);
      forall i: nat | FirstMention(rest, i) && rest[i].id != ns[0].id
        ensures FirstMention(ns, i + 1) && ns[i + 1] == rest[i]
      {
        assert forall j :: 0 < j < i + 1 ==> ns[j] == rest[j - 1];
      }
      forall i: nat | FirstMention(ns, i) && i > 0
        ensures FirstMention(rest, i - 1) && rest[i - 1] == ns[i] && ns[i].id != ns[0].id
      {
        assert forall j :: 0 <= j < i - 1 ==> rest[j] == ns[j + 1];
      }
    }
  }

  /** The nominees within the window. */
  function Shown(q: SetRequest): seq<Nominee> {
    if q.window < |q.nominees| then q.nominees[..q.window] else q.nominees
  }

  /** A record that may be nominated: it exists, is not excluded, is active (or superseded, if asked for), belongs
      to the scope, is not sensitive or restricted for a remote request, and reads as the nominator saw it. */
  predicate MayNominate(rows: Rows, excluded: set<Id>, q: SetRequest, n: Nominee) {
    && n.id in rows && n.id !in excluded
    && (rows[n.id].status == Active || (q.includeSuperseded && rows[n.id].status == Superseded))
    && (var a := rows[n.id].raw.authority;
        a.None? || (a.value.workspace == q.scope.workspace && a.value.subject == q.scope.subject))
    && (q.remote ==> rows[n.id].raw.sensitivity != "sensitive" && rows[n.id].raw.sensitivity != "restricted")
    && (n.content == "" || n.content == rows[n.id].content)
  }

  lemma EligibleIs(rows: Rows, excluded: set<Id>, q: SetRequest, n: Nominee)
    ensures Eligible(rows, excluded, q, n) <==> MayNominate(rows, excluded, q, n)
  {
  }

  lemma NominatedExactly(q: SetRequest, n: Nominee)
    ensures n in Nominated(q) <==> exists i: nat :: FirstMention(Shown(q), i) && Shown(q)[i] == n
  {
    hide FirstMention, Unique;
    assert Prefix(q.nominees, q.window) == Shown(q);
    UniqueExactly(Shown(q), {}, n);
  }

  /** In every run, creating a candidate set succeeds if and only if its id is new and every record nominated
      within the window may be nominated. */
  lemma CreatesExactly(p: Policy, actions: seq<Action>, q: SetRequest)
    ensures var w := Reach(p, actions);
            CreateSet(w, q).Ok?
            <==> && (forall i: nat :: !CreatedAt(p, actions, i, q.id))
                 && forall i: nat :: FirstMention(Shown(q), i) ==>
                                       MayNominate(LedgerOf(w, q.scope.subject).rows, ExcludedOf(w, q.scope.subject), q, Shown(q)[i])
  {
    hide Reach, CreateSet, CreatedAt, LedgerOf, ExcludedOf, MayNominate, Eligible, FirstMention, Shown, Nominated;
    var w := Reach(p, actions);
    var rows, excluded := LedgerOf(w, q.scope.subject).rows, ExcludedOf(w, q.scope.subject);
    if q.id in w.sets {
      var i := SetOrigin(p, actions, q.id);
    }
    if i: nat :| CreatedAt(p, actions, i, q.id) {
      CreatedStays(p, actions, i, q.id);
    }
    CreateGuards(w, q);
    FirstInRange(Shown(q));
    forall n
      ensures Eligible(rows, excluded, q, n) <==> MayNominate(rows, excluded, q, n)
      ensures n in Nominated(q) <==> exists i: nat :: FirstMention(Shown(q), i) && Shown(q)[i] == n
    {
      EligibleIs(rows, excluded, q, n);
      NominatedExactly(q, n);
    }
    if i: nat :| FirstMention(Shown(q), i) && !MayNominate(rows, excluded, q, Shown(q)[i]) {
      assert Shown(q)[i] in Nominated(q);
    }
  }

  lemma FirstInRange(ns: seq<Nominee>)
    ensures forall i: nat :: FirstMention(ns, i) ==> i < |ns|
  {
  }

  lemma CreateGuards(w: World, q: SetRequest)
    ensures CreateSet(w, q).Ok?
            <==> q.id !in w.sets
                 && forall n :: n in Nominated(q) ==>
                                  Eligible(LedgerOf(w, q.scope.subject).rows, ExcludedOf(w, q.scope.subject), q, n)
  {
    hide Durable, Nominated, Eligible;
  }

  /** The candidates are nominated records that the ranker returned, at most as many as the limit; below the
      limit none of those is missing. */
  lemma CandidatesExactly(q: SetRequest, k: Id)
    ensures var ids, cs := Ids(Nominated(q)), Durable(q);
            && |cs| <= q.limit
            && (k in cs ==> k in q.aggregate(ids) && exists i: nat :: FirstMention(Shown(q), i) && Shown(q)[i].id == k)
            && (|cs| < q.limit && k in q.aggregate(ids) && k in ids ==> k in cs)
  {
    hide FirstMention, Unique, Shown, Nominated;
    if k in Durable(q) {
      var n :| n in Nominated(q) && n.id == k;
      NominatedExactly(q, n);
    }
  }

  // ---- packing --------------------------------------------------------------

  lemma {:induction false} DedupeOrdered(ids: seq<Id>, seen: set<Id>)
    ensures InFirstOrder(ids, Dedupe(ids, seen))
    decreases |ids|
  {
    hide FirstAt;
    if ids != [] {
      var rest, r := ids[1..], Dedupe(ids, seen);
      var seen' := if ids[0] in seen then seen else seen + {ids[0]};
      var tail := Dedupe(rest, seen');
      DedupeOrdered(rest, seen');
      forall a, b | 0 <= a < b < |r|
        ensures Precedes(ids, r[a], r[b])
      {
        var shift := |r| - |tail|;
        assert r[b] == tail[b - shift] && tail[b - shift] in tail;
        if a - shift >= 0 {
          assert r[a] == tail[a - shift] && tail[a - shift] in tail;
          var i: nat, j: nat :| i < j && FirstAt(rest, tail[a - shift], i) && FirstAt(rest, tail[b - shift], j);
          Later(ids, r[a], i);
          Later(ids, r[b], j);
        } else {
          var j := First(rest, r[b]);
          Later(ids, r[b], j);
          AtStart(ids);
        }
      }
    }
  }

  lemma AtStart(ids: seq<Id>)
    requires ids != []
    ensures FirstAt(ids, ids[0], 0)
  {
  }

  lemma Later(ids: seq<Id>, k: Id, i: nat)
    requires ids != [] && k != ids[0] && FirstAt(ids[1..], k, i)
    ensures FirstAt(ids, k, i + 1)
  {
    assert ids[..i + 1] == [ids[0]] + ids[1..][..i];
  }

  /** A prepared context takes the requested records once each, in order, and as many as fit the budget: with the
      next one it would exceed it. */
  lemma AcceptedIsLongest(p: Policy, rows: Rows, q: ContextRequest)
    requires forall k :: k in q.recordIds ==> k in rows
    ensures var r, wanted := Accepted(p, rows, q), Requested(q);
            && r <= wanted && InFirstOrder(q.recordIds, wanted)
            && (r != [] ==> |Serialize(p, rows, r)| <= q.budget)
            && (|r| < |wanted| ==> |Serialize(p, rows, wanted[..|r| + 1])| > q.budget)
  {
    hide Block, Blocks, InFirstOrder;
    DedupeOrdered(q.recordIds, {});
    ContextFits(p, rows, q);
    var r, wanted := Accepted(p, rows, q), Requested(q);
    if |r| < |wanted| {
      PackedStops(p, rows, wanted, |HEADER| + |FOOTER|, q.budget);
    }
  }

  lemma {:induction false} PackedStops(p: Policy, rows: Rows, ids: seq<Id>, used: nat, budget: int)
    requires forall k :: k in ids ==> k in rows
    requires |Packed(p, rows, ids, used, budget)| < |ids|
    ensures used + |Blocks(p, rows, ids[..|Packed(p, rows, ids, used, budget)| + 1])| > budget
    decreases |ids|
  {
    hide Block, Blocks;
    var size := |Block(p, ids[0], rows[ids[0]])|;
    if used + size > budget {
      assert ids[..1] == [ids[0]] + [];
      BlocksCons(p, rows, ids[0], []);
      NoBlocks(p, rows);
    } else {
      var rest := Packed(p, rows, ids[1..], used + size, budget);
      PackedStops(p, rows, ids[1..], used + size, budget);
      assert ids[..|rest| + 2] == [ids[0]] + ids[1..][..|rest| + 1];
      BlocksCons(p, rows, ids[0], ids[1..][..|rest| + 1]);
    }
  }

  // ---- receipts -------------------------------------------------------------

  /** A fresh receipt says what was confirmed, and points at the event that logs the exposed records. */
  lemma ReceiptIs(w: World, c: Confirmation, w': World, receipt: Receipt)
    requires Confirm(w, c) == Ok((w', Fresh(receipt)))
    ensures receipt.id == c.receiptId && receipt.preparation == c.preparation && receipt.scope == c.scope
            && receipt.context == c.context && receipt.exposedAt == c.now
    ensures c.preparation in w.preps && w'.exposures == w.exposures[c.id := receipt]
    ensures var log := LedgerOf(w', c.scope.subject).log;
            && receipt.auditEvent < |log| && log[receipt.auditEvent].payload.preparation == Some(c.preparation)
            && log[receipt.auditEvent].payload.recordIds == w.preps[c.preparation].recordIds
            && log[..receipt.auditEvent] == LedgerOf(w, c.scope.subject).log
  {
  }

  // ---- orders ---------------------------------------------------------------

  lemma {:induction false} UniqueIsDedupe(ns: seq<Nominee>, seen: set<Id>)
    ensures Ids(Unique(ns, seen)) == Dedupe(Ids(ns), seen)
    decreases |ns|
  {
    if ns != [] {
      assert Ids(ns)[1..] == Ids(ns[1..]);
      if ns[0].id in seen {
        UniqueIsDedupe(ns[1..], seen);
      } else {
        UniqueIsDedupe(ns[1..], seen + {ns[0].id});
        var rest := Unique(ns[1..], seen + {ns[0].id});
        assert ([ns[0]] + rest)[1..] == rest;
      }
    }
  }

  /** The ranker is given the nominated records once each, in the order of their first mention. */
  lemma NominatedInOrder(q: SetRequest)
    ensures InFirstOrder(Ids(Shown(q)), Ids(Nominated(q)))
  {
    hide InFirstOrder;
    assert Prefix(q.nominees, q.window) == Shown(q);
    UniqueIsDedupe(Shown(q), {});
    DedupeOrdered(Ids(Shown(q)), {});
  }

  /** `x` stands somewhere before `y`. */
  ghost predicate StandsBefore(s: seq<Id>, x: Id, y: Id) {
    exists i, j :: 0 <= i < j < |s| && s[i] == x && s[j] == y
  }

  lemma {:induction false} WithinOrdered(ids: seq<Id>, allowed: seq<Id>, a: nat, b: nat)
    requires a < b < |Within(ids, allowed)|
    ensures StandsBefore(ids, Within(ids, allowed)[a], Within(ids, allowed)[b])
    decreases |ids|
  {
    var r, rest := Within(ids, allowed), Within(ids[1..], allowed);
    var shift := |r| - |rest|;
    if a >= shift {
      WithinOrdered(ids[1..], allowed, a - shift, b - shift);
      var i, j :| 0 <= i < j < |ids[1..]| && ids[1..][i] == r[a] && ids[1..][j] == r[b];
      assert ids[i + 1] == r[a] && ids[j + 1] == r[b];
    } else {
      assert r[b] == rest[b - shift] && rest[b - shift] in rest;
      var j :| 0 <= j < |ids[1..]| && ids[1..][j] == r[b];
      assert ids[0] == r[a] && ids[j + 1] == r[b];
    }
  }

  /** The candidates keep the order of the ranker. */
  lemma CandidatesInOrder(q: SetRequest, a: nat, b: nat)
    requires a < b < |Durable(q)|
    ensures StandsBefore(q.aggregate(Ids(Nominated(q))), Durable(q)[a], Durable(q)[b])
  {
    hide Nominated;
    var ids := Ids(Nominated(q));
    WithinOrdered(q.aggregate(ids), ids, a, b);
  }

  // ---- the text -------------------------------------------------------------

  lemma {:induction false} BlocksConcat(p: Policy, rows: Rows, a: seq<Id>, b: seq<Id>)
    requires (forall k :: k in a ==> k in rows) && forall k :: k in b ==> k in rows
    ensures Blocks(p, rows, a + b) == Blocks(p, rows, a) + Blocks(p, rows, b)
    decreases |b|
  {
    hide Block;
    if b == [] {
      assert a + b == a;
      NoBlocks(p, rows);
    } else {
      var n := |b| - 1;
      assert (a + b)[..|a| + n] == a + b[..n];
      BlocksConcat(p, rows, a, b[..n]);
    }
  }

  /** Between header, footer and the blocks of the other records, in order, stands the block of each record. */
  lemma ContextReads(p: Policy, rows: Rows, ids: seq<Id>, i: nat)
    requires (forall k :: k in ids ==> k in rows) && i < |ids|
    ensures Serialize(p, rows, ids)
            == HEADER + (Blocks(p, rows, ids[..i]) + Block(p, ids[i], rows[ids[i]]) + Blocks(p, rows, ids[i + 1..])) + FOOTER
  {
    hide Block, Blocks, HEADER, FOOTER;
    var k := ids[i];
    assert ids == (ids[..i] + [k]) + ids[i + 1..];
    BlocksConcat(p, rows, ids[..i] + [k], ids[i + 1..]);
    BlocksConcat(p, rows, ids[..i], [k]);
    OneBlock(p, rows, k);
  }

  /** A block names the record and, on its own lines, its text without surrounding space. */
  lemma BlockReads(p: Policy, id: Id, r: Record)
    ensures var title := "<memory id=\"" + p.idText(id) + "\">\n";
            && title <= Block(p, id, r)
            && Block(p, id, r)[|title|..] == p.strip(r.content) + "\n</memory>\n"
  {
  }

  lemma OneBlock(p: Policy, rows: Rows, k: Id)
    requires k in rows
    ensures Blocks(p, rows, [k]) == Block(p, k, rows[k])
  {
    hide Block;
    assert [k][..0] == [];
  }
}
