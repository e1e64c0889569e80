/** When a typed observation is denied, sent to review, ignored or committed, and what a commit leaves, stated
    on the rows before the call. */
module SlotDecisions {
  import opened Wrappers
  import opened Records
  import opened Operations
  import opened Admissions
  import opened TypedSlots
  import opened TypedSlotTheorems

  /** The row is a current value of the observation's slot: the observation may supersede and is new, and the row
      is active, nominated by one of the queries, of the same slot and within the authority of the scope. */
  predicate Rivals(p: Policy, rows: Rows, o: Observation, k: Id) {
    && o.trusted && MaySupersede(o) && !LiveIdentity(rows, o)
    && k in rows && rows[k].status == Active
    && Found(p, rows[k], o) && AboutTheSame(p, rows[k], o)
    && (rows[k].raw.authority.None? || rows[k].raw.authority == Some(o.scope))
    && (ByKey(p, rows[k], o) || k !in o.excluded)
  }

  /** An observation with a key: an atomic fact, a transition, or the state of an entity under its own name. */
  predicate MaySupersede(o: Observation) {
    && o.factKey.Some? && o.factKey.value != ""
    && (o.unit.kind == AtomicFact || o.unit.kind == StateTransition
        || (o.unit.kind == EnvironmentState && o.unit.holder == OfEntity(o.unit.relation) && o.unit.relation != "episode"))
  }

  /** The subject of an atomic fact; other payloads have none. */
  function SubjectOf(o: Observation): string {
    match o.unit.holder
    case OfSubject(name) => name
    case OfEntity(_) => ""
  }

  predicate AboutUser(p: Policy, o: Observation) {
    var who := p.lower(SubjectOf(o)); who == "user" || who == "self" || who == "speaker"
  }

  /** Same holder and relation up to case; a row without typed payload is about the user. */
  predicate AboutTheSame(p: Policy, r: Record, o: Observation) {
    if r.raw.unit.None? then AboutUser(p, o)
    else
      var u := r.raw.unit.value;
      && u.holder.name != "" && p.lower(u.holder.name) == p.lower(SubjectOf(o))
      && u.relation != "" && p.lower(u.relation) == p.lower(o.unit.relation)
  }

  /** Found by the fact key, or by the relation of a fact about the user. */
  predicate ByKey(p: Policy, r: Record, o: Observation) {
    r.factKey == o.factKey
    || (AboutUser(p, o) && SubjectOf(o) != "" && r.factKey == Some(p.lower(o.unit.relation)) && r.factKey != Some(""))
  }

  /** Found by its key, or as an active typed row of the same subject, relation and workspace. */
  predicate Found(p: Policy, r: Record, o: Observation) {
    ByKey(p, r, o)
    || (&& SubjectOf(o) != "" && o.unit.holder.OfSubject? && o.unit.relation != ""
        && r.raw.authority.Some? && r.raw.authority.value.workspace == o.scope.workspace
        && r.raw.authority.value.subject == o.scope.subject
        && r.raw.unit.Some? && r.raw.unit.value.lifecycle == Active
        && p.lower(r.raw.unit.value.holder.name) == p.lower(SubjectOf(o))
        && p.lower(r.raw.unit.value.relation) == p.lower(o.unit.relation))
  }

  /** Some current value was observed later. */
  ghost predicate IsLate(p: Policy, rows: Rows, o: Observation) {
    exists k :: Rivals(p, rows, o, k) && Later(rows[k], o)
  }

  /** The row's typed time is after the observation's. */
  predicate Later(r: Record, o: Observation) {
    o.unit.time.Some? && r.raw.unit.Some? && r.raw.unit.value.time.Some? && o.unit.time.value < r.raw.unit.value.time.value
  }

  /** Invalid, barred, or aimed at a record excluded from this call. */
  ghost predicate MustDeny(p: Policy, rows: Rows, o: Observation) {
    !o.valid || o.barred || exists k :: Rivals(p, rows, o, k) && k in o.excluded
  }

  /** Untrusted, sent to review by policy, or ambiguous: a current value of another kind, or several of them that
      the observation is not older than. */
  ghost predicate NeedsReview(p: Policy, rows: Rows, o: Observation) {
    || !o.trusted || o.review
    || (exists k :: Rivals(p, rows, o, k) && rows[k].raw.unit.Some? && rows[k].raw.unit.value.kind != o.unit.kind)
    || (!IsLate(p, rows, o) && exists j, k :: Rivals(p, rows, o, j) && Rivals(p, rows, o, k) && j != k)
  }

  lemma MatchesExactly(p: Policy, rows: Rows, o: Observation, k: Id)
    ensures k in Matches(p, rows, o) <==> Rivals(p, rows, o, k)
  {
    hide LiveIdentity;
  }

  lemma LateIs(p: Policy, rows: Rows, o: Observation)
    ensures Historical(p, rows, o) <==> IsLate(p, rows, o)
  {
    hide Matches, Rivals;
    forall k { MatchesExactly(p, rows, o, k); }
    assert Matches(p, rows, o) <= rows.Keys by { MatchesInRows(p, rows, o); }
    if Historical(p, rows, o) {
      var k :| k in Matches(p, rows, o) && TimeOf(rows[k]).Some? && o.unit.time.value < TimeOf(rows[k]).value;
      assert Rivals(p, rows, o, k) && Later(rows[k], o);
    }
    if k :| Rivals(p, rows, o, k) && Later(rows[k], o) {
      assert k in Matches(p, rows, o);
    }
  }

  lemma RivalsAreRows(p: Policy, rows: Rows, o: Observation)
    ensures forall k :: Rivals(p, rows, o, k) ==> k in rows && rows[k].status.Active?
  {
  }

  lemma ConflictIs(p: Policy, rows: Rows, o: Observation)
    ensures ShapeConflict(p, rows, o)
            <==> exists k :: Rivals(p, rows, o, k) && rows[k].raw.unit.Some? && rows[k].raw.unit.value.kind != o.unit.kind
  {
    hide Matches, Rivals;
    RivalsAreRows(p, rows, o);
    forall k { MatchesExactly(p, rows, o, k); }
  }

  lemma SeveralIs(p: Policy, rows: Rows, o: Observation)
    ensures |Matches(p, rows, o)| > 1 <==> exists j, k :: Rivals(p, rows, o, j) && Rivals(p, rows, o, k) && j != k
  {
    hide Matches, Rivals;
    forall k { MatchesExactly(p, rows, o, k); }
    var s := Matches(p, rows, o);
    if j, k :| Rivals(p, rows, o, j) && Rivals(p, rows, o, k) && j != k {
      assert j in s && k in s - {j} && |s| == |s - {j}| + 1;
    }
    if |s| > 1 {
      var j :| j in s;
      assert |s - {j}| == |s| - 1;
      var k :| k in s - {j};
      assert Rivals(p, rows, o, j) && Rivals(p, rows, o, k);
    }
  }

  /** Each verdict by its own condition; a trusted observation whose identity is already live changes nothing. */
  lemma VerdictExactly(p: Policy, rows: Rows, o: Observation)
    ensures var v := Verdict(p, rows, o);
            && (v == Denied <==> MustDeny(p, rows, o))
            && (v == PendingReview <==> !MustDeny(p, rows, o) && NeedsReview(p, rows, o))
            && (v == Noop <==> !MustDeny(p, rows, o) && !NeedsReview(p, rows, o) && LiveIdentity(rows, o))
            && (v == Committed <==> !MustDeny(p, rows, o) && !NeedsReview(p, rows, o) && !LiveIdentity(rows, o))
  {
    hide Matches, Rivals, Historical, IsLate, ShapeConflict, LiveIdentity;
    forall k { MatchesExactly(p, rows, o, k); }
    RivalsAreRows(p, rows, o);
    LateIs(p, rows, o);
    ConflictIs(p, rows, o);
    SeveralIs(p, rows, o);
  }

  /** The outcome of an observation is its verdict, but that a commit needs a free record id; without a commit no
      row changes. */
  lemma OutcomeExactly(p: Policy, l: Ledger, o: Observation)
    ensures var out := Observe(p, l, o);
            var commits := !MustDeny(p, l.rows, o) && !NeedsReview(p, l.rows, o) && !LiveIdentity(l.rows, o);
            && (out.state == Committed <==> commits && o.id !in l.rows)
            && (out.state == Denied <==> MustDeny(p, l.rows, o) || (commits && o.id in l.rows))
            && (out.state == PendingReview <==> !MustDeny(p, l.rows, o) && NeedsReview(p, l.rows, o))
            && (out.state == Noop <==> !MustDeny(p, l.rows, o) && !NeedsReview(p, l.rows, o) && LiveIdentity(l.rows, o))
            && (out.state != Committed ==> out.l.rows == l.rows && out.l.generation == l.generation)
  {
    hide Verdict, CommitObservation, MustDeny, NeedsReview, LiveIdentity;
    VerdictExactly(p, l.rows, o);
  }

  // ---- what a commit leaves -------------------------------------------------

  /** The observation or a value it replaces is not to be trusted. */
  ghost predicate Suspect(p: Policy, rows: Rows, o: Observation) {
    o.tier == Untrusted
    || exists k :: Rivals(p, rows, o, k) && (rows[k].raw.taint != {} || rows[k].tier == Untrusted)
  }

  /** The row says what the observation says; suspect ones are quarantined as untrusted and labelled. */
  ghost predicate HoldsObservation(p: Policy, rows: Rows, r: Record, o: Observation) {
    var suspect := Suspect(p, rows, o);
    && r.content == o.content && r.createdAt == o.now && r.factKey == o.factKey && r.provenance == o.provenance
    && r.tier == (if suspect then Untrusted else o.tier)
    && r.raw.authority == Some(o.scope) && r.raw.related == [] && r.raw.sensitivity == "personal" && !r.raw.purged
    && (forall x :: x in r.raw.taint
                    <==> || (exists k :: Rivals(p, rows, o, k) && x in rows[k].raw.taint)
                         || (suspect && (x == UntrustedContent || x == DerivedFromTainted)))
    && r.raw.unit.Some? && r.raw.unit.value.(lifecycle := o.unit.lifecycle) == o.unit
    && r.raw.unit.value.lifecycle == r.status
  }

  lemma LabelIs(p: Policy, rows: Rows, o: Observation, x: Label)
    ensures Matches(p, rows, o) <= rows.Keys
    ensures x in TargetLabels(rows, Matches(p, rows, o)) <==> exists k :: Rivals(p, rows, o, k) && x in rows[k].raw.taint
  {
    hide Matches, Rivals;
    RivalsAreRows(p, rows, o);
    forall k { MatchesExactly(p, rows, o, k); }
    if k :| Rivals(p, rows, o, k) && x in rows[k].raw.taint {
      assert k in Matches(p, rows, o);
    }
  }

  lemma SuspectIs(p: Policy, rows: Rows, o: Observation)
    requires Matches(p, rows, o) <= rows.Keys
    ensures Tainted(rows, o, Matches(p, rows, o)) <==> Suspect(p, rows, o)
  {
    hide Matches, Rivals;
    RivalsAreRows(p, rows, o);
    forall k { MatchesExactly(p, rows, o, k); }
    if k :| Rivals(p, rows, o, k) && (rows[k].raw.taint != {} || rows[k].tier == Untrusted) {
      assert k in Matches(p, rows, o);
    }
  }

  lemma ObservedFields(p: Policy, rows: Rows, o: Observation)
    ensures var r, targets := ObservedRow(p, rows, o), Matches(p, rows, o);
            && targets <= rows.Keys
            && (var tainted := Tainted(rows, o, targets);
                && r.content == o.content && r.createdAt == o.now && r.factKey == o.factKey && r.provenance == o.provenance
                && r.tier == (if tainted then Untrusted else o.tier)
                && r.status == (if tainted then Quarantined else Active)
                && r.raw.authority == Some(o.scope) && r.raw.related == [] && r.raw.sensitivity == "personal"
                && !r.raw.purged && r.raw.supersededBy.None?
                && r.raw.unit == Some(o.unit.(lifecycle := r.status))
                && (forall x :: x in r.raw.taint
                                <==> || x in TargetLabels(rows, targets)
                                     || (tainted && (x == UntrustedContent || x == DerivedFromTainted)))
                && r.supersedes == if Historical(p, rows, o) then None else FirstOf(Listing(rows, targets)))
  {
    MatchesInRows(p, rows, o);
    hide Matches, Historical, Tainted, TargetLabels;
  }

  lemma ObservedRowIs(p: Policy, rows: Rows, o: Observation)
    ensures var r := ObservedRow(p, rows, o);
            && HoldsObservation(p, rows, r, o) && r.status == (if Suspect(p, rows, o) then Quarantined else Active)
            && r.raw.supersededBy.None?
  {
    hide Matches, Rivals, Historical, Suspect, TargetLabels, Tainted, ObservedRow;
    ObservedFields(p, rows, o);
    forall x { LabelIs(p, rows, o, x); }
    SuspectIs(p, rows, o);
  }

  lemma ObservedSupersedes(p: Policy, rows: Rows, o: Observation)
    ensures var r := ObservedRow(p, rows, o);
            && (r.supersedes.Some? <==> !IsLate(p, rows, o) && exists k :: Rivals(p, rows, o, k))
            && (r.supersedes.Some? ==> Rivals(p, rows, o, r.supersedes.value))
  {
    hide Matches, Rivals, Historical, IsLate, TargetLabels, Tainted, ObservedRow;
    ObservedFields(p, rows, o);
    forall k { MatchesExactly(p, rows, o, k); }
    LateIs(p, rows, o);
    var ids := Listing(rows, Matches(p, rows, o));
    if ids != [] {
      assert ids[0] in ids;
    }
    if k :| Rivals(p, rows, o, k) {
      assert k in ids;
    }
  }

  /** A commit adds the observation. A current one retires every value it replaces; a late one is itself retired
      at once in favour of a current value, unless it is quarantined, and retires nothing. */
  lemma CommitLeaves(p: Policy, l: Ledger, o: Observation, l': Ledger)
    requires Observe(p, l, o) == Outcome(l', Committed)
    ensures o.id !in l.rows && l'.rows.Keys == l.rows.Keys + {o.id}
    ensures HoldsObservation(p, l.rows, l'.rows[o.id], o)
    ensures var late, r := IsLate(p, l.rows, o), l'.rows[o.id];
            && r.status == (if Suspect(p, l.rows, o) then Quarantined else if late then Superseded else Active)
            && (r.status == Superseded ==>
                  r.raw.supersededBy.Some? && Rivals(p, l.rows, o, r.raw.supersededBy.value) && r.supersedes.None?)
            && (r.status != Superseded ==> r.raw.supersededBy.None?)
            && (r.supersedes.Some? <==> !late && exists k :: Rivals(p, l.rows, o, k))
            && (r.supersedes.Some? ==> Rivals(p, l.rows, o, r.supersedes.value))
    ensures forall k :: k in l.rows ==>
                          if Rivals(p, l.rows, o, k) && !IsLate(p, l.rows, o)
                          then RetiredFor(l.rows[k], l'.rows[k], o.id, o.now) else l'.rows[k] == l.rows[k]
  {
    hide CommitObservation, Verdict, Matches, Rivals, Historical, IsLate, Suspect, ObservedRow, Displaces, Successor;
    assert l' == CommitObservation(p, l, o) && o.id !in l.rows;
    CommitRows(p, l, o);
    ObservedRowIs(p, l.rows, o);
    DisplacesIs(p, l.rows, o);
    ObservedSupersedes(p, l.rows, o);
  }

  lemma DisplacesIs(p: Policy, rows: Rows, o: Observation)
    ensures var gone := Displaces(p, rows, o);
            && (IsLate(p, rows, o) ==> gone == [o.id] && Rivals(p, rows, o, Successor(p, rows, o)))
            && (!IsLate(p, rows, o) ==> Successor(p, rows, o) == o.id && forall k :: k in gone <==> Rivals(p, rows, o, k))
    ensures forall k :: Rivals(p, rows, o, k) ==> k in rows && rows[k].status.Active?
  {
    hide Matches, Rivals, Historical;
    MatchesInRows(p, rows, o);
    RivalsAreRows(p, rows, o);
    forall k { MatchesExactly(p, rows, o, k); }
    LateIs(p, rows, o);
    var ids := Listing(rows, Matches(p, rows, o));
    if k :| Rivals(p, rows, o, k) {
      assert k in ids;
      assert ids[0] in ids;
    }
  }
}
