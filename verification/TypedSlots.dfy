/** Typed observations: reconciliation of a new observation with the current value of its slot,
    and the commit that keeps late arrivals as history. */
module TypedSlots {
  import opened Wrappers
  import opened Records
  import opened AuditLog
  import opened Operations

  /** An `add` proposal carrying a typed unit. `trusted` says every source may supersede; `tier` is the
      trust tier derived from those sources; `valid`, `review` and `barred` are the verdicts of grounding
      checks, of the review policy and of the exclusion list, none of which reads the slot. */
  datatype Observation = Observation(id: Id, now: int, scope: Scope, unit: Unit, factKey: Option<string>,
                                     content: string, trusted: bool, tier: Tier, valid: bool, review: bool,
                                     barred: bool, excluded: set<Id>, provenance: Provenance)

  datatype State = Committed | Noop | PendingReview | Denied

  datatype Outcome = Outcome(l: Ledger, state: State)

  /** `payload.subject`, which only atomic facts have. */
  function SubjectText(o: Observation): string {
    if o.unit.holder.OfSubject? then o.unit.holder.name else ""
  }

  predicate SelfReferring(p: Policy, o: Observation) {
    p.lower(SubjectText(o)) in {"user", "self", "speaker"}
  }

  /** Same subject (or entity) and relation up to case; untyped rows belong to the user. */
  predicate SlotCompatible(p: Policy, r: Record, o: Observation) {
    match r.raw.unit
    case None => SelfReferring(p, o)
    case Some(u) =>
      && u.holder.name != "" && u.relation != ""
      && p.lower(u.holder.name) == p.lower(SubjectText(o)) && p.lower(u.relation) == p.lower(o.unit.relation)
  }

  predicate Authorized(r: Record, scope: Scope) {
    r.raw.authority.None? || r.raw.authority == Some(scope)
  }

  /** `active_records_for_typed_slot`. */
  predicate InTypedSlot(p: Policy, k: Id, r: Record, o: Observation) {
    && o.unit.holder.OfSubject? && SubjectText(o) != "" && o.unit.relation != ""
    && r.raw.authority.Some? && r.raw.authority.value.workspace == o.scope.workspace
    && r.raw.authority.value.subject == o.scope.subject
    && r.raw.unit.Some? && r.raw.unit.value.lifecycle.Active?
    && p.lower(r.raw.unit.value.holder.name) == p.lower(SubjectText(o))
    && p.lower(r.raw.unit.value.relation) == p.lower(o.unit.relation)
    && k !in o.excluded
  }

  /** The rows the three queries nominate. */
  predicate Nominated(p: Policy, k: Id, r: Record, o: Observation) {
    || (Truthy(o.factKey) && r.factKey == o.factKey)
    || InTypedSlot(p, k, r, o)
    || (SubjectText(o) != "" && SelfReferring(p, o) && Truthy(r.factKey) && r.factKey == Some(p.lower(o.unit.relation)))
  }

  /** Which observations are reconciled with a slot at all. */
  predicate Reconcilable(o: Observation) {
    && Truthy(o.factKey)
    && (o.unit.kind.AtomicFact? || o.unit.kind.StateTransition?
        || (o.unit.kind.EnvironmentState? && o.unit.holder.OfEntity?
            && o.unit.holder.name == o.unit.relation && o.unit.holder.name != "episode"))
  }

  predicate LiveIdentity(rows: Rows, o: Observation) {
    exists k :: k in rows && rows[k].raw.authority.Some?
                && rows[k].raw.authority.value.workspace == o.scope.workspace
                && rows[k].raw.unit.Some? && rows[k].raw.unit.value.identity == o.unit.identity
                && (rows[k].raw.unit.value.lifecycle.Active? || rows[k].raw.unit.value.lifecycle.Quarantined?)
  }

  predicate IsMatch(p: Policy, rows: Rows, o: Observation, k: Id) {
    k in rows && rows[k].status.Active? && Nominated(p, k, rows[k], o)
    && SlotCompatible(p, rows[k], o) && Authorized(rows[k], o.scope)
  }

  /** The current rows of the observation's slot. */
  function Matches(p: Policy, rows: Rows, o: Observation): set<Id> {
    if !o.trusted || !Reconcilable(o) || LiveIdentity(rows, o) then {}
    else set k | k in rows && IsMatch(p, rows, o, k)
  }

  lemma MatchesInRows(p: Policy, rows: Rows, o: Observation)
    ensures Matches(p, rows, o) <= rows.Keys
  {
  }

  function TimeOf(r: Record): Option<int> {
    if r.raw.unit.Some? then r.raw.unit.value.time else None
  }

  /** Older than some current value of the slot. */
  predicate Historical(p: Policy, rows: Rows, o: Observation) {
    o.unit.time.Some?
    && exists k :: k in Matches(p, rows, o) && TimeOf(rows[k]).Some? && o.unit.time.value < TimeOf(rows[k]).value
  }

  predicate ShapeConflict(p: Policy, rows: Rows, o: Observation) {
    exists k :: k in Matches(p, rows, o) && rows[k].raw.unit.Some? && rows[k].raw.unit.value.kind != o.unit.kind
  }

  function Verdict(p: Policy, rows: Rows, o: Observation): State {
    var matches := Matches(p, rows, o);
    if !o.valid || (exists k :: k in matches && k in o.excluded) then Denied
    else if o.barred then Denied
    else if !o.trusted || o.review || ShapeConflict(p, rows, o)
            || (!Historical(p, rows, o) && |matches| > 1) then PendingReview
    else if LiveIdentity(rows, o) then Noop
    else Committed
  }

  predicate Tainted(rows: Rows, o: Observation, targets: set<Id>)
    requires targets <= rows.Keys
  {
    o.tier.Untrusted?
    || exists k :: k in targets && (rows[k].raw.taint != {} || rows[k].tier.Untrusted? || !rows[k].status.Active?)
  }

  function TargetLabels(rows: Rows, targets: set<Id>): set<Label>
    requires targets <= rows.Keys
  {
    set k, x | k in targets && x in rows[k].raw.taint :: x
  }

  function ObservedRow(p: Policy, rows: Rows, o: Observation): Record {
    var targets := Matches(p, rows, o);
    var tainted := Tainted(rows, o, targets);
    var status := if tainted then Quarantined else Active;
    var labels := TargetLabels(rows, targets) + if tainted then {UntrustedContent, DerivedFromTainted} else {};
    Record(o.content, if tainted then Untrusted else o.tier, o.provenance, o.now, status,
           if Historical(p, rows, o) then None else FirstOf(Listing(rows, targets)), o.factKey,
           Raw(Some(o.scope), [], labels, "personal", Some(o.unit.(lifecycle := status)), None, false), None)
  }

  /** The ids the commit supersedes: the new row itself when it is history, else the slot's current rows. */
  function Displaces(p: Policy, rows: Rows, o: Observation): seq<Id> {
    if Historical(p, rows, o) then [o.id] else Listing(rows, Matches(p, rows, o))
  }

  function Successor(p: Policy, rows: Rows, o: Observation): Id {
    if Historical(p, rows, o) && Matches(p, rows, o) != {} then Listing(rows, Matches(p, rows, o))[0] else o.id
  }

  /** `_commit_extraction` and its audit event, which lists displaced rows under `superseded_record_ids`. */
  function CommitObservation(p: Policy, l: Ledger, o: Observation): Ledger {
    var superseded := Displaces(p, l.rows, o);
    var stored := Supersede(Insert(l, o.id, ObservedRow(p, l.rows, o)), superseded, Successor(p, l.rows, o), o.now);
    Logged(stored, Event(Note("memory.proposal_committed"), Some(o.id),
                         Payload(recordIds := [o.id], supersededRecordIds := superseded)))
  }

  /** `submit_extraction_proposal` for one typed observation that was not submitted before. */
  function Observe(p: Policy, l: Ledger, o: Observation): Outcome {
    match Verdict(p, l.rows, o)
    case Committed =>
      if o.id in l.rows then Outcome(l, Denied) else Outcome(CommitObservation(p, l, o), Committed)
    case Noop => Outcome(Noted(l, "memory.proposal_noop"), Noop)
    case PendingReview => Outcome(Noted(l, "memory.proposal_pending_review"), PendingReview)
    case Denied => Outcome(Noted(l, "memory.proposal_rejected"), Denied)
  }

  function ObserveAll(p: Policy, l: Ledger, os: seq<Observation>): Ledger {
    if os == [] then l else Observe(p, ObserveAll(p, l, os[..|os| - 1]), os[|os| - 1]).l
  }
}
