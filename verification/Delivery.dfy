/** Staged delivery: candidate set, prepared context, confirmed exposure, interleaved with any
    lifecycle operation on any subject. */
module Delivery {
  import opened Wrappers
  import opened Records
  import opened AuditLog
  import opened Operations

  datatype CandidateSet = CandidateSet(scope: Scope, generation: nat, expires: int, candidates: seq<Id>)

  /** The digest of a context is modelled by the context itself. */
  datatype Preparation = Preparation(scope: Scope, generation: nat, expires: int, recordIds: seq<Id>, context: string)

  datatype Receipt = Receipt(id: Id, preparation: Id, scope: Scope, context: string, exposedAt: int, auditEvent: nat)

  datatype World = World(ledgers: map<string, Ledger>, excluded: map<string, set<Id>>, sets: map<Id, CandidateSet>,
                         preps: map<Id, Preparation>, exposures: map<Id, Receipt>)

  const START := World(map[], map[], map[], map[], map[])
  const SET_LIFETIME := 300
  const PREPARATION_LIFETIME := 120
  const HEADER := "<atmem-context format=\"v1\">\n"
  const FOOTER := "</atmem-context>\n"

  function LedgerOf(w: World, subject: string): Ledger {
    if subject in w.ledgers then w.ledgers[subject] else EMPTY
  }

  function ExcludedOf(w: World, subject: string): set<Id> {
    if subject in w.excluded then w.excluded[subject] else {}
  }

  function WithEvent(w: World, subject: string, e: Event): World {
    w.(ledgers := w.ledgers[subject := Logged(LedgerOf(w, subject), e)])
  }

  // ---- candidate sets -------------------------------------------------------

  /** A nominated record, with the content the nominator saw (empty when it supplies none). */
  datatype Nominee = Nominee(id: Id, content: string)

  datatype SetRequest = SetRequest(id: Id, scope: Scope, nominees: seq<Nominee>, window: nat, limit: nat,
                                   remote: bool, includeSuperseded: bool, aggregate: seq<Id> -> seq<Id>, now: int)

  /** First occurrence of each record. */
  function Unique(ns: seq<Nominee>, seen: set<Id>): (r: seq<Nominee>)
    ensures forall n :: n in r ==> n in ns
  {
    if ns == [] then []
    else if ns[0].id in seen then Unique(ns[1..], seen)
    else [ns[0]] + Unique(ns[1..], seen + {ns[0].id})
  }

  predicate InScope(r: Record, scope: Scope) {
    r.raw.authority.Some? ==>
      r.raw.authority.value.workspace == scope.workspace && r.raw.authority.value.subject == scope.subject
  }

  predicate Eligible(rows: Rows, excluded: set<Id>, q: SetRequest, n: Nominee) {
    && n.id in rows && n.id !in excluded
    && (rows[n.id].status.Active? || (q.includeSuperseded && rows[n.id].status.Superseded?))
    && InScope(rows[n.id], q.scope)
    && !(q.remote && rows[n.id].raw.sensitivity in {"sensitive", "restricted"})
    && (n.content != "" ==> n.content == rows[n.id].content)
  }

  function Ids(ns: seq<Nominee>): (r: seq<Id>)
    ensures |r| == |ns| && forall i :: 0 <= i < |ns| ==> r[i] == ns[i].id
  {
    if ns == [] then [] else [ns[0].id] + Ids(ns[1..])
  }

  function Within(ids: seq<Id>, allowed: seq<Id>): (r: seq<Id>)
    ensures forall k :: k in r <==> k in ids && k in allowed
  {
    if ids == [] then [] else (if ids[0] in allowed then [ids[0]] else []) + Within(ids[1..], allowed)
  }

  function Prefix<T>(s: seq<T>, n: nat): (r: seq<T>)
    ensures forall x :: x in r ==> x in s
  {
    if n < |s| then s[..n] else s
  }

  function Nominated(q: SetRequest): seq<Nominee> {
    Unique(Prefix(q.nominees, q.window), {})
  }

  /** The durable candidates: the eligible rows as the ranker orders them, cut to the limit. */
  function Durable(q: SetRequest): (r: seq<Id>)
    ensures forall k :: k in r ==> exists n :: n in Nominated(q) && n.id == k
  {
    var ids := Ids(Nominated(q));
    var r := Prefix(Within(q.aggregate(ids), ids), q.limit);
    assert forall k :: k in r ==> exists i :: 0 <= i < |ids| && ids[i] == k && Nominated(q)[i].id == k;
    r
  }

  function CreateSet(w: World, q: SetRequest): Result<World> {
    var l := LedgerOf(w, q.scope.subject);
    if exists n :: n in Nominated(q) && !Eligible(l.rows, ExcludedOf(w, q.scope.subject), q, n)
    then Err("candidate record is no longer eligible")
    else if q.id in w.sets then Err("candidate set id already exists")
    else
      var e := Event(Note("memory.eligible_candidates_v1"), None,
                     Payload(recordIds := Durable(q), candidateSet := Some(q.id)));
      Ok(WithEvent(w, q.scope.subject, e).(
         sets := w.sets[q.id := CandidateSet(q.scope, l.generation, q.now + SET_LIFETIME, Durable(q))]))
  }

  // ---- preparation ----------------------------------------------------------

  datatype ContextRequest = ContextRequest(id: Id, scope: Scope, setId: Id, recordIds: seq<Id>, budget: int, now: int)

  function Dedupe(ids: seq<Id>, seen: set<Id>): (r: seq<Id>)
    ensures forall k :: k in r <==> k in ids && k !in seen
  {
    if ids == [] then []
    else if ids[0] in seen then Dedupe(ids[1..], seen)
    else [ids[0]] + Dedupe(ids[1..], seen + {ids[0]})
  }

  function Block(p: Policy, id: Id, r: Record): string {
    "<memory id=\"" + p.idText(id) + "\">\n" + p.strip(r.content) + "\n</memory>\n"
  }

  function Blocks(p: Policy, rows: Rows, ids: seq<Id>): string
    requires forall k :: k in ids ==> k in rows
  {
    if ids == [] then "" else Blocks(p, rows, ids[..|ids| - 1]) + Block(p, ids[|ids| - 1], rows[ids[|ids| - 1]])
  }

  lemma NoBlocks(p: Policy, rows: Rows)
    ensures Blocks(p, rows, []) == ""
  {
  }

  /** The byte-stable context for these rows. */
  function Serialize(p: Policy, rows: Rows, ids: seq<Id>): string
    requires forall k :: k in ids ==> k in rows
  {
    HEADER + Blocks(p, rows, ids) + FOOTER
  }

  /** Records are taken in order until the first that does not fit. */
  function Packed(p: Policy, rows: Rows, ids: seq<Id>, used: nat, budget: int): (r: seq<Id>)
    requires forall k :: k in ids ==> k in rows
    ensures r <= ids
    ensures forall k :: k in r ==> k in ids
  {
    if ids == [] then []
    else
      var size := |Block(p, ids[0], rows[ids[0]])|;
      if used + size > budget then [] else [ids[0]] + Packed(p, rows, ids[1..], used + size, budget)
  }

  function Requested(q: ContextRequest): (r: seq<Id>)
    ensures forall k :: k in r <==> k in q.recordIds
  {
    Dedupe(q.recordIds, {})
  }

  function Accepted(p: Policy, rows: Rows, q: ContextRequest): (r: seq<Id>)
    requires forall k :: k in q.recordIds ==> k in rows
    ensures forall k :: k in r ==> k in q.recordIds && k in rows
  {
    Packed(p, rows, Requested(q), |HEADER| + |FOOTER|, q.budget)
  }

  function Prepare(p: Policy, w: World, q: ContextRequest): Result<World> {
    if q.setId !in w.sets then Err("candidate set was not found")
    else
      var cs, l := w.sets[q.setId], LedgerOf(w, q.scope.subject);
      if cs.scope != q.scope then Err("candidate set is outside the authority scope")
      else if cs.expires < q.now then Err("candidate set has expired")
      else if cs.generation != l.generation then Err("candidate set was invalidated by a memory change")
      else if exists k :: k in q.recordIds && k !in cs.candidates
      then Err("context contains a record outside the eligible candidate set")
      else if exists k :: k in q.recordIds && (!IsActive(l.rows, k) || k in ExcludedOf(w, q.scope.subject))
      then Err("context record is no longer eligible")
      else if q.id in w.preps then Err("preparation id already exists")
      else
        var ids := Accepted(p, l.rows, q);
        var e := Event(Note("memory.context_prepared_v1"), None,
                       Payload(recordIds := ids, preparation := Some(q.id), candidateSet := Some(q.setId)));
        Ok(WithEvent(w, q.scope.subject, e).(
           preps := w.preps[q.id := Preparation(q.scope, l.generation, q.now + PREPARATION_LIFETIME, ids,
                                                Serialize(p, l.rows, ids))]))
  }

  // ---- exposure -------------------------------------------------------------

  datatype Confirmation = Confirmation(id: Id, preparation: Id, scope: Scope, context: string, receiptId: Id, now: int)

  datatype Reply = Fresh(receipt: Receipt) | Replayed(receipt: Receipt)

  /** Some confirmation already exposed this preparation. */
  predicate AlreadyExposed(w: World, prep: Id) {
    exists c :: c in w.exposures && w.exposures[c].preparation == prep
  }

  function Confirm(w: World, c: Confirmation): Result<(World, Reply)> {
    if c.id in w.exposures then Ok((w, Replayed(w.exposures[c.id].(scope := c.scope))))
    else if c.preparation !in w.preps then Err("context preparation was not found")
    else if AlreadyExposed(w, c.preparation) then Err("context preparation was already exposed")
    else
      var prep, l := w.preps[c.preparation], LedgerOf(w, c.scope.subject);
      if prep.scope != c.scope then Err("context preparation is outside the authority scope")
      else if prep.expires < c.now then Err("context preparation has expired")
      else if prep.context != c.context then Err("exposed context digest does not match the preparation")
      else if prep.generation != l.generation then Err("context preparation was invalidated by a memory change")
      else
        var e := Event(Note("memory.context_injected"), None,
                       Payload(recordIds := prep.recordIds, preparation := Some(c.preparation)));
        var receipt := Receipt(c.receiptId, c.preparation, c.scope, c.context, c.now, |l.log|);
        Ok((WithEvent(w, c.scope.subject, e).(exposures := w.exposures[c.id := receipt]), Fresh(receipt)))
  }

  // ---- runs -----------------------------------------------------------------

  datatype Action =
    | Mutate(subject: string, op: Op)
    | SetExcluded(subject: string, id: Id, excluded: bool)
    | DoCreateSet(setRequest: SetRequest)
    | DoPrepare(contextRequest: ContextRequest)
    | DoConfirm(confirmation: Confirmation)

  function Exclude(w: World, subject: string, id: Id, excluded: bool): World {
    if !IsActive(LedgerOf(w, subject).rows, id) then w
    else
      var s := ExcludedOf(w, subject);
      var name := if excluded then "memory.retrieval_excluded" else "memory.retrieval_restored";
      WithEvent(w, subject, Event(Note(name), Some(id))).(
      excluded := w.excluded[subject := if excluded then s + {id} else s - {id}])
  }

  function Act(p: Policy, w: World, a: Action): World {
    match a
    case Mutate(subject, op) => w.(ledgers := w.ledgers[subject := Step(p, LedgerOf(w, subject), op)])
    case SetExcluded(subject, id, excluded) => Exclude(w, subject, id, excluded)
    case DoCreateSet(q) => (match CreateSet(w, q) case Ok(w') => w' case Err(_) => w)
    case DoPrepare(q) => (match Prepare(p, w, q) case Ok(w') => w' case Err(_) => w)
    case DoConfirm(c) => (match Confirm(w, c) case Ok((w', _)) => w' case Err(_) => w)
  }

  function Reach(p: Policy, actions: seq<Action>): World {
    if actions == [] then START else Act(p, Reach(p, actions[..|actions| - 1]), actions[|actions| - 1])
  }
}
