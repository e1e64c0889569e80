/** The governed memory operations as functions on one subject's ledger. Each is one
    transaction: `Err` stands for a raised exception, after which `Step` keeps the old ledger. */
module Operations {
  import opened Wrappers
  import opened Records
  import opened AuditLog

  datatype Decision = Admitted | Conflict | Review | Duplicate | Rejected

  datatype ProposalKey = ProposalKey(workspace: string, agent: string, key: IdempotencyKey)

  datatype IdempotencyKey = DigestKey(digest: nat) | NamedKey(name: string)

  datatype Admission = Admission(digest: nat, decision: Decision, recordIds: seq<Id>, candidateIds: seq<Id>)

  datatype Ledger = Ledger(rows: Rows, log: seq<Event>, generation: nat, proposals: map<ProposalKey, Admission>)

  const EMPTY := Ledger(map[], [], 0, map[])

  function Logged(l: Ledger, e: Event): Ledger {
    l.(log := l.log + [e])
  }

  function Noted(l: Ledger, name: string): Ledger {
    Logged(l, Event(Note(name)))
  }

  /** `supersede_records` with the per-row generation trigger. */
  function Supersede(l: Ledger, ids: seq<Id>, keeper: Id, now: int): Ledger {
    l.(rows := SupersedeRows(l.rows, ids, keeper, now), generation := l.generation + |SupersedeSet(l.rows, ids)|)
  }

  function Insert(l: Ledger, id: Id, r: Record): Ledger {
    l.(rows := l.rows[id := r], generation := l.generation + 1)
  }

  /** `_purge_record_ids`; the caller passes distinct ids. */
  function Purge(l: Ledger, ids: seq<Id>, now: int): Ledger {
    l.(rows := PurgeRows(l.rows, ids, now), generation := l.generation + |PurgedIds(l.rows, ids)|)
  }

  // ---- remember -------------------------------------------------------------

  datatype Candidate = Candidate(id: Id, now: int, content: string, tier: Tier,
                                 factKey: Option<string>, provenance: Provenance)

  function InitialStatus(tier: Tier): Status {
    if tier.TrustedUser? || tier.UserConfirmed? then Active else Quarantined
  }

  function FirstOf(ids: seq<Id>): Option<Id> {
    if ids == [] then None else Some(ids[0])
  }

  /** The row `remember` inserts and the older rows of the slot it displaces. */
  function Displaced(rows: Rows, c: Candidate): (older: seq<Id>)
    ensures forall k :: k in older ==> IsActive(rows, k)
  {
    if InitialStatus(c.tier).Active? then Listing(rows, ActiveWithKey(rows, c.factKey)) else []
  }

  function FreshRow(c: Candidate, older: seq<Id>): Record {
    Record(c.content, c.tier, c.provenance, c.now, InitialStatus(c.tier), FirstOf(older), c.factKey, NO_RAW, None)
  }

  function CreationEvent(id: Id, r: Record, older: seq<Id>): Event {
    Event(if r.status.Active? then RecordCreated else RecordQuarantined, Some(id),
          Payload(supersedes := older, commitment := Some(Commit(id, r))))
  }

  /** The rows after one candidate is stored. */
  function Stored(rows: Rows, c: Candidate): Rows {
    var older := Displaced(rows, c);
    SupersedeRows(rows[c.id := FreshRow(c, older)], older, c.id, c.now)
  }

  /** One turn of the candidate loop. */
  function RememberOne(p: Policy, l: Ledger, c: Candidate): Result<Ledger> {
    var status := InitialStatus(c.tier);
    var duplicate := FindDuplicate(p, l.rows, c.content, if status.Active? then {Active} else {Active, Quarantined});
    if duplicate.Some? then Ok(Logged(l, Event(Note("memory.duplicate_ignored"), duplicate)))
    else if c.id in l.rows then Err("record id already exists")
    else
      var older := Displaced(l.rows, c);
      Ok(l.(rows := Stored(l.rows, c),
            log := l.log + [CreationEvent(c.id, Stored(l.rows, c)[c.id], older)],
            generation := l.generation + 1 + |older|))
  }

  function RememberAll(p: Policy, l: Ledger, cs: seq<Candidate>): Result<Ledger>
    decreases |cs|
  {
    if cs == [] then Ok(l)
    else
      match RememberOne(p, l, cs[0])
      case Err(e) => Err(e)
      case Ok(l') => RememberAll(p, l', cs[1..])
  }

  /** What `remember` is given: content that screening refuses, a host interpretation,
      or the facts extracted from a message. */
  datatype Intake = Refused | Interpreted(candidate: Candidate) | Extracted(candidates: seq<Candidate>, untrusted: bool)

  function Remember(p: Policy, l: Ledger, intake: Intake): Result<Ledger> {
    match intake
    case Refused => Ok(Noted(l, "memory.content_refused"))
    case Interpreted(c) =>
      if !c.tier.TrustedUser? then Err("interpreted facts require a trusted user message")
      else if |c.content| > 2000 then Err("interpreted fact exceeds 2,000 characters")
      else
        var duplicate := FindDuplicate(p, l.rows, c.content, {Active});
        if duplicate.Some? then Ok(Logged(l, Event(Note("memory.semantic_interpretation_duplicate"), duplicate)))
        else
          RememberAll(p, Noted(Noted(l, "episode.ingested"), "memory.semantic_interpretation_received"), [c])
    case Extracted(cs, untrusted) =>
      var l1 := Noted(l, "episode.ingested");
      if cs == [] && untrusted then Ok(Noted(l1, "memory.untrusted_source_ignored"))
      else RememberAll(p, l1, cs)
  }

  // ---- propose_facts --------------------------------------------------------

  datatype Draft = Draft(id: Id, now: int, content: string, factKey: Option<string>,
                         evidence: seq<Id>, provenance: Provenance)

  predicate Cited(d: Draft, sources: set<Id>) {
    d.evidence != [] && forall e :: e in d.evidence ==> e in sources
  }

  function DraftRow(d: Draft): Record {
    Record(d.content, Derived, d.provenance, d.now, Quarantined, None, d.factKey, NO_RAW, None)
  }

  /** One turn of the proposal loop; `sources` are the episodes and records known at the start. */
  function ProposeOne(p: Policy, l: Ledger, d: Draft, sources: set<Id>): Result<Ledger> {
    if d.content == "" || !Cited(d, sources) then Ok(l)
    else if FindDuplicate(p, l.rows, d.content, {Active, Quarantined}).Some? then Ok(l)
    else if d.id in l.rows then Err("record id already exists")
    else Ok(Logged(Insert(l, d.id, DraftRow(d)), CreationEvent(d.id, DraftRow(d), [])))
  }

  function ProposeAll(p: Policy, l: Ledger, ds: seq<Draft>, sources: set<Id>): Result<Ledger>
    decreases |ds|
  {
    if ds == [] then Ok(l)
    else
      match ProposeOne(p, l, ds[0], sources)
      case Err(e) => Err(e)
      case Ok(l') => ProposeAll(p, l', ds[1..], sources)
  }

  // ---- submit_proposal ------------------------------------------------------

  datatype Source = Source(scope: Scope, digest: nat, fromConversation: bool, authenticated: bool)

  datatype Proposal = Proposal(id: Id, now: int, scope: Scope, key: IdempotencyKey, digest: nat,
                               sources: seq<Option<Source>>, binding: nat, fact: string,
                               factKey: Option<string>, related: seq<Id>, additive: bool,
                               sensitivity: string, refused: bool, provenance: Provenance)

  function Slot(q: Proposal): ProposalKey {
    ProposalKey(q.scope.workspace, q.scope.agent, q.key)
  }

  predicate SourcesBound(q: Proposal) {
    && (forall s :: s in q.sources ==> s.Some? && s.value.scope == q.scope)
    && (exists s :: s in q.sources && s.Some? && s.value.digest == q.binding)
  }

  predicate RelatedInScope(rows: Rows, q: Proposal) {
    forall k :: k in q.related ==> k in rows && rows[k].raw.authority == Some(q.scope)
  }

  predicate TrustedSource(q: Proposal) {
    q.sources != [] && forall s :: s in q.sources && s.Some? ==> s.value.fromConversation && s.value.authenticated
  }

  function ParentLabels(rows: Rows, related: seq<Id>): set<Label>
    requires forall k :: k in related ==> k in rows
  {
    set k, x | k in related && x in rows[k].raw.taint :: x
  }

  predicate ParentTainted(rows: Rows, related: seq<Id>)
    requires forall k :: k in related ==> k in rows
  {
    ParentLabels(rows, related) != {}
    || exists k :: k in related && (rows[k].tier.Untrusted? || !rows[k].status.Active?)
  }

  function TaintLabels(rows: Rows, q: Proposal): set<Label>
    requires forall k :: k in q.related ==> k in rows
  {
    ParentLabels(rows, q.related)
    + (if TrustedSource(q) then {} else {UntrustedContent})
    + (if ParentTainted(rows, q.related) then {UntrustedContent, DerivedFromTainted} else {})
  }

  function CanonicalKey(p: Policy, q: Proposal): Option<string> {
    if q.refused || q.factKey.None? then None else Some(p.canonicalKey(q.factKey.value))
  }

  predicate SafeAdd(p: Policy, rows: Rows, q: Proposal)
    requires forall k :: k in q.related ==> k in rows
  {
    && q.additive && q.sensitivity != "sensitive" && q.sensitivity != "restricted"
    && ActiveWithKey(rows, CanonicalKey(p, q)) == {}
    && TrustedSource(q) && !ParentTainted(rows, q.related)
  }

  function ProposalRow(p: Policy, rows: Rows, q: Proposal): Record
    requires forall k :: k in q.related ==> k in rows
  {
    var clean := TrustedSource(q) && !ParentTainted(rows, q.related);
    Record(q.fact, if clean then TrustedUser else Untrusted,
           if clean then q.provenance else q.provenance.(sourceType := "external_content"), q.now,
           if SafeAdd(p, rows, q) then Active else Quarantined, None, CanonicalKey(p, q),
           Raw(Some(q.scope), q.related, TaintLabels(rows, q), q.sensitivity, None, None, false), None)
  }

  function Admit(l: Ledger, q: Proposal, decision: Decision, recordIds: seq<Id>, candidateIds: seq<Id>): Ledger {
    var e := Event(Note("memory.proposal_admitted_v1"), FirstOf(recordIds + candidateIds),
                   Payload(recordIds := recordIds, candidateIds := candidateIds, related := q.related));
    Logged(l, e).(proposals := l.proposals[Slot(q) := Admission(q.digest, decision, recordIds, candidateIds)])
  }

  function SubmitProposal(p: Policy, l: Ledger, q: Proposal): Result<Ledger> {
    if q.key.DigestKey? && q.key.digest != q.digest then Err("sha256 idempotency key does not match proposal payload")
    else if Slot(q) in l.proposals then
      if l.proposals[Slot(q)].digest != q.digest then Err("idempotency key was reused with a different payload")
      else Ok(l)
    else if !SourcesBound(q) then Err("proposal source is unknown, out of scope or unbound")
    else if !RelatedInScope(l.rows, q) then Err("related record is unknown or outside the authority scope")
    else if q.refused then Ok(Admit(l, q, Rejected, [], []))
    else
      var duplicate := FindDuplicate(p, l.rows, q.fact, {Active, Quarantined});
      if duplicate.Some? then Ok(Admit(l, q, Duplicate, [duplicate.value], []))
      else if q.id in l.rows then Err("record id already exists")
      else
        var row := ProposalRow(p, l.rows, q);
        var l1 := Insert(l, q.id, row);
        if row.status.Active? then Ok(Admit(l1, q, Admitted, [q.id], []))
        else Ok(Admit(l1, q, if ActiveWithKey(l.rows, row.factKey) != {} then Conflict else Review, [], [q.id]))
  }

  // ---- promote, reject, correct, forget -------------------------------------

  /** `promote_record`: the row becomes active and its tier `user_confirmed`. */
  function Confirmed(r: Record, now: int): Record {
    r.(status := Active, tier := UserConfirmed, updatedAt := Some(now),
       raw := r.raw.(unit := if r.raw.unit.Some? then Some(r.raw.unit.value.(lifecycle := Active)) else None))
  }

  function Promote(l: Ledger, id: Id, now: int): Result<Ledger> {
    if id !in l.rows || !l.rows[id].status.Quarantined? then Err("record is not quarantined")
    else
      var rows1 := l.rows[id := Confirmed(l.rows[id], now)];
      var older := Listing(rows1, ActiveWithKey(rows1, rows1[id].factKey) - {id});
      var l2 := Supersede(l.(rows := rows1, generation := l.generation + 1), older, id, now);
      Ok(Logged(l2, Event(RecordPromoted, Some(id), Payload(supersedes := older))))
  }

  function Reject(l: Ledger, id: Id, now: int): Result<Ledger> {
    if id !in l.rows || !l.rows[id].status.Quarantined? then Err("record is not quarantined")
    else Ok(Logged(Purge(l, [id], now), Event(RecordRejected, Some(id), Payload(purged := PurgedIds(l.rows, [id])))))
  }

  /** The interpreted fact `correct_record` hands to `remember`. */
  function Correction(p: Policy, l: Ledger, id: Id, corrected: string, newId: Id, now: int, pr: Provenance): Candidate
    requires id in l.rows
  {
    var key := if Truthy(l.rows[id].factKey) then l.rows[id].factKey.value else "correction-" + p.idText(id);
    Candidate(newId, now, p.note(corrected), TrustedUser, Some(p.normalize(key)), pr)
  }

  function Correct(p: Policy, l: Ledger, id: Id, corrected: string, refused: bool,
                   newId: Id, now: int, pr: Provenance): Result<Ledger>
  {
    if !IsActive(l.rows, id) then Err("record is not active")
    else if corrected == "" || corrected == p.strip(l.rows[id].content)
    then Err("corrected memory must be non-empty and different")
    else if refused then Err("correction did not create a replacement memory")
    else
      match Remember(p, l, Interpreted(Correction(p, l, id, corrected, newId, now, pr)))
      case Err(e) => Err(e)
      case Ok(l1) =>
        if newId in l.rows || newId !in l1.rows then Err("correction did not create a replacement memory")
        else
          Ok(Logged(Supersede(l1, [id], newId, now),
                    Event(RecordCorrected, Some(newId), Payload(replaced := Some(id)))))
  }

  function Matching(p: Policy, rows: Rows, needle: string): set<Id> {
    set k | k in rows && !rows[k].status.Tombstoned? && Contains(p.lower(needle), p.lower(rows[k].content))
  }

  function Forget(p: Policy, l: Ledger, needle: string, now: int): Result<Ledger> {
    if needle == "" then Ok(Noted(l, "memory.forget_rejected"))
    else
      var ids := Listing(l.rows, Matching(p, l.rows, needle));
      Ok(Logged(Purge(l, ids, now), Event(Note("memory.forget"), None, Payload(purged := PurgedIds(l.rows, ids)))))
  }

  function ForgetRecord(l: Ledger, id: Id, now: int): Result<Ledger> {
    if !Live(l.rows, id) then Err("record is not available for deletion")
    else
      Ok(Logged(Purge(l, [id], now),
                Event(Note("memory.forget"), Some(id), Payload(purged := PurgedIds(l.rows, [id])))))
  }

  // ---- consolidate ----------------------------------------------------------

  function Others(f: Id -> string, ids: seq<Id>, c: string): (r: seq<Id>)
    ensures forall k :: k in r <==> k in ids && f(k) != c
    ensures |r| <= |ids|
    ensures ids != [] && f(ids[0]) == c ==> |r| < |ids|
  {
    if ids == [] then [] else (if f(ids[0]) != c then [ids[0]] else []) + Others(f, ids[1..], c)
  }

  /** One pass of `consolidate`: the classes of `f` in order of first occurrence (an insertion-ordered
      dictionary of groups). Each group is sorted by age; its newest row stays and supersedes the rest. */
  datatype Pass = Pass(l: Ledger, superseded: seq<Id>, keepers: seq<Id>)

  function Group(rows: Rows, f: Id -> string, ids: seq<Id>): (g: seq<Id>)
    requires ids != [] && forall k :: k in ids ==> k in rows
    ensures g != []
  {
    var s := set k | k in ids && f(k) == f(ids[0]);
    assert ids[0] in s;
    Listing(rows, s)
  }

  function Collapse(l: Ledger, f: Id -> string, ids: seq<Id>, now: int): Pass
    requires forall k :: k in ids ==> k in l.rows
    decreases |ids|
  {
    if ids == [] then Pass(l, [], [])
    else
      var group := Group(l.rows, f, ids);
      var keeper := group[|group| - 1];
      var older := group[..|group| - 1];
      var rest := Collapse(Supersede(l, older, keeper, now), f, Others(f, ids, f(ids[0])), now);
      Pass(rest.l, older + rest.superseded, [keeper] + rest.keepers)
  }

  function ContentClass(p: Policy, rows: Rows): Id -> string {
    (k: Id) => if k in rows then p.normalize(rows[k].content) else ""
  }

  function KeyClass(rows: Rows): Id -> string {
    (k: Id) => if k in rows && rows[k].factKey.Some? then rows[k].factKey.value else ""
  }

  function Keyed(rows: Rows, ids: seq<Id>): (r: seq<Id>)
    ensures forall k :: k in r <==> k in ids && k in rows && Truthy(rows[k].factKey)
  {
    if ids == [] then []
    else (if ids[0] in rows && Truthy(rows[ids[0]].factKey) then [ids[0]] else []) + Keyed(rows, ids[1..])
  }

  function ByContent(p: Policy, l: Ledger, now: int): (r: Pass)
    ensures r.l.rows.Keys == l.rows.Keys
    ensures forall k :: k in r.keepers ==> k in l.rows
  {
    var ids := Listing(l.rows, ActiveIds(l.rows));
    CollapseKeys(l, ContentClass(p, l.rows), ids, now);
    Collapse(l, ContentClass(p, l.rows), ids, now)
  }

  function ByKey(p: Policy, l: Ledger, now: int): Pass {
    var c := ByContent(p, l, now);
    Collapse(c.l, KeyClass(l.rows), Keyed(l.rows, c.keepers), now)
  }

  lemma {:induction false} CollapseKeys(l: Ledger, f: Id -> string, ids: seq<Id>, now: int)
    requires forall k :: k in ids ==> k in l.rows
    ensures Collapse(l, f, ids, now).l.rows.Keys == l.rows.Keys
    ensures forall k :: k in Collapse(l, f, ids, now).keepers ==> k in ids
    decreases |ids|
  {
    if ids != [] {
      var group := Group(l.rows, f, ids);
      assert group[|group| - 1] in group;
      CollapseKeys(Supersede(l, group[..|group| - 1], group[|group| - 1], now), f, Others(f, ids, f(ids[0])), now);
    }
  }

  function Consolidate(p: Policy, l: Ledger, now: int): Result<Ledger> {
    Ok(Logged(ByKey(p, l, now).l,
              Event(Note("memory.consolidated"), None,
                    Payload(duplicates := ByContent(p, l, now).superseded, repaired := ByKey(p, l, now).superseded))))
  }

  // ---- runs -----------------------------------------------------------------

  datatype Op =
    | OpRemember(intake: Intake)
    | OpPropose(drafts: seq<Draft>, episodes: set<Id>)
    | OpSubmit(proposal: Proposal)
    | OpPromote(id: Id, now: int)
    | OpReject(id: Id, now: int)
    | OpCorrect(id: Id, corrected: string, refused: bool, newId: Id, now: int, provenance: Provenance)
    | OpConsolidate(now: int)
    | OpForget(needle: string, now: int)
    | OpForgetRecord(id: Id, now: int)

  function Apply(p: Policy, l: Ledger, op: Op): Result<Ledger> {
    match op
    case OpRemember(intake) => Remember(p, l, intake)
    case OpPropose(ds, episodes) => ProposeAll(p, l, ds, episodes + l.rows.Keys)
    case OpSubmit(q) => SubmitProposal(p, l, q)
    case OpPromote(id, now) => Promote(l, id, now)
    case OpReject(id, now) => Reject(l, id, now)
    case OpCorrect(id, text, refused, newId, now, pr) => Correct(p, l, id, text, refused, newId, now, pr)
    case OpConsolidate(now) => Consolidate(p, l, now)
    case OpForget(needle, now) => Forget(p, l, needle, now)
    case OpForgetRecord(id, now) => ForgetRecord(l, id, now)
  }

  /** A raised error rolls the transaction back. */
  function Step(p: Policy, l: Ledger, op: Op): Ledger {
    match Apply(p, l, op)
    case Ok(l') => l'
    case Err(_) => l
  }

  function Run(p: Policy, l: Ledger, ops: seq<Op>): Ledger {
    if ops == [] then l else Step(p, Run(p, l, ops[..|ops| - 1]), ops[|ops| - 1])
  }
}
