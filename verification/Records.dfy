/** Record rows of one subject and the three row mutations of the store:
    supersede, tombstone and the age-ordered listing every query returns. */
module Records {
  import opened Wrappers

  /** Identifiers, ordered as the store orders their text. */
  type Id = nat

  datatype Status = Active | Quarantined | Superseded | Tombstoned

  datatype Tier = TrustedUser | UserConfirmed | Untrusted | Derived | HostObservation

  datatype Label = UntrustedContent | DerivedFromTainted | OtherLabel(name: string)

  datatype Scope = Scope(subject: string, agent: string, workspace: string)

  /** A typed payload names what it is about either as a `subject` (atomic facts)
      or as an `entity` (environment states and transitions). */
  datatype Holder = OfSubject(name: string) | OfEntity(name: string)

  datatype Kind = AtomicFact | EnvironmentState | StateTransition | OtherKind

  datatype Unit = Unit(kind: Kind, holder: Holder, relation: string, time: Option<int>,
                       identity: nat, lifecycle: Status)

  /** The JSON column of a row, restricted to the keys the modelled code reads. */
  datatype Raw = Raw(authority: Option<Scope>, related: seq<Id>, taint: set<Label>,
                     sensitivity: string, unit: Option<Unit>, supersededBy: Option<Id>, purged: bool)

  /** Columns that are committed by the audit log and otherwise only carried along. */
  datatype Provenance = Provenance(sourceType: string, session: string, turn: string,
                                   episode: string, confidence: real, visibility: string)

  datatype Record = Record(content: string, tier: Tier, provenance: Provenance, createdAt: int,
                           status: Status, supersedes: Option<Id>, factKey: Option<string>,
                           raw: Raw, updatedAt: Option<int>)

  type Rows = map<Id, Record>

  const NO_RAW := Raw(None, [], {}, "personal", None, None, false)
  const PURGED_RAW := Raw(None, [], {}, "personal", None, None, true)

  /** Text functions the engine is parameterised by: regular expressions, Unicode
      case mapping and the spelling of identifiers. */
  datatype Policy = Policy(normalize: string -> string, lower: string -> string, strip: string -> string,
                           note: string -> string, canonicalKey: string -> string, idText: Id -> string)

  /** A fact key that names a slot: present and not the empty string. */
  predicate Truthy(key: Option<string>) {
    key.Some? && key.value != ""
  }

  // ---- age order ------------------------------------------------------------

  /** `ORDER BY created_at, id`. */
  predicate Before(rows: Rows, a: Id, b: Id)
    requires a in rows && b in rows
  {
    rows[a].createdAt < rows[b].createdAt || (rows[a].createdAt == rows[b].createdAt && a < b)
  }

  ghost predicate IsOldest(rows: Rows, s: set<Id>, m: Id)
    requires s <= rows.Keys
  {
    m in s && forall x :: x in s && x != m ==> Before(rows, m, x)
  }

  lemma OldestExists(rows: Rows, s: set<Id>) returns (m: Id)
    requires s <= rows.Keys && s != {}
    ensures IsOldest(rows, s, m)
    decreases |s|
  {
    var a :| a in s;
    var rest := s - {a};
    assert forall x :: x in s ==> x == a || x in rest;
    if rest == {} {
      m := a;
    } else {
      var b := OldestExists(rows, rest);
      m := if Before(rows, a, b) then a else b;
      assert forall x :: x in rest && x != b ==> Before(rows, b, x);
    }
  }

  function Oldest(rows: Rows, s: set<Id>): (m: Id)
    requires s <= rows.Keys && s != {}
    ensures IsOldest(rows, s, m)
  {
    assert exists m :: IsOldest(rows, s, m) by { var m := OldestExists(rows, s); }
    var m :| m in s && forall x :: x in s && x != m ==> Before(rows, m, x);
    m
  }

  ghost predicate AgeSorted(rows: Rows, ids: seq<Id>)
    requires forall k :: k in ids ==> k in rows
  {
    forall i, j :: 0 <= i < j < |ids| ==> Before(rows, ids[i], ids[j])
  }

  /** The rows of a query in the order the store returns them. */
  function Listing(rows: Rows, s: set<Id>): (ids: seq<Id>)
    requires s <= rows.Keys
    ensures forall k :: k in ids <==> k in s
    ensures AgeSorted(rows, ids)
    ensures |ids| == |s|
    decreases |s|
  {
    if s == {} then []
    else
      var m := Oldest(rows, s);
      [m] + Listing(rows, s - {m})
  }

  /** The order in which a row passes through its statuses. */
  function Stage(s: Status): nat {
    match s
    case Quarantined => 0
    case Active => 1
    case Superseded => 2
    case Tombstoned => 3
  }

  // ---- row mutations --------------------------------------------------------

  function Retired(r: Record, keeper: Id, now: int): Record {
    r.(status := Superseded, updatedAt := Some(now),
       raw := r.raw.(supersededBy := Some(keeper),
                     unit := if r.raw.unit.Some? then Some(r.raw.unit.value.(lifecycle := Superseded)) else None))
  }

  function Purged(r: Record, now: int): Record {
    r.(status := Tombstoned, content := "", factKey := None, updatedAt := Some(now), raw := PURGED_RAW)
  }

  predicate IsActive(rows: Rows, k: Id) {
    k in rows && rows[k].status.Active?
  }

  predicate Live(rows: Rows, k: Id) {
    k in rows && !rows[k].status.Tombstoned?
  }

  function ActiveIds(rows: Rows): set<Id> {
    set k | k in rows && rows[k].status.Active?
  }

  /** `supersede_records`: only rows that are still active are touched. */
  function SupersedeRows(rows: Rows, ids: seq<Id>, keeper: Id, now: int): (r: Rows)
    ensures r.Keys == rows.Keys
  {
    map k | k in rows :: if k in ids && rows[k].status.Active? then Retired(rows[k], keeper, now) else rows[k]
  }

  function SupersedeSet(rows: Rows, ids: seq<Id>): set<Id> {
    set k | k in rows && k in ids && rows[k].status.Active?
  }

  /** `tombstone_records`: every row that is not already tombstoned is purged. */
  function PurgeRows(rows: Rows, ids: seq<Id>, now: int): (r: Rows)
    ensures r.Keys == rows.Keys
  {
    map k | k in rows :: if k in ids && !rows[k].status.Tombstoned? then Purged(rows[k], now) else rows[k]
  }

  /** The ids `tombstone_records` reports as purged, in request order. */
  function PurgedIds(rows: Rows, ids: seq<Id>): (r: seq<Id>)
    ensures forall k :: k in r <==> k in ids && Live(rows, k)
  {
    if ids == [] then []
    else (if Live(rows, ids[0]) then [ids[0]] else []) + PurgedIds(rows, ids[1..])
  }

  // ---- queries --------------------------------------------------------------

  /** `active_records_for_fact_key`. */
  function ActiveWithKey(rows: Rows, key: Option<string>): set<Id> {
    if !Truthy(key) then {} else set k | k in rows && rows[k].status.Active? && rows[k].factKey == key
  }

  function Duplicates(p: Policy, rows: Rows, content: string, statuses: set<Status>): set<Id> {
    var norm := p.normalize(content);
    if norm == "" then {}
    else set k | k in rows && rows[k].status in statuses && p.normalize(rows[k].content) == norm
  }

  /** `find_duplicate_record`: the oldest row with the same normalised content. */
  function FindDuplicate(p: Policy, rows: Rows, content: string, statuses: set<Status>): Option<Id> {
    var s := Duplicates(p, rows, content, statuses);
    if s == {} then None else Some(Oldest(rows, s))
  }

  predicate Contains(needle: string, hay: string) {
    exists i :: 0 <= i <= |hay| && needle <= hay[i..]
  }

  /** Two rows active in one fact slot. */
  predicate SameSlot(rows: Rows, a: Id, b: Id) {
    IsActive(rows, a) && IsActive(rows, b) && Truthy(rows[a].factKey) && rows[a].factKey == rows[b].factKey
  }

  /** At most one active row per fact slot. */
  ghost predicate UniqueKeys(rows: Rows) {
    forall a, b :: SameSlot(rows, a, b) ==> a == b
  }
}
