/** The identifiers a piece of evidence links to, collected under fresh keys. */
module TraceLinks {
  import opened Sequences

  /** A JSON document; objects keep the order of their entries. Scalars carry their text and whether they
      count as true. */
  datatype Doc =
    | Scalar(text: string, truthy: bool)
    | List(items: seq<Doc>)
    | Dict(entries: seq<Entry>)

  datatype Entry = Entry(key: string, child: Doc)

  /** The key sets, the text of a document, and what iterating over something that is no list yields. */
  datatype Schema = Schema(isId: string -> bool, isIdList: string -> bool, text: Doc -> string, elements: Doc -> seq<Doc>)

  datatype Link = Link(key: string, value: string)

  // ---- decimal suffixes -----------------------------------------------------

  function Digit(n: nat): char
    requires n < 10
  {
    "0123456789"[n]
  }

  function Decimal(n: nat): string {
    if n < 10 then [Digit(n)] else Decimal(n / 10) + [Digit(n % 10)]
  }

  function DigitValue(c: char): int {
    c as int - '0' as int
  }

  function Value(s: string): int {
    if s == "" then 0 else 10 * Value(s[..|s| - 1]) + DigitValue(s[|s| - 1])
  }

  lemma DigitRoundTrip(n: nat)
    requires n < 10
    ensures DigitValue(Digit(n)) == n
  {
  }

  lemma {:induction false} DecimalRoundTrip(n: nat)
    ensures Value(Decimal(n)) == n
    decreases n
  {
    if n < 10 {
      DigitRoundTrip(n);
      assert Decimal(n)[..0] == "";
    } else {
      DecimalRoundTrip(n / 10);
      DigitRoundTrip(n % 10);
      assert Decimal(n)[..|Decimal(n)| - 1] == Decimal(n / 10);
    }
  }

  function Candidate(key: string, index: nat): string {
    if index == 0 then key else key + "." + Decimal(index)
  }

  lemma CandidatesDiffer(key: string, i: nat, j: nat)
    requires i != j
    ensures Candidate(key, i) != Candidate(key, j)
  {
    if i > 0 && j > 0 && Candidate(key, i) == Candidate(key, j) {
      var n := |key| + 1;
      assert Candidate(key, i)[n..] == Decimal(i) && Candidate(key, j)[n..] == Decimal(j);
      DecimalRoundTrip(i);
      DecimalRoundTrip(j);
      assert false;
    }
  }

  // ---- adding one link ------------------------------------------------------

  function Keys(links: seq<Link>): set<string> {
    set x | x in links :: x.key
  }

  function Values(links: seq<Link>): set<string> {
    set x | x in links :: x.value
  }

  ghost predicate Unrepeated(links: seq<Link>) {
    DistinctBy(links, (x: Link) => x.key) && DistinctBy(links, (x: Link) => x.value)
  }

  /** The candidates tried so far are that many different keys. */
  lemma {:induction false} TriedCount(key: string, keys: set<string>, n: nat)
    requires forall i: nat :: i < n ==> Candidate(key, i) in keys
    ensures n <= |keys|
    decreases n
  {
    if n > 0 {
      var last := Candidate(key, n - 1);
      forall i: nat | i < n - 1
        ensures Candidate(key, i) in keys - {last}
      {
        CandidatesDiffer(key, i, n - 1);
      }
      TriedCount(key, keys - {last}, n - 1);
    }
  }

  /** The search for a free key always ends: it returns the first of `key`, `key.1`, `key.2`, ... not in use. */
  method FreshKey(links: seq<Link>, key: string) returns (candidate: string, ghost index: nat)
    ensures candidate == Candidate(key, index) && candidate !in Keys(links)
    ensures forall i: nat :: i < index ==> Candidate(key, i) in Keys(links)
  {
    candidate := key;
    var next: nat := 1;
    index := 0;
    var keys := Keys(links);
    while candidate in keys
      invariant next == index + 1 && candidate == Candidate(key, index)
      invariant forall i: nat :: i < index ==> Candidate(key, i) in keys
      decreases |keys| - index
    {
      TriedCount(key, keys, index + 1);
      candidate := key + "." + Decimal(next);
      next, index := next + 1, index + 1;
    }
  }

  /** `_add_link`. */
  method AddLink(links: seq<Link>, key: string, value: string) returns (r: seq<Link>)
    requires Unrepeated(links)
    ensures Unrepeated(r) && links <= r && Values(r) == Values(links) + {value}
    ensures forall l :: l in r ==> l in links || (l.value == value && key <= l.key)
  {
    if value in Values(links) {
      return links;
    }
    var candidate, _ := FreshKey(links, key);
    r := links + [Link(candidate, value)];
    Appended(links, Link(candidate, value));
  }

  lemma Appended(links: seq<Link>, x: Link)
    requires Unrepeated(links) && x.key !in Keys(links) && x.value !in Values(links)
    ensures Unrepeated(links + [x]) && Values(links + [x]) == Values(links) + {x.value}
  {
    ValuesAppend(links, x);
    forall i | 0 <= i < |links|
      ensures links[i].key != x.key && links[i].value != x.value
    {
      assert links[i] in links;
      assert links[i].key in Keys(links) && links[i].value in Values(links);
    }
  }

  lemma ValuesAppend(links: seq<Link>, x: Link)
    ensures Values(links + [x]) == Values(links) + {x.value}
  {
    assert x in links + [x] && forall y :: y in links ==> y in links + [x];
  }

  // ---- every identifier of a document ---------------------------------------

  function Texts(s: Schema, docs: seq<Doc>): set<string> {
    set d | d in docs :: s.text(d)
  }

  /** The elements iterated over under an identifier-list key. */
  function Elements(s: Schema, d: Doc): seq<Doc> {
    match d
    case List(items) => items
    case Scalar(_, truthy) => if truthy then s.elements(d) else []
    case Dict(entries) => if entries == [] then [] else s.elements(d)
  }

  predicate Truthy(d: Doc) {
    match d
    case Scalar(_, truthy) => truthy
    case List(items) => items != []
    case Dict(entries) => entries != []
  }

  /** What one entry contributes by its own key. */
  function Own(s: Schema, e: Entry): set<string> {
    if s.isId(e.key) && Truthy(e.child) then {s.text(e.child)}
    else if s.isIdList(e.key) then Texts(s, Elements(s, e.child))
    else {}
  }

  /** Every identifier anywhere in a document. */
  function Identifiers(s: Schema, d: Doc): set<string>
    decreases d, 0
  {
    match d
    case Scalar(_, _) => {}
    case List(items) => InItems(s, items)
    case Dict(entries) => InEntries(s, entries)
  }

  function InItems(s: Schema, items: seq<Doc>): set<string>
    decreases items, 1, |items|
  {
    if items == [] then {} else InItems(s, items[..|items| - 1]) + Identifiers(s, items[|items| - 1])
  }

  function InEntries(s: Schema, entries: seq<Entry>): set<string>
    decreases entries, 1, |entries|
  {
    if entries == [] then {}
    else
      var e := entries[|entries| - 1];
      InEntries(s, entries[..|entries| - 1]) + Own(s, e) + Identifiers(s, e.child)
  }

  // ---- where they stand -----------------------------------------------------

  /** A field of the document, or a position of an identifier list, and the identifier it holds. */
  type Site = (string, string)

  function OwnSites(s: Schema, e: Entry): set<Site> {
    if s.isId(e.key) && Truthy(e.child) then {(e.key, s.text(e.child))}
    else if s.isIdList(e.key) then
      set i | 0 <= i < |Elements(s, e.child)| :: (e.key + "." + Decimal(i), s.text(Elements(s, e.child)[i]))
    else {}
  }

  function Sites(s: Schema, d: Doc): set<Site>
    decreases d, 0
  {
    match d
    case Scalar(_, _) => {}
    case List(items) => ItemSites(s, items)
    case Dict(entries) => EntrySites(s, entries)
  }

  function ItemSites(s: Schema, items: seq<Doc>): set<Site>
    decreases items, 1, |items|
  {
    if items == [] then {} else ItemSites(s, items[..|items| - 1]) + Sites(s, items[|items| - 1])
  }

  function EntrySites(s: Schema, entries: seq<Entry>): set<Site>
    decreases entries, 1, |entries|
  {
    if entries == [] then {}
    else
      var e := entries[|entries| - 1];
      EntrySites(s, entries[..|entries| - 1]) + OwnSites(s, e) + Sites(s, e.child)
  }

  /** The link's value stands at a site whose name its key begins with. */
  ghost predicate Stands(sites: set<Site>, l: Link) {
    exists name :: (name, l.value) in sites && name <= l.key
  }

  ghost predicate AllStand(sites: set<Site>, links: seq<Link>) {
    forall l :: l in links ==> Stands(sites, l)
  }

  lemma StandMore(sites: set<Site>, more: set<Site>, links: seq<Link>)
    requires AllStand(sites, links) && sites <= more
    ensures AllStand(more, links)
  {
    forall l | l in links
      ensures Stands(more, l)
    {
      var name :| (name, l.value) in sites && name <= l.key;
      assert (name, l.value) in more;
    }
  }

  /** A link added under the name of a site, or under the key of a link that stands at one, stands there, too. */
  lemma AddedStands(sites: set<Site>, links: seq<Link>, r: seq<Link>, key: string, value: string)
    requires AllStand(sites, links) && Stands(sites, Link(key, value))
    requires forall l :: l in r ==> l in links || (l.value == value && key <= l.key)
    ensures AllStand(sites, r)
  {
    var name :| (name, value) in sites && name <= key;
    forall l | l in r
      ensures Stands(sites, l)
    {
      if l !in links {
        assert (name, l.value) in sites && name <= l.key;
      }
    }
  }

  // ---- the loops ------------------------------------------------------------

  /** Adding all nested links in turn. */
  method Merge(links: seq<Link>, nested: seq<Link>, ghost sites: set<Site>) returns (r: seq<Link>)
    requires Unrepeated(links) && AllStand(sites, links) && AllStand(sites, nested)
    ensures Unrepeated(r) && Values(r) == Values(links) + Values(nested) && AllStand(sites, r)
  {
    hide Stands;
    r := links;
    for i := 0 to |nested|
      invariant Unrepeated(r) && Values(r) == Values(links) + Values(nested[..i]) && AllStand(sites, r)
    {
      ghost var before := r;
      r := AddLink(r, nested[i].key, nested[i].value);
      assert Link(nested[i].key, nested[i].value) in nested;
      AddedStands(sites, before, r, nested[i].key, nested[i].value);
      assert nested[..i + 1] == nested[..i] + [nested[i]];
      ValuesAppend(nested[..i], nested[i]);
    }
    assert nested[..|nested|] == nested;
  }

  method AddOwn(s: Schema, links: seq<Link>, e: Entry, ghost sites: set<Site>) returns (r: seq<Link>)
    requires Unrepeated(links) && AllStand(sites, links) && OwnSites(s, e) <= sites
    ensures Unrepeated(r) && Values(r) == Values(links) + Own(s, e) && AllStand(sites, r)
  {
    hide AllStand, Unrepeated, Values;
    r := links;
    if s.isId(e.key) && Truthy(e.child) {
      r := AddLink(links, e.key, s.text(e.child));
      assert (e.key, s.text(e.child)) in sites;
      AddedStands(sites, links, r, e.key, s.text(e.child));
    } else if s.isIdList(e.key) {
      var items := Elements(s, e.child);
      for i := 0 to |items|
        invariant Unrepeated(r) && Values(r) == Values(links) + Texts(s, items[..i]) && AllStand(sites, r)
      {
        ghost var before := r;
        var key := e.key + "." + Decimal(i);
        r := AddLink(r, key, s.text(items[i]));
        assert (key, s.text(items[i])) in OwnSites(s, e);
        AddedStands(sites, before, r, key, s.text(items[i]));
        assert items[..i + 1] == items[..i] + [items[i]];
        TextsAppend(s, items[..i], items[i]);
      }
      assert items[..|items|] == items;
    }
  }

  lemma TextsAppend(s: Schema, items: seq<Doc>, d: Doc)
    ensures Texts(s, items + [d]) == Texts(s, items) + {s.text(d)}
  {
    assert d in items + [d] && forall y :: y in items ==> y in items + [d];
  }

  /** `_links`: distinct keys, distinct values, exactly the identifiers of the document, each under a key that
      begins with the name of a field that holds it. */
  method CollectLinks(s: Schema, d: Doc) returns (links: seq<Link>)
    ensures Unrepeated(links) && Values(links) == Identifiers(s, d) && AllStand(Sites(s, d), links)
    decreases d
  {
    hide AllStand, OwnSites, Unrepeated, Values, Own;
    NoLinks();
    links := [];
    match d
    case Scalar(_, _) =>
    case List(items) =>
      for i := 0 to |items|
        invariant Unrepeated(links) && Values(links) == InItems(s, items[..i]) && AllStand(ItemSites(s, items[..i]), links)
      {
        assert items[..i + 1][..i] == items[..i];
        var nested := CollectLinks(s, items[i]);
        ghost var sites := ItemSites(s, items[..i + 1]);
        StandMore(ItemSites(s, items[..i]), sites, links);
        StandMore(Sites(s, items[i]), sites, nested);
        links := Merge(links, nested, sites);
      }
      assert items[..|items|] == items;
    case Dict(entries) =>
      for i := 0 to |entries|
        invariant Unrepeated(links) && Values(links) == InEntries(s, entries[..i])
        invariant AllStand(EntrySites(s, entries[..i]), links)
      {
        assert entries[..i + 1][..i] == entries[..i];
        ghost var sites := EntrySites(s, entries[..i + 1]);
        StandMore(EntrySites(s, entries[..i]), sites, links);
        links := AddOwn(s, links, entries[i], sites);
        var nested := CollectLinks(s, entries[i].child);
        StandMore(Sites(s, entries[i].child), sites, nested);
        links := Merge(links, nested, sites);
      }
      assert entries[..|entries|] == entries;
  }

  lemma NoLinks()
    ensures Unrepeated([]) && Values([]) == {} && AllStand({}, [])
  {
  }
}
