/** The bounded recall block and the context pack: fetching a little more than needed and then excluding is
    as good as excluding from the whole ranking. */
module Recall {
  import opened Sequences

  /** A ranked record and the prompt line it would contribute. */
  datatype Item = Item(id: nat, line: string)

  ghost predicate DistinctIds(s: seq<Item>) {
    DistinctBy(s, (x: Item) => x.id)
  }

  /** `ranked[:limit]`, also for a negative limit. */
  function Slice(s: seq<Item>, limit: int): seq<Item> {
    if limit >= |s| then s
    else if limit >= 0 then s[..limit]
    else if |s| + limit > 0 then s[..|s| + limit] else []
  }

  function Exclude(s: seq<Item>, excluded: set<nat>): seq<Item> {
    if s == [] then []
    else Exclude(s[..|s| - 1], excluded) + if s[|s| - 1].id in excluded then [] else [s[|s| - 1]]
  }

  /** Characters of the lines, each with its line break. */
  function Chars(s: seq<Item>): nat {
    if s == [] then 0 else Chars(s[..|s| - 1]) + |s[|s| - 1].line| + 1
  }

  /** `n` items fit both budgets. */
  predicate Fits(s: seq<Item>, n: nat, maxRecords: int, maxChars: int) {
    n <= |s| && (n == 0 || (n <= maxRecords && Chars(s[..n]) <= maxChars))
  }

  /** `n` is the most that fit. */
  predicate IsCut(s: seq<Item>, n: nat, maxRecords: int, maxChars: int) {
    Fits(s, n, maxRecords, maxChars) && !Fits(s, n + 1, maxRecords, maxChars)
  }

  lemma {:induction false} CharsGrow(s: seq<Item>, m: nat, n: nat)
    requires m <= n <= |s|
    ensures Chars(s[..m]) <= Chars(s[..n])
    decreases n - m
  {
    if m < n {
      assert s[..n][..n - 1] == s[..n - 1];
      CharsGrow(s, m, n - 1);
    }
  }

  /** Whatever fits stays fitting when cut shorter, so the cut is unique. */
  lemma CutUnique(s: seq<Item>, m: nat, n: nat, maxRecords: int, maxChars: int)
    requires IsCut(s, m, maxRecords, maxChars) && IsCut(s, n, maxRecords, maxChars)
    ensures m == n
  {
    if m < n {
      CharsGrow(s, m + 1, n);
    } else if n < m {
      CharsGrow(s, n + 1, m);
    }
  }

  // ---- the loop -------------------------------------------------------------

  /** The loop of `build_recall_block` without direct-support filtering: the longest run of not-excluded items
      that fits both budgets. */
  method Pack(records: seq<Item>, excluded: set<nat>, maxRecords: int, maxChars: int)
    returns (included: seq<Item>, used: nat)
    ensures var kept := Exclude(records, excluded);
            |included| <= |kept| && included == kept[..|included|] && IsCut(kept, |included|, maxRecords, maxChars)
    ensures used == Chars(included)
  {
    hide Exclude, Chars;
    included, used := [], 0;
    ghost var kept := Exclude(records, excluded);
    Nothing(records, excluded);
    var i := 0;
    while i < |records|
      invariant 0 <= i <= |records|
      invariant included == Exclude(records[..i], excluded) && |included| <= |kept| && included == kept[..|included|]
      invariant used == Chars(included) && Fits(kept, |included|, maxRecords, maxChars)
    {
      if |included| >= maxRecords {
        return;
      }
      var record := records[i];
      NextItem(records, i, excluded);
      if record.id !in excluded {
        if used + |record.line| + 1 > maxChars {
          return;
        }
        included, used := included + [record], used + |record.line| + 1;
      }
      i := i + 1;
    }
    assert records[..i] == records;
  }

  lemma Nothing(records: seq<Item>, excluded: set<nat>)
    ensures Exclude(records[..0], excluded) == [] && Chars([]) == 0
  {
  }

  /** What one more record contributes, and what it costs. */
  lemma NextItem(records: seq<Item>, i: nat, excluded: set<nat>)
    requires i < |records|
    ensures var kept, before := Exclude(records, excluded), Exclude(records[..i], excluded);
            var after := Exclude(records[..i + 1], excluded);
            if records[i].id in excluded then after == before
            else && after == before + [records[i]] && |after| <= |kept| && after == kept[..|after|]
                 && Chars(kept[..|after|]) == Chars(before) + |records[i].line| + 1
  {
    assert records[..i + 1][..i] == records[..i];
    ExcludePrefix(records, i + 1, excluded);
    var before := Exclude(records[..i], excluded);
    assert (before + [records[i]])[..|before|] == before;
  }

  lemma {:induction false} ExcludePrefix(s: seq<Item>, n: nat, excluded: set<nat>)
    requires n <= |s|
    ensures Exclude(s[..n], excluded) <= Exclude(s, excluded)
    decreases |s| - n
  {
    if n == |s| {
      assert s[..n] == s;
    } else {
      ExcludePrefix(s, n + 1, excluded);
      assert s[..n + 1][..n] == s[..n];
    }
  }

  // ---- fetching a little more is enough -------------------------------------

  /** At most as many items as there are excluded ids are dropped. */
  lemma {:induction false} DropsAtMost(s: seq<Item>, excluded: set<nat>)
    requires DistinctIds(s)
    ensures |Exclude(s, excluded)| >= |s| - |excluded|
    decreases |s|
  {
    if s != [] {
      var n := |s| - 1;
      var last := s[n].id;
      if last in excluded {
        SameExclusion(s[..n], excluded, last);
        DropsAtMost(s[..n], excluded - {last});
      } else {
        DropsAtMost(s[..n], excluded);
      }
    }
  }

  lemma {:induction false} SameExclusion(s: seq<Item>, excluded: set<nat>, x: nat)
    requires forall i :: 0 <= i < |s| ==> s[i].id != x
    ensures Exclude(s, excluded) == Exclude(s, excluded - {x})
    decreases |s|
  {
    if s != [] {
      SameExclusion(s[..|s| - 1], excluded, x);
    }
  }

  /** Exclusion drops exactly the excluded records. */
  lemma {:induction false} ExcludeExactly(s: seq<Item>, excluded: set<nat>, x: Item)
    ensures x in Exclude(s, excluded) <==> x in s && x.id !in excluded
    decreases |s|
  {
    if s != [] {
      var n := |s| - 1;
      ExcludeExactly(s[..n], excluded, x);
      assert s == s[..n] + [s[n]];
    }
  }

  /** A cut of a prefix that is long enough is the cut of the whole. */
  lemma PrefixCut(s: seq<Item>, t: seq<Item>, n: nat, maxRecords: int, maxChars: int)
    requires s <= t && (s == t || |s| >= maxRecords) && IsCut(s, n, maxRecords, maxChars)
    ensures IsCut(t, n, maxRecords, maxChars) && s[..n] == t[..n]
  {
    assert forall m :: 0 <= m <= |s| ==> s[..m] == t[..m];
  }

  /** Fetching `maxRecords + |excluded|` ranked records and then excluding packs the same block as excluding
      from the full ranking. */
  lemma FetchingMoreIsEnough(ranked: seq<Item>, excluded: set<nat>, maxRecords: int, maxChars: int, n: nat, m: nat)
    requires DistinctIds(ranked)
    requires var fetched := Slice(ranked, maxRecords + |excluded|);
             && IsCut(Exclude(fetched, excluded), n, maxRecords, maxChars)
             && IsCut(Exclude(ranked, excluded), m, maxRecords, maxChars)
    ensures var fetched := Slice(ranked, maxRecords + |excluded|);
            n == m && Exclude(fetched, excluded)[..n] == Exclude(ranked, excluded)[..m]
  {
    var limit := maxRecords + |excluded|;
    var fetched := Slice(ranked, limit);
    if maxRecords <= 0 {
      assert n == 0 && m == 0;
    } else {
      var whole, part := Exclude(ranked, excluded), Exclude(fetched, excluded);
      if limit < |ranked| {
        assert fetched == ranked[..limit];
        ExcludePrefix(ranked, limit, excluded);
        DropsAtMost(fetched, excluded);
      }
      PrefixCut(part, whole, n, maxRecords, maxChars);
      CutUnique(whole, n, m, maxRecords, maxChars);
    }
  }

  /** `build_recall_block` over the full ranking, fetched with the bounded limit. */
  method BuildBlock(ranked: seq<Item>, excluded: set<nat>, maxRecords: int, maxChars: int) returns (included: seq<Item>)
    requires DistinctIds(ranked)
    ensures var kept := Exclude(ranked, excluded);
            |included| <= |kept| && included == kept[..|included|] && IsCut(kept, |included|, maxRecords, maxChars)
    ensures included != [] ==> Chars(included) <= maxChars && |included| <= maxRecords
  {
    var fetched := Slice(ranked, maxRecords + |excluded|);
    var used;
    included, used := Pack(fetched, excluded, maxRecords, maxChars);
    ghost var m := CutExists(Exclude(ranked, excluded), maxRecords, maxChars);
    FetchingMoreIsEnough(ranked, excluded, maxRecords, maxChars, |included|, m);
    assert included[..|included|] == included;
  }

  lemma {:induction false} CutFrom(s: seq<Item>, n: nat, maxRecords: int, maxChars: int) returns (m: nat)
    requires Fits(s, n, maxRecords, maxChars)
    ensures IsCut(s, m, maxRecords, maxChars)
    decreases |s| - n
  {
    if Fits(s, n + 1, maxRecords, maxChars) {
      m := CutFrom(s, n + 1, maxRecords, maxChars);
    } else {
      m := n;
    }
  }

  lemma CutExists(s: seq<Item>, maxRecords: int, maxChars: int) returns (m: nat)
    ensures IsCut(s, m, maxRecords, maxChars)
  {
    m := CutFrom(s, 0, maxRecords, maxChars);
  }

  // ---- the context pack -----------------------------------------------------

  function Ids(s: seq<Item>): set<nat> {
    set i | 0 <= i < |s| :: s[i].id
  }

  lemma {:induction false} ExcludeAvoids(s: seq<Item>, excluded: set<nat>, i: nat)
    requires i < |Exclude(s, excluded)|
    ensures Exclude(s, excluded)[i].id !in excluded && Exclude(s, excluded)[i] in s
    decreases |s|
  {
    var n := |s| - 1;
    if i < |Exclude(s[..n], excluded)| {
      ExcludeAvoids(s[..n], excluded, i);
      assert Exclude(s[..n], excluded)[i] in s;
    }
  }

  /** `build_context_pack`: the persona is packed first, and its records are excluded from the recall block. */
  method BuildContextPack(persona: seq<Item>, personaChars: int, ranked: seq<Item>, maxRecords: int, maxChars: int)
    returns (ok: bool, stable: seq<Item>, dynamic: seq<Item>)
    requires DistinctIds(ranked)
    ensures ok <==> personaChars >= 0 && maxRecords >= 0 && maxChars >= 0
    ensures !ok ==> stable == [] && dynamic == []
    ensures ok ==> |stable| <= |persona| && stable == persona[..|stable|]
                   && IsCut(persona, |stable|, |persona|, personaChars)
    ensures ok ==> var kept := Exclude(ranked, Ids(stable));
                   |dynamic| <= |kept| && dynamic == kept[..|dynamic|] && IsCut(kept, |dynamic|, maxRecords, maxChars)
    ensures Ids(stable) !! Ids(dynamic)
  {
    ok := personaChars >= 0 && maxRecords >= 0 && maxChars >= 0;
    if !ok {
      return false, [], [];
    }
    var used;
    stable, used := Pack(persona, {}, |persona|, personaChars);
    NothingExcluded(persona);
    dynamic := BuildBlock(ranked, Ids(stable), maxRecords, maxChars);
    forall i | 0 <= i < |dynamic|
      ensures dynamic[i].id !in Ids(stable)
    {
      ExcludeAvoids(ranked, Ids(stable), i);
    }
  }

  lemma {:induction false} NothingExcluded(s: seq<Item>)
    ensures Exclude(s, {}) == s
    decreases |s|
  {
    if s != [] {
      NothingExcluded(s[..|s| - 1]);
    }
  }
}
