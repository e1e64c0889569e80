/** The coverage sweep: which stretches of a part no evidence span represents. */
module Coverage {

  /** A half-open range of character offsets. */
  datatype Span = Span(start: nat, end: nat)

  /** Evidence spans are non-empty and lie inside the part. */
  ghost predicate Inside(spans: seq<Span>, length: nat) {
    forall i :: 0 <= i < |spans| ==> spans[i].start < spans[i].end <= length
  }

  predicate Covers(s: Span, p: nat) {
    s.start <= p < s.end
  }

  ghost predicate Represented(spans: seq<Span>, p: nat) {
    exists i :: 0 <= i < |spans| && Covers(spans[i], p)
  }

  // ---- sorting the set of spans ---------------------------------------------

  predicate Precedes(a: Span, b: Span) {
    a.start < b.start || (a.start == b.start && a.end < b.end)
  }

  ghost predicate Sorted(s: seq<Span>) {
    forall i, j :: 0 <= i < j < |s| ==> Precedes(s[i], s[j])
  }

  /** Insertion into a sorted set without repetition. */
  function Insert(s: seq<Span>, x: Span): (r: seq<Span>)
    requires Sorted(s)
    ensures Sorted(r) && forall y :: y in r <==> y == x || y in s
    decreases |s|
  {
    if s == [] then [x]
    else if s[0] == x then s
    else if Precedes(x, s[0]) then [x] + s
    else
      assert Precedes(s[0], x);
      var rest := Insert(s[1..], x);
      assert forall y :: y in rest ==> Precedes(s[0], y);
      [s[0]] + rest
  }

  /** `sorted` of the set of spans. */
  function SortSet(spans: seq<Span>): (r: seq<Span>)
    ensures Sorted(r) && forall y :: y in r <==> y in spans
    decreases |spans|
  {
    if spans == [] then [] else Insert(SortSet(spans[..|spans| - 1]), spans[|spans| - 1])
  }

  // ---- what the sweep promises ----------------------------------------------

  /** Ranges ascend without overlap, are non-empty and inside the part. */
  ghost predicate Ascending(ranges: seq<Span>, length: nat) {
    && (forall i :: 0 <= i < |ranges| ==> ranges[i].start < ranges[i].end <= length)
    && (forall i, j :: 0 <= i < j < |ranges| ==> ranges[i].end <= ranges[j].start)
  }

  ghost predicate Apart(ranges: seq<Span>, spans: seq<Span>) {
    forall i, j :: 0 <= i < |ranges| && 0 <= j < |spans| ==>
                     ranges[i].end <= spans[j].start || spans[j].end <= ranges[i].start
  }

  /** Unrepresented alphanumeric characters before `bound` lie in some range. */
  ghost predicate Complete(ranges: seq<Span>, spans: seq<Span>, flags: seq<bool>, bound: nat) {
    forall p :: 0 <= p < bound && p < |flags| && flags[p] && !Represented(spans, p) ==> Represented(ranges, p)
  }

  ghost predicate HoldsFlag(s: Span, flags: seq<bool>) {
    exists p: nat :: Covers(s, p) && p < |flags| && flags[p]
  }

  /** Every range holds an alphanumeric character. */
  ghost predicate Worthwhile(ranges: seq<Span>, flags: seq<bool>) {
    forall i :: 0 <= i < |ranges| ==> HoldsFlag(ranges[i], flags)
  }

  method AnyFlag(flags: seq<bool>, lo: nat, hi: nat) returns (found: bool)
    requires hi <= |flags|
    ensures found <==> exists p :: lo <= p < hi && flags[p]
  {
    var p := lo;
    while p < hi
      invariant lo <= p
      invariant forall q :: lo <= q < p && q < hi ==> !flags[q]
    {
      if flags[p] {
        return true;
      }
      p := p + 1;
    }
    return false;
  }

  /** Everything processed so far ends at or before the cursor, which is 0 or the end of a processed span. */
  ghost predicate CursorAt(s: seq<Span>, n: nat, cursor: nat)
    requires n <= |s|
  {
    && (forall j :: 0 <= j < n ==> s[j].end <= cursor)
    && (cursor == 0 || exists j :: 0 <= j < n && s[j].end == cursor)
  }

  /** A character before the cursor is represented, or lies before the start of a processed span. */
  lemma BeforeCursor(s: seq<Span>, n: nat, cursor: nat, p: nat)
    requires n <= |s| && Sorted(s) && CursorAt(s, n, cursor) && p < cursor
    ensures n > 0 && (Represented(s, p) || p < s[n - 1].start)
  {
    var j :| 0 <= j < n && s[j].end == cursor;
    if p >= s[j].start {
      assert Covers(s[j], p);
    } else if j < n - 1 {
      assert Precedes(s[j], s[n - 1]);
    }
  }

  /** One gap: report [cursor, bound) if it holds an alphanumeric character. */
  lemma GapStep(s: seq<Span>, n: nat, cursor: nat, bound: nat, flags: seq<bool>, ranges: seq<Span>, ranges': seq<Span>)
    requires n <= |s| && Sorted(s) && CursorAt(s, n, cursor) && bound <= |flags|
    requires Complete(ranges, s, flags, if n == 0 then 0 else s[n - 1].start)
    requires if exists p :: cursor <= p < bound && flags[p] then ranges' == ranges + [Span(cursor, bound)]
             else ranges' == ranges
    ensures Complete(ranges', s, flags, bound)
  {
    forall p | 0 <= p < bound && flags[p] && !Represented(s, p)
      ensures Represented(ranges', p)
    {
      if p < cursor {
        BeforeCursor(s, n, cursor, p);
        assert Represented(ranges, p);
        var i :| 0 <= i < |ranges| && Covers(ranges[i], p);
        assert ranges'[i] == ranges[i];
      } else {
        assert Covers(Span(cursor, bound), p) && ranges'[|ranges|] == Span(cursor, bound);
      }
    }
  }

  /** The loop of the sweep over the sorted spans and a final sentinel at the end of the part. */
  method Sweep(flags: seq<bool>, s: seq<Span>) returns (ranges: seq<Span>)
    requires Sorted(s) && Inside(s, |flags|)
    ensures Ascending(ranges, |flags|) && Apart(ranges, s)
    ensures Complete(ranges, s, flags, |flags|) && Worthwhile(ranges, flags)
  {
    ranges := [];
    var cursor: nat := 0;
    for n := 0 to |s|
      invariant CursorAt(s, n, cursor) && cursor <= |flags|
      invariant Ascending(ranges, |flags|) && (ranges != [] ==> ranges[|ranges| - 1].end <= cursor)
      invariant ranges != [] ==> n > 0 && ranges[|ranges| - 1].end <= s[n - 1].start
      invariant Apart(ranges, s) && Worthwhile(ranges, flags)
      invariant Complete(ranges, s, flags, if n == 0 then 0 else s[n - 1].start)
    {
      ranges := ReportGap(flags, s, n, cursor, s[n].start, ranges);
      cursor := if cursor < s[n].end then s[n].end else cursor;
    }
    ranges := ReportGap(flags, s, |s|, cursor, |flags|, ranges);
  }

  method ReportGap(flags: seq<bool>, ghost s: seq<Span>, ghost n: nat, cursor: nat, bound: nat, before: seq<Span>)
    returns (ranges: seq<Span>)
    requires n <= |s| && Sorted(s) && Inside(s, |flags|) && CursorAt(s, n, cursor)
    requires bound <= |flags| && forall j :: n <= j < |s| ==> bound <= s[j].start
    requires Ascending(before, |flags|) && Apart(before, s) && Worthwhile(before, flags)
    requires before != [] ==> before[|before| - 1].end <= cursor
    requires before != [] ==> before[|before| - 1].end <= bound
    requires Complete(before, s, flags, if n == 0 then 0 else s[n - 1].start)
    ensures Ascending(ranges, |flags|) && Apart(ranges, s) && Worthwhile(ranges, flags)
    ensures ranges != [] ==> ranges[|ranges| - 1].end <= bound
    ensures Complete(ranges, s, flags, bound)
  {
    hide Complete, Represented, Sorted, Ascending, Apart, Worthwhile;
    var found := AnyFlag(flags, cursor, bound);
    ranges := if found then before + [Span(cursor, bound)] else before;
    GapStep(s, n, cursor, bound, flags, before, ranges);
    if found {
      var p :| cursor <= p < bound && flags[p];
      assert Covers(Span(cursor, bound), p);
      AddRange(flags, s, n, cursor, bound, before);
    }
  }

  lemma AddRange(flags: seq<bool>, s: seq<Span>, n: nat, cursor: nat, bound: nat, before: seq<Span>)
    requires n <= |s| && Inside(s, |flags|) && cursor < bound <= |flags|
    requires (forall j :: 0 <= j < n ==> s[j].end <= cursor) && (forall j :: n <= j < |s| ==> bound <= s[j].start)
    requires Ascending(before, |flags|) && Apart(before, s) && Worthwhile(before, flags)
    requires before != [] ==> before[|before| - 1].end <= cursor
    requires HoldsFlag(Span(cursor, bound), flags)
    ensures var ranges := before + [Span(cursor, bound)];
            Ascending(ranges, |flags|) && Apart(ranges, s) && Worthwhile(ranges, flags)
  {
    hide HoldsFlag;
    forall i | 0 <= i < |before|
      ensures before[i].end <= cursor
    {
      assert i < |before| - 1 ==> before[i].end <= before[|before| - 1].start;
    }
  }

  /** The unrepresented ranges of a part: all of it when nothing was proposed, else the gaps of the sweep.
      `flags` says which characters are alphanumeric. */
  method Unrepresented(flags: seq<bool>, proposals: seq<seq<Span>>) returns (ranges: seq<Span>)
    requires forall i :: 0 <= i < |proposals| ==> Inside(proposals[i], |flags|)
    ensures proposals == [] ==> ranges == [Span(0, |flags|)]
    ensures proposals != [] ==>
              && Ascending(ranges, |flags|) && Apart(ranges, Evidence(proposals))
              && Complete(ranges, Evidence(proposals), flags, |flags|) && Worthwhile(ranges, flags)
  {
    if proposals == [] {
      return [Span(0, |flags|)];
    }
    EvidenceInside(proposals, |flags|);
    var spans := Evidence(proposals);
    var s := SortSet(spans);
    SameSpans(spans, s, |flags|);
    ranges := Sweep(flags, s);
    Transfer(spans, s, ranges, flags);
  }

  function Evidence(proposals: seq<seq<Span>>): seq<Span> {
    if proposals == [] then [] else Evidence(proposals[..|proposals| - 1]) + proposals[|proposals| - 1]
  }

  lemma {:induction false} EvidenceInside(proposals: seq<seq<Span>>, length: nat)
    requires forall i :: 0 <= i < |proposals| ==> Inside(proposals[i], length)
    ensures Inside(Evidence(proposals), length)
    decreases |proposals|
  {
    if proposals != [] {
      EvidenceInside(proposals[..|proposals| - 1], length);
    }
  }

  lemma SameSpans(spans: seq<Span>, s: seq<Span>, length: nat)
    requires Inside(spans, length) && forall y :: y in s <==> y in spans
    ensures Inside(s, length)
  {
    forall i | 0 <= i < |s|
      ensures s[i].start < s[i].end <= length
    {
      assert s[i] in spans;
    }
  }

  lemma Transfer(spans: seq<Span>, s: seq<Span>, ranges: seq<Span>, flags: seq<bool>)
    requires forall y :: y in s <==> y in spans
    requires Apart(ranges, s) && Complete(ranges, s, flags, |flags|)
    ensures Apart(ranges, spans) && Complete(ranges, spans, flags, |flags|)
  {
    forall j | 0 <= j < |spans|
      ensures exists i :: 0 <= i < |s| && s[i] == spans[j]
    {
      assert spans[j] in s;
    }
    forall p: nat
      ensures Represented(s, p) ==> Represented(spans, p)
    {
      SameRepresented(spans, s, p);
    }
  }

  lemma SameRepresented(spans: seq<Span>, s: seq<Span>, p: nat)
    requires forall y :: y in s <==> y in spans
    ensures Represented(s, p) ==> Represented(spans, p)
  {
    if Represented(s, p) {
      var i :| 0 <= i < |s| && Covers(s[i], p);
      assert s[i] in spans;
      var j :| 0 <= j < |spans| && spans[j] == s[i];
      assert Covers(spans[j], p);
    }
  }

  /** An alphanumeric character outside all spans lies in exactly one reported range, and a character of a
      reported range lies outside all spans. */
  lemma ExactlyOneRange(flags: seq<bool>, spans: seq<Span>, ranges: seq<Span>, p: nat)
    requires Inside(spans, |flags|) && Ascending(ranges, |flags|) && Apart(ranges, spans)
    requires Complete(ranges, spans, flags, |flags|) && p < |flags|
    ensures forall i, j :: 0 <= i < |ranges| && 0 <= j < |ranges| && Covers(ranges[i], p) && Covers(ranges[j], p) ==> i == j
    ensures flags[p] ==> (Represented(ranges, p) <==> !Represented(spans, p))
  {
  }
}
