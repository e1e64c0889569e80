/** Resumable episode formation under a proposal budget: which proposals one call submits, which it defers,
    and how the receipt's buckets add up over any number of calls. */
module Formation {
  import opened Wrappers
  import opened Sequences

  datatype Position = Position(part: nat, proposal: nat)

  /** A part and the identifiers of the proposals its text yields, in order. */
  datatype Part = Part(id: nat, proposals: seq<nat>)

  datatype Review = Committed | Noop | PendingReview | Rejected | Stale

  datatype Receipt = Receipt(next: seq<Position>, total: nat, withheld: nat, rejected: nat, admitted: nat, complete: bool)

  function Positions(id: nat, proposals: seq<nat>): (r: seq<Position>)
    ensures |r| == |proposals| && forall i :: 0 <= i < |r| ==> r[i] == Position(id, proposals[i])
  {
    seq(|proposals|, i requires 0 <= i < |proposals| => Position(id, proposals[i]))
  }

  /** Every proposal of the episode, in processing order. */
  function Flat(parts: seq<Part>): seq<Position> {
    if parts == [] then []
    else Flat(parts[..|parts| - 1]) + Positions(parts[|parts| - 1].id, parts[|parts| - 1].proposals)
  }

  /** A first call takes every proposal, a resumed call those the last receipt deferred. */
  predicate Wanted(previous: Option<Receipt>, q: Position) {
    previous.None? || q in previous.value.next
  }

  function Keep(previous: Option<Receipt>, s: seq<Position>): seq<Position> {
    if s == [] then []
    else Keep(previous, s[..|s| - 1]) + if Wanted(previous, s[|s| - 1]) then [s[|s| - 1]] else []
  }

  function Least(a: nat, b: nat): nat {
    if a < b then a else b
  }

  function Minus(a: nat, b: nat): nat {
    if a < b then 0 else a - b
  }

  function Count(review: Position -> Review, s: seq<Position>, states: set<Review>): nat {
    if s == [] then 0
    else Count(review, s[..|s| - 1], states) + if review(s[|s| - 1]) in states then 1 else 0
  }

  datatype Formed = Formed(receipt: Receipt, submitted: seq<Position>)

  /** The receipt of a call that submitted `done` and deferred `rest`. */
  function ReceiptOf(previous: Option<Receipt>, review: Position -> Review, total: nat,
                     done: seq<Position>, rest: seq<Position>): Receipt
  {
    var carried := if previous.Some? then Minus(previous.value.withheld, |previous.value.next|) else 0;
    var withheld := carried + Count(review, done, {PendingReview}) + |rest|;
    var rejected := (if previous.Some? then previous.value.rejected else 0) + Count(review, done, {Rejected, Stale});
    Receipt(rest, total, withheld, rejected, Minus(total, withheld + rejected), rest == [])
  }

  /** One call of `form_episode` when only the proposal budget can run out. */
  function Form(parts: seq<Part>, budget: nat, previous: Option<Receipt>, review: Position -> Review): Formed {
    if previous.Some? && previous.value.complete then Formed(previous.value, [])
    else
      var todo := Keep(previous, Flat(parts));
      var n := Least(budget, |todo|);
      var total := if previous.Some? then previous.value.total else |Flat(parts)|;
      Formed(ReceiptOf(previous, review, total, todo[..n], todo[n..]), todo[..n])
  }

  // ---- the call as a loop ---------------------------------------------------

  lemma {:induction false} KeepConcat(previous: Option<Receipt>, a: seq<Position>, b: seq<Position>)
    ensures Keep(previous, a + b) == Keep(previous, a) + Keep(previous, b)
    decreases |b|
  {
    if b == [] {
      assert a + b == a;
    } else {
      var m := |b| - 1;
      assert (a + b)[..|a| + m] == a + b[..m] && (a + b)[|a| + m] == b[m];
      KeepConcat(previous, a, b[..m]);
    }
  }

  lemma {:induction false} CountConcat(review: Position -> Review, a: seq<Position>, b: seq<Position>, states: set<Review>)
    ensures Count(review, a + b, states) == Count(review, a, states) + Count(review, b, states)
    decreases |b|
  {
    if b == [] {
      assert a + b == a;
    } else {
      var m := |b| - 1;
      assert (a + b)[..|a| + m] == a + b[..m] && (a + b)[|a| + m] == b[m];
      CountConcat(review, a, b[..m], states);
    }
  }

  /** `pending_by_part`: the deferred proposals of each part. */
  method PendingByPart(next: seq<Position>) returns (pending: map<nat, set<nat>>)
    ensures forall q: Position :: q in next <==> q.part in pending && q.proposal in pending[q.part]
    ensures forall p :: p in pending ==> pending[p] != {}
  {
    pending := map[];
    for i := 0 to |next|
      invariant forall q: Position :: q in next[..i] <==> q.part in pending && q.proposal in pending[q.part]
      invariant forall p :: p in pending ==> pending[p] != {}
    {
      var q := next[i];
      var known := if q.part in pending then pending[q.part] else {};
      pending := pending[q.part := known + {q.proposal}];
      assert next[..i + 1] == next[..i] + [q];
    }
    assert next[..|next|] == next;
  }

  /** The budget split of the proposals met so far. */
  predicate Split(todo: seq<Position>, budget: nat, done: seq<Position>, rest: seq<Position>) {
    todo == done + rest && |done| == Least(budget, |todo|)
  }

  /** The proposals of one part: those not wanted are skipped, the rest is submitted while the budget lasts. */
  method FormPart(part: Part, budget: nat, previous: Option<Receipt>, pending: map<nat, set<nat>>,
                  done0: seq<Position>, rest0: seq<Position>, ghost met: seq<Position>)
    returns (done: seq<Position>, rest: seq<Position>, counted: nat)
    requires Split(met, budget, done0, rest0)
    requires previous.Some? ==> part.id in pending && pending[part.id] != {}
    requires previous.Some? ==>
               forall q: Position :: q in previous.value.next <==> q.part in pending && q.proposal in pending[q.part]
    ensures Split(met + Keep(previous, Positions(part.id, part.proposals)), budget, done, rest)
    ensures counted == if previous.None? then |part.proposals| else 0
  {
    done, rest, counted := done0, rest0, 0;
    var all := Positions(part.id, part.proposals);
    assert met + Keep(previous, all[..0]) == met;
    for i := 0 to |part.proposals|
      invariant Split(met + Keep(previous, all[..i]), budget, done, rest)
      invariant counted == if previous.None? then i else 0
    {
      assert all[..i + 1][..i] == all[..i];
      var q := Position(part.id, part.proposals[i]);
      ghost var before := met + Keep(previous, all[..i]);
      if previous.None? {
        counted := counted + 1;
      }
      if previous.Some? && pending[part.id] != {} && part.proposals[i] !in pending[part.id] {
        assert !Wanted(previous, q);
        assert met + Keep(previous, all[..i + 1]) == before;
      } else {
        assert Wanted(previous, q);
        assert met + Keep(previous, all[..i + 1]) == before + [q];
        if |done| >= budget {
          rest := rest + [q];
        } else {
          assert rest == [];
          done := done + [q];
        }
      }
    }
    assert all[..|part.proposals|] == all;
  }

  /** A part without deferred proposals contributes nothing to a resumed call. */
  lemma {:induction false} KeepNothing(previous: Option<Receipt>, s: seq<Position>)
    requires forall q :: q in s ==> !Wanted(previous, q)
    ensures Keep(previous, s) == []
    decreases |s|
  {
    if s != [] {
      assert s[|s| - 1] in s;
      KeepNothing(previous, s[..|s| - 1]);
    }
  }

  /** `form_episode`. */
  method FormEpisode(parts: seq<Part>, budget: nat, previous: Option<Receipt>, review: Position -> Review)
    returns (receipt: Receipt, submitted: seq<Position>)
    ensures Formed(receipt, submitted) == Form(parts, budget, previous, review)
  {
    if previous.Some? && previous.value.complete {
      return previous.value, [];
    }
    var pending: map<nat, set<nat>> := map[];
    if previous.Some? {
      pending := PendingByPart(previous.value.next);
    }
    var total := if previous.Some? then previous.value.total else 0;
    var rest: seq<Position> := [];
    submitted := [];
    for i := 0 to |parts|
      invariant Split(Keep(previous, Flat(parts[..i])), budget, submitted, rest)
      invariant total == if previous.Some? then previous.value.total else |Flat(parts[..i])|
    {
      var part := parts[i];
      assert parts[..i + 1][..i] == parts[..i];
      ghost var mine := Positions(part.id, part.proposals);
      KeepConcat(previous, Flat(parts[..i]), mine);
      if previous.Some? && part.id !in pending {
        forall q | q in mine
          ensures !Wanted(previous, q)
        {
        }
        KeepNothing(previous, mine);
      } else {
        var counted;
        submitted, rest, counted :=
          FormPart(part, budget, previous, pending, submitted, rest, Keep(previous, Flat(parts[..i])));
        total := total + counted;
      }
    }
    assert parts[..|parts|] == parts;
    ghost var todo := Keep(previous, Flat(parts));
    assert submitted == todo[..|submitted|] && rest == todo[|submitted|..];
    var pendingReview, refused := Tally(review, submitted);
    var carried := if previous.Some? then Minus(previous.value.withheld, |previous.value.next|) else 0;
    var withheld := carried + pendingReview + |rest|;
    var rejected := (if previous.Some? then previous.value.rejected else 0) + refused;
    receipt := Receipt(rest, total, withheld, rejected, Minus(total, withheld + rejected), rest == []);
  }

  method Tally(review: Position -> Review, s: seq<Position>) returns (pendingReview: nat, refused: nat)
    ensures pendingReview == Count(review, s, {PendingReview}) && refused == Count(review, s, {Rejected, Stale})
  {
    pendingReview, refused := 0, 0;
    for i := 0 to |s|
      invariant pendingReview == Count(review, s[..i], {PendingReview})
      invariant refused == Count(review, s[..i], {Rejected, Stale})
    {
      assert s[..i + 1][..i] == s[..i];
      if review(s[i]) == PendingReview {
        pendingReview := pendingReview + 1;
      }
      if review(s[i]) == Rejected || review(s[i]) == Stale {
        refused := refused + 1;
      }
    }
    assert s[..|s|] == s;
  }

  // ---- resuming conserves work ----------------------------------------------

  /** Part identifiers are unique, and so are the proposal identifiers within a part. */
  ghost predicate Unique(parts: seq<Part>) {
    && (forall i, j :: 0 <= i < j < |parts| ==> parts[i].id != parts[j].id)
    && (forall k, i, j :: 0 <= k < |parts| && 0 <= i < j < |parts[k].proposals|
                          ==> parts[k].proposals[i] != parts[k].proposals[j])
  }

  lemma {:induction false} FlatParts(parts: seq<Part>, q: Position)
    requires q in Flat(parts)
    ensures exists i :: 0 <= i < |parts| && parts[i].id == q.part
    decreases |parts|
  {
    var n := |parts| - 1;
    if q in Flat(parts[..n]) {
      FlatParts(parts[..n], q);
      var i :| 0 <= i < n && parts[..n][i].id == q.part;
      assert parts[i].id == q.part;
    } else {
      assert q in Positions(parts[n].id, parts[n].proposals);
    }
  }

  lemma {:induction false} FlatDistinct(parts: seq<Part>)
    requires Unique(parts)
    ensures Distinct(Flat(parts))
    decreases |parts|
  {
    if parts != [] {
      var n := |parts| - 1;
      var init := parts[..n];
      assert forall i :: 0 <= i < n ==> init[i] == parts[i];
      FlatDistinct(init);
      var a, b := Flat(init), Positions(parts[n].id, parts[n].proposals);
      forall i | 0 <= i < |a|
        ensures a[i].part != parts[n].id
      {
        assert a[i] in a;
        FlatParts(init, a[i]);
        var x :| 0 <= x < n && init[x].id == a[i].part;
        assert parts[x].id != parts[n].id;
      }
      assert forall i, j :: 0 <= i < j < |b| ==> b[i] != b[j];
    }
  }

  lemma SuffixMember(all: seq<Position>, m: nat, i: nat)
    requires Distinct(all) && m <= |all| && i < |all|
    ensures all[i] in all[m..] <==> m <= i
  {
    if m <= i {
      assert all[m..][i - m] == all[i];
    }
  }

  lemma KeepNext(previous: Option<Receipt>, all: seq<Position>, n: nat)
    requires n < |all|
    ensures Keep(previous, all[..n + 1])
            == Keep(previous, all[..n]) + if Wanted(previous, all[n]) then [all[n]] else []
  {
    assert all[..n + 1][..n] == all[..n];
  }

  /** Keeping the positions of a suffix of a distinct sequence gives that suffix. */
  lemma {:induction false} KeepSuffix(previous: Receipt, all: seq<Position>, m: nat, n: nat)
    requires Distinct(all) && m <= |all| && n <= |all| && previous.next == all[m..]
    ensures Keep(Some(previous), all[..n]) == if n <= m then [] else all[m..n]
    decreases n
  {
    hide Distinct, Keep;
    if n == 0 {
      assert all[..n] == [];
      KeepNothing(Some(previous), []);
    } else {
      KeepSuffix(previous, all, m, n - 1);
      KeepNext(Some(previous), all, n - 1);
      SuffixMember(all, m, n - 1);
      if n - 1 >= m {
        assert all[m..n] == all[m..n - 1] + [all[n - 1]];
      }
    }
  }

  /** The receipt and everything submitted after a number of calls with the given budgets. */
  datatype Progress = Progress(receipt: Option<Receipt>, submitted: seq<Position>)

  function Resume(parts: seq<Part>, budgets: seq<nat>, review: Position -> Review): Progress {
    if budgets == [] then Progress(None, [])
    else
      var before := Resume(parts, budgets[..|budgets| - 1], review);
      var now := Form(parts, budgets[|budgets| - 1], before.receipt, review);
      Progress(Some(now.receipt), before.submitted + now.submitted)
  }

  function Sum(budgets: seq<nat>): nat {
    if budgets == [] then 0 else Sum(budgets[..|budgets| - 1]) + budgets[|budgets| - 1]
  }

  /** The receipt that accounts for having submitted exactly the first `m` proposals. */
  ghost predicate Accounts(review: Position -> Review, all: seq<Position>, m: nat, r: Receipt)
    requires m <= |all|
  {
    && r.next == all[m..] && r.total == |all| && (r.complete <==> m == |all|)
    && r.withheld == Count(review, all[..m], {PendingReview}) + (|all| - m)
    && r.rejected == Count(review, all[..m], {Rejected, Stale})
    && r.admitted == Count(review, all[..m], {Committed, Noop})
    && r.admitted + r.withheld + r.rejected == |all|
  }

  lemma {:induction false} EveryReviewCounts(review: Position -> Review, s: seq<Position>)
    ensures Count(review, s, {PendingReview}) + Count(review, s, {Rejected, Stale}) + Count(review, s, {Committed, Noop}) == |s|
    decreases |s|
  {
    if s != [] {
      EveryReviewCounts(review, s[..|s| - 1]);
      match review(s[|s| - 1])
      case Committed =>
      case Noop =>
      case PendingReview =>
      case Rejected =>
      case Stale =>
    }
  }

  /** One more call moves the boundary by its budget. */
  lemma CallAdvances(parts: seq<Part>, budget: nat, previous: Option<Receipt>, review: Position -> Review, m: nat)
    requires Unique(parts) && m <= |Flat(parts)|
    requires previous.None? ==> m == 0
    requires previous.Some? ==> Accounts(review, Flat(parts), m, previous.value)
    ensures var all, r := Flat(parts), Form(parts, budget, previous, review);
            var m' := Least(|all|, m + budget);
            r.submitted == all[m..m'] && Accounts(review, all, m', r.receipt)
  {
    hide Keep, Flat, Count, Unique;
    var all := Flat(parts);
    var m' := Least(|all|, m + budget);
    if previous.Some? && previous.value.complete {
      assert all[m..m'] == [];
    } else {
      TodoIs(parts, previous, m);
      var todo := Keep(previous, all);
      var n := Least(budget, |todo|);
      assert todo[..n] == all[m..m'] && todo[n..] == all[m'..];
      Bucketed(review, all, m, m', previous);
    }
  }

  lemma TodoIs(parts: seq<Part>, previous: Option<Receipt>, m: nat)
    requires Unique(parts) && m <= |Flat(parts)|
    requires if previous.Some? then previous.value.next == Flat(parts)[m..] else m == 0
    ensures Keep(previous, Flat(parts)) == Flat(parts)[m..]
  {
    var all := Flat(parts);
    assert all[..|all|] == all;
    if previous.Some? {
      FlatDistinct(parts);
      KeepSuffix(previous.value, all, m, |all|);
    } else {
      KeepAll(all);
    }
  }

  lemma Bucketed(review: Position -> Review, all: seq<Position>, m: nat, m': nat, previous: Option<Receipt>)
    requires m <= m' <= |all|
    requires previous.None? ==> m == 0
    requires previous.Some? ==> Accounts(review, all, m, previous.value)
    ensures Accounts(review, all, m', ReceiptOf(previous, review, |all|, all[m..m'], all[m'..]))
  {
    assert all[..m'] == all[..m] + all[m..m'];
    CountConcat(review, all[..m], all[m..m'], {PendingReview});
    CountConcat(review, all[..m], all[m..m'], {Rejected, Stale});
    EveryReviewCounts(review, all[..m']);
    assert previous.None? ==> all[..m] == [];
    assert Count(review, [], {PendingReview}) == 0 && Count(review, [], {Rejected, Stale}) == 0;
    hide Count;
  }

  lemma {:induction false} KeepAll(s: seq<Position>)
    ensures Keep(None, s) == s
    decreases |s|
  {
    if s != [] {
      KeepAll(s[..|s| - 1]);
    }
  }

  /** After any number of calls, exactly the first min(N, sum of budgets) proposals were submitted, each once
      and in order; the three buckets add up to N, `admitted` counts the committed or unchanged ones, and
      processing is complete exactly when the budgets cover N. */
  lemma {:induction false} ResumingConservesWork(parts: seq<Part>, budgets: seq<nat>, review: Position -> Review)
    requires Unique(parts) && budgets != []
    ensures var all, p := Flat(parts), Resume(parts, budgets, review);
            var m := Least(|all|, Sum(budgets));
            p.submitted == all[..m] && Distinct(p.submitted) && p.receipt.Some? && Accounts(review, all, m, p.receipt.value)
    decreases |budgets|
  {
    hide Form, Accounts, Count, Distinct, Unique, Flat;
    var all, n := Flat(parts), |budgets| - 1;
    FlatDistinct(parts);
    var before := Resume(parts, budgets[..n], review);
    var m := Least(|all|, Sum(budgets[..n]));
    if n > 0 {
      ResumingConservesWork(parts, budgets[..n], review);
    } else {
      assert budgets[..n] == [];
    }
    CallAdvances(parts, budgets[n], before.receipt, review, m);
    var m' := Least(|all|, m + budgets[n]);
    assert all[..m'] == all[..m] + all[m..m'];
    DistinctPrefix(all, m');
  }

  // ---- a constant budget ----------------------------------------------------

  function Repeat(budget: nat, calls: nat): (r: seq<nat>)
    ensures |r| == calls && forall i :: 0 <= i < calls ==> r[i] == budget
  {
    seq(calls, _ => budget)
  }

  lemma {:induction false} SumRepeat(budget: nat, calls: nat)
    ensures Sum(Repeat(budget, calls)) == calls * budget
    decreases calls
  {
    if calls > 0 {
      assert Repeat(budget, calls)[..calls - 1] == Repeat(budget, calls - 1);
      SumRepeat(budget, calls - 1);
    }
  }

  /** With a constant budget B, j calls submit min(N, j * B) proposals, and the first complete call is number
      max(1, ceil(N / B)). */
  lemma ConstantBudget(parts: seq<Part>, budget: nat, calls: nat, review: Position -> Review)
    requires Unique(parts) && budget >= 1 && calls >= 1
    ensures var all, p := Flat(parts), Resume(parts, Repeat(budget, calls), review);
            && p.submitted == all[..Least(|all|, calls * budget)] && p.receipt.Some?
            && (p.receipt.value.complete <==> calls >= (|all| + budget - 1) / budget)
  {
    SumRepeat(budget, calls);
    ResumingConservesWork(parts, Repeat(budget, calls), review);
    CeilDiv(|Flat(parts)|, budget, calls);
  }

  lemma CeilDiv(n: nat, b: nat, j: nat)
    requires b >= 1
    ensures n <= j * b <==> j >= (n + b - 1) / b
  {
    var q, r := (n + b - 1) / b, (n + b - 1) % b;
    assert n + b - 1 == b * q + r;
    if j >= q {
      assert j * b >= q * b;
    } else {
      assert (j + 1) * b <= q * b;
    }
  }
}
