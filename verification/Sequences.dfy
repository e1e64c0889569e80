/** Sequences without repetition. */
module Sequences {

  ghost predicate Distinct<T>(s: seq<T>) {
    forall i, j :: 0 <= i < j < |s| ==> s[i] != s[j]
  }

  lemma DistinctPrefix<T>(s: seq<T>, n: nat)
    requires Distinct(s) && n <= |s|
    ensures Distinct(s[..n])
  {
  }

  /** Entries that differ in a key. */
  ghost predicate DistinctBy<T, K>(s: seq<T>, key: T -> K) {
    forall i, j :: 0 <= i < j < |s| ==> key(s[i]) != key(s[j])
  }

  /** A sequence without repetition has as many entries as it has elements. */
  lemma {:induction false} DistinctCount<T>(s: seq<T>, elements: set<T>)
    requires Distinct(s) && forall x :: x in s <==> x in elements
    ensures |elements| == |s|
    decreases |s|
  {
    if s == [] {
      assert elements == {};
    } else {
      var n := |s| - 1;
      assert s == s[..n] + [s[n]];
      assert s[n] !in s[..n];
      DistinctCount(s[..n], elements - {s[n]});
    }
  }

  // ---- order of first occurrence --------------------------------------------

  /** `i` is the first position of `x`. */
  predicate FirstAt<T(==)>(s: seq<T>, x: T, i: nat) {
    i < |s| && s[i] == x && x !in s[..i]
  }

  /** `x` occurs first before `y` does. */
  ghost predicate Precedes<T>(s: seq<T>, x: T, y: T) {
    exists i: nat, j: nat :: i < j && FirstAt(s, x, i) && FirstAt(s, y, j)
  }

  /** `r` lists elements of `s` once each, in the order of their first occurrence. */
  ghost predicate InFirstOrder<T>(s: seq<T>, r: seq<T>) {
    forall a, b :: 0 <= a < b < |r| ==> Precedes(s, r[a], r[b])
  }

  lemma {:induction false} First<T>(s: seq<T>, x: T) returns (i: nat)
    requires x in s
    ensures FirstAt(s, x, i)
    decreases |s|
  {
    var n := |s| - 1;
    if x in s[..n] {
      i := First(s[..n], x);
      assert s[..n][..i] == s[..i];
    } else {
      i := n;
    }
  }
}
