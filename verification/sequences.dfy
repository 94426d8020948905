/** `[...new Set(items)]`: the items without repetitions. A `Set` remembers
    insertion order, so the first occurrence of every item survives, in the
    order of first occurrence. */
module Sequences {

  predicate Distinct<T(==)>(s: seq<T>) {
    forall i, j :: 0 <= i < j < |s| ==> s[i] != s[j]
  }

  /** The items of `s`, each once. */
  function Dedupe<T(==)>(s: seq<T>): (r: seq<T>)
    ensures Distinct(r)
    ensures forall i :: 0 <= i < |s| ==> s[i] in r
    ensures forall i :: 0 <= i < |r| ==> r[i] in s
    ensures |r| <= |s|
    decreases |s|
  {
    if |s| == 0 then []
    else
      var front := Dedupe(s[..|s| - 1]);
      var last := s[|s| - 1];
      assert s == s[..|s| - 1] + [last];
      if last in front then front else front + [last]
  }

  /** The position of the first occurrence of `x` in `s`. */
  function FirstIndex<T(==)>(s: seq<T>, x: T): (i: nat)
    requires x in s
    ensures i < |s| && s[i] == x && x !in s[..i]
    decreases |s|
  {
    if s[0] == x then 0
    else
      var i := 1 + FirstIndex(s[1..], x);
      assert s[..i] == [s[0]] + s[1..][..i - 1];
      i
  }

  lemma FirstIndexUnique<T>(s: seq<T>, x: T, i: nat)
    requires i < |s| && s[i] == x && x !in s[..i]
    ensures FirstIndex(s, x) == i
  {
  }

  lemma FirstIndexInPrefix<T>(s: seq<T>, n: nat, x: T)
    requires n <= |s| && x in s[..n]
    ensures FirstIndex(s, x) == FirstIndex(s[..n], x)
  {
    var k := FirstIndex(s[..n], x);
    assert s[..k] == s[..n][..k];
    FirstIndexUnique(s, x, k);
  }

  /** The items of `r`, all taken from `s`, appear in `r` in the order of
      their first occurrence in `s`. */
  predicate InFirstOccurrenceOrder<T(==)>(s: seq<T>, r: seq<T>)
    requires forall i :: 0 <= i < |r| ==> r[i] in s
  {
    forall i, j :: 0 <= i < j < |r| ==> FirstIndex(s, r[i]) < FirstIndex(s, r[j])
  }

  /** Order among the items of the prefix `s[..n]` is the same whether
      first occurrences are counted in the prefix or in all of `s`. */
  lemma OrderInPrefix<T>(s: seq<T>, n: nat, r: seq<T>)
    requires n <= |s|
    requires forall i :: 0 <= i < |r| ==> r[i] in s[..n]
    requires forall i :: 0 <= i < |r| ==> r[i] in s
    requires InFirstOccurrenceOrder(s[..n], r)
    ensures InFirstOccurrenceOrder(s, r)
  {
    forall i, j | 0 <= i < j < |r| ensures FirstIndex(s, r[i]) < FirstIndex(s, r[j]) {
      FirstIndexInPrefix(s, n, r[i]);
      FirstIndexInPrefix(s, n, r[j]);
    }
  }

  /** An item that first occurs at the last position of `s` comes after
      every item of the prefix before it. */
  lemma OrderWithNewLast<T>(s: seq<T>, r: seq<T>, r2: seq<T>)
    requires |s| > 0 && s[|s| - 1] !in s[..|s| - 1]
    requires forall i :: 0 <= i < |r| ==> r[i] in s[..|s| - 1]
    requires forall i :: 0 <= i < |r| ==> r[i] in s
    requires InFirstOccurrenceOrder(s, r)
    requires r2 == r + [s[|s| - 1]]
    ensures forall i :: 0 <= i < |r2| ==> r2[i] in s
    ensures InFirstOccurrenceOrder(s, r2)
  {
    var n := |s| - 1;
    FirstIndexUnique(s, s[n], n);
    forall i, j | 0 <= i < j < |r2| ensures FirstIndex(s, r2[i]) < FirstIndex(s, r2[j]) {
      assert r2[i] == r[i];
      if j == |r| {
        FirstIndexInPrefix(s, n, r[i]);
      } else {
        assert r2[j] == r[j];
      }
    }
  }

  /** `Dedupe` keeps the items in the order of their first occurrence. */
  lemma {:induction false} DedupeKeepsFirstOccurrenceOrder<T>(s: seq<T>)
    ensures InFirstOccurrenceOrder(s, Dedupe(s))
    decreases |s|
  {
    if |s| > 0 {
      var n := |s| - 1;
      var front := s[..n];
      DedupeKeepsFirstOccurrenceOrder(front);
      var r' := Dedupe(front);
      assert forall i :: 0 <= i < |r'| ==> r'[i] in front;
      assert forall i :: 0 <= i < |r'| ==> r'[i] in s;
      OrderInPrefix(s, n, r');
      if s[n] !in r' {
        OrderWithNewLast(s, r', r' + [s[n]]);
        assert Dedupe(s) == r' + [s[n]];
      } else {
        assert Dedupe(s) == r';
      }
    }
  }

  /** Items that are already distinct pass through unchanged. */
  lemma {:induction false} DedupeOfDistinct<T>(s: seq<T>)
    requires Distinct(s)
    ensures Dedupe(s) == s
    decreases |s|
  {
    if |s| > 0 {
      var front := s[..|s| - 1];
      DedupeOfDistinct(front);
      assert s[|s| - 1] !in front;
      assert s == front + [s[|s| - 1]];
    }
  }
}
