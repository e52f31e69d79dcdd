/** Generic sequence operations the source gets from `Array.prototype.filter`,
    `Set` (insertion-ordered) and counting in a `Map`. Each is defined by
    appending one element at a time, the order in which the source's loops
    visit their input. */
module Sequences {
  import opened Options

  predicate AllDistinct<T(==)>(s: seq<T>) {
    forall i, j :: 0 <= i < j < |s| ==> s[i] != s[j]
  }

  /** The elements of `s` in order of first appearance: `Array.from(new Set(s))`. */
  function Distinct<T(==,!new)>(s: seq<T>): (r: seq<T>)
    ensures AllDistinct(r)
    ensures forall x :: x in r <==> x in s
    ensures |r| <= |s|
  {
    if s == [] then []
    else
      var d := Distinct(s[..|s| - 1]);
      var x := s[|s| - 1];
      assert forall y :: y in s <==> y in s[..|s| - 1] || y == x;
      if x in d then d else d + [x]
  }

  /** The number of occurrences of `x` in `s`. */
  function Count<T(==,!new)>(s: seq<T>, x: T): (n: nat)
    ensures n <= |s|
    ensures n > 0 <==> x in s
  {
    if s == [] then 0
    else
      var c := Count(s[..|s| - 1], x);
      assert forall y :: y in s <==> y in s[..|s| - 1] || y == s[|s| - 1];
      if s[|s| - 1] == x then c + 1 else c
  }

  /** The index of the first element satisfying `p`: `s.findIndex(p)`, or a
      `for ... of` loop that breaks at the first hit. */
  function FirstIndex<T>(s: seq<T>, p: T -> bool): (r: Option<nat>)
    ensures r.Some? ==> r.value < |s| && p(s[r.value])
    ensures r.Some? ==> forall j :: 0 <= j < r.value ==> !p(s[j])
    ensures r.None? ==> forall j :: 0 <= j < |s| ==> !p(s[j])
  {
    if s == [] then None
    else if p(s[0]) then Some(0)
    else
      var r := FirstIndex(s[1..], p);
      assert forall j :: 1 <= j < |s| ==> s[j] == s[1..][j - 1];
      if r.None? then None else Some(r.value + 1)
  }

  /** The first hit is the hit that no earlier hit precedes. */
  lemma FirstIndexIs<T>(s: seq<T>, p: T -> bool, i: nat)
    requires i < |s| && p(s[i])
    requires forall j :: 0 <= j < i ==> !p(s[j])
    ensures FirstIndex(s, p) == Some(i)
  {
  }

  /** `s.filter(p)`. */
  function Filter<T(!new)>(s: seq<T>, p: T -> bool): (r: seq<T>)
    ensures |r| <= |s|
    ensures forall i :: 0 <= i < |r| ==> p(r[i])
    ensures forall x :: x in r <==> x in s && p(x)
  {
    if s == [] then []
    else
      var f := Filter(s[..|s| - 1], p);
      var x := s[|s| - 1];
      assert forall y :: y in s <==> y in s[..|s| - 1] || y == x;
      if p(x) then f + [x] else f
  }

  /** Filtering commutes with concatenation, so the relative order of the
      kept elements is the input order. */
  lemma {:induction false} FilterConcat<T(!new)>(a: seq<T>, b: seq<T>, p: T -> bool)
    ensures Filter(a + b, p) == Filter(a, p) + Filter(b, p)
    decreases |b|
  {
    if b == [] {
      assert a + b == a;
    } else {
      var b' := b[..|b| - 1];
      assert (a + b)[..|a + b| - 1] == a + b';
      FilterConcat(a, b', p);
    }
  }

  /** A filter that keeps or drops every element leaves the sequence whole or
      empty; in particular a predicate true everywhere is the identity. */
  lemma {:induction false} FilterAll<T(!new)>(s: seq<T>, p: T -> bool)
    requires forall i :: 0 <= i < |s| ==> p(s[i])
    ensures Filter(s, p) == s
  {
    if s != [] {
      FilterAll(s[..|s| - 1], p);
    }
  }

  /** `r` is `s` with some elements removed, the rest kept in order. */
  predicate IsSubsequence<T(==)>(r: seq<T>, s: seq<T>)
    decreases |s|
  {
    if r == [] then true
    else if s == [] then false
    else if r[|r| - 1] == s[|s| - 1] then IsSubsequence(r[..|r| - 1], s[..|s| - 1])
    else IsSubsequence(r, s[..|s| - 1])
  }

  lemma {:induction false} FilterIsSubsequence<T(!new)>(s: seq<T>, p: T -> bool)
    ensures IsSubsequence(Filter(s, p), s)
  {
    if s != [] {
      var s' := s[..|s| - 1];
      FilterIsSubsequence(s', p);
      if !p(s[|s| - 1]) {
        SubsequenceExtend(Filter(s', p), s', s[|s| - 1]);
      }
    }
  }

  lemma {:induction false} SubsequenceExtend<T>(r: seq<T>, s: seq<T>, x: T)
    requires IsSubsequence(r, s)
    ensures IsSubsequence(r, s + [x])
    decreases |s|, 1
  {
    var t := s + [x];
    assert t[..|t| - 1] == s;
    if r != [] && r[|r| - 1] == x {
      SubsequenceDropLast(r, s);
    }
  }

  lemma {:induction false} SubsequenceDropLast<T>(r: seq<T>, s: seq<T>)
    requires r != [] && IsSubsequence(r, s)
    ensures IsSubsequence(r[..|r| - 1], s)
    decreases |s|, 0
  {
    var s' := s[..|s| - 1];
    if r[|r| - 1] == s[|s| - 1] {
      var r' := r[..|r| - 1];
      if r' != [] && r'[|r'| - 1] == s[|s| - 1] {
        SubsequenceDropLast(r', s');
        assert IsSubsequence(r'[..|r'| - 1], s');
      }
      SubsequenceExtend(r', s', s[|s| - 1]);
      assert s' + [s[|s| - 1]] == s;
    } else {
      SubsequenceDropLast(r, s');
      SubsequenceExtend(r[..|r| - 1], s', s[|s| - 1]);
      assert s' + [s[|s| - 1]] == s;
    }
  }
  predicate Increasing(s: seq<nat>) {
    forall i, j :: 0 <= i < j < |s| ==> s[i] < s[j]
  }

  /** The ascending indices of the elements satisfying `p`: a `forEach`
      that pushes the index of each hit. */
  function IndicesWhere<T>(s: seq<T>, p: T -> bool): (r: seq<nat>)
    ensures Increasing(r)
    ensures forall x :: x in r ==> x < |s|
    ensures forall k :: 0 <= k < |s| ==> (k in r <==> p(s[k]))
  {
    if s == [] then []
    else
      var n := |s| - 1;
      var h := IndicesWhere(s[..n], p);
      assert forall k :: 0 <= k < n ==> s[..n][k] == s[k];
      assert forall i :: 0 <= i < |h| ==> h[i] in h;
      if p(s[n]) then h + [n] else h
  }

  /** A sequence is its three slices at `i` and `j`, put back together. */
  lemma Slices3<T>(s: seq<T>, i: nat, j: nat)
    requires i <= j <= |s|
    ensures s == s[..i] + s[i..j] + s[j..]
  {
    assert s[..j] == s[..i] + s[i..j];
    assert s == s[..j] + s[j..];
  }

  lemma DistinctSnoc<T(!new)>(s: seq<T>, x: T)
    ensures Distinct(s + [x]) == if x in Distinct(s) then Distinct(s) else Distinct(s) + [x]
  {
    assert (s + [x])[..|s|] == s;
  }
}
