/** The array operations the engine uses on its entity collections, with the
    semantics of JavaScript's `indexOf` (identity, first match, -1 when missing)
    and `splice(index, 1)` (a negative index counts from the end). */
module Sequences {

  /** `s.indexOf(x)`. */
  function IndexOf<T(==)>(s: seq<T>, x: T): (i: int)
    ensures -1 <= i < |s|
    ensures i == -1 <==> x !in s
    ensures i >= 0 ==> s[i] == x && x !in s[..i]
  {
    if s == [] then -1
    else if s[0] == x then 0
    else
      var j := IndexOf(s[1..], x);
      assert s[1..][..if j < 0 then 0 else j] == s[1..if j < 0 then 1 else j + 1];
      if j < 0 then -1 else j + 1
  }

  /** `s.splice(i, 1)` for an index inside the array. */
  function RemoveAt<T>(s: seq<T>, i: int): (r: seq<T>)
    requires 0 <= i < |s|
    ensures |r| == |s| - 1
    ensures forall k :: 0 <= k < i ==> r[k] == s[k]
    ensures forall k :: i <= k < |r| ==> r[k] == s[k + 1]
  {
    s[..i] + s[i + 1..]
  }

  /** `const i = s.indexOf(x); if (i !== -1) s.splice(i, 1)`. */
  function RemoveFirst<T(==)>(s: seq<T>, x: T): (r: seq<T>)
  {
    var i := IndexOf(s, x);
    if i == -1 then s else RemoveAt(s, i)
  }

  /** `s.splice(s.indexOf(x), 1)` with no guard: when `x` is missing the index is
      -1 and the last element goes instead. */
  function SpliceIndexOf<T(==)>(s: seq<T>, x: T): (r: seq<T>)
    ensures x in s ==> r == RemoveFirst(s, x)
    ensures x !in s && |s| > 0 ==> r == s[..|s| - 1]
    ensures s == [] ==> r == []
  {
    var i := IndexOf(s, x);
    if i >= 0 then RemoveAt(s, i)
    else if |s| > 0 then RemoveAt(s, |s| - 1)
    else s
  }

  /** The list after `splice(indexOf(x), 1)` for every `x` of `xs`, front to back. */
  function SpliceAll<T(==)>(s: seq<T>, xs: seq<T>): seq<T>
  {
    if xs == [] then s else SpliceIndexOf(SpliceAll(s, xs[..|xs| - 1]), xs[|xs| - 1])
  }

  /** Splicing out the first k + 1 elements of `xs` is splicing out the first
      k, then element k. */
  lemma SpliceAllStep<T>(s: seq<T>, xs: seq<T>, k: nat)
    requires k < |xs|
    ensures SpliceAll(s, xs[..k + 1]) == SpliceIndexOf(SpliceAll(s, xs[..k]), xs[k])
  {
    assert xs[..k + 1][..k] == xs[..k];
  }

  /** Splicing elements out of a list of elements of `u` leaves a list of
      elements of `u`. */
  lemma {:induction false} SpliceAllWithin<T>(s: seq<T>, xs: seq<T>, u: set<T>)
    requires Within(s, u)
    ensures Within(SpliceAll(s, xs), u)
    decreases |xs|
  {
    if xs != [] {
      SpliceAllWithin(s, xs[..|xs| - 1], u);
      SpliceIndexOfWithin(SpliceAll(s, xs[..|xs| - 1]), xs[|xs| - 1], u);
    }
  }

  /** A list without repetitions. */
  ghost predicate Distinct<T>(s: seq<T>) {
    forall i, j :: 0 <= i < j < |s| ==> s[i] != s[j]
  }

  /** Every element of the list belongs to the set. */
  ghost predicate Within<T>(s: seq<T>, u: set<T>) {
    forall i :: 0 <= i < |s| ==> s[i] in u
  }

  /** Removing a member of a list without repetitions takes out exactly that
      one element: the rest keeps its multiplicities and has no repetitions. */
  lemma RemoveFirstDistinct<T>(s: seq<T>, x: T)
    requires Distinct(s) && x in s
    ensures |RemoveFirst(s, x)| == |s| - 1
    ensures multiset(RemoveFirst(s, x)) == multiset(s) - multiset{x}
    ensures x !in RemoveFirst(s, x)
    ensures Distinct(RemoveFirst(s, x))
  {
    var i := IndexOf(s, x);
    var r := RemoveFirst(s, x);
    assert s == s[..i] + [x] + s[i + 1..];
    assert r == s[..i] + s[i + 1..];
    forall k | 0 <= k < |r| ensures r[k] != x {
      if k >= i { assert r[k] == s[k + 1]; }
    }
    forall a, b | 0 <= a < b < |r| ensures r[a] != r[b] {
      var a' := if a < i then a else a + 1;
      var b' := if b < i then b else b + 1;
      assert r[a] == s[a'] && r[b] == s[b'];
    }
  }

  /** Removing an element keeps a list without repetitions. */
  lemma RemoveAtDistinct<T>(s: seq<T>, i: int)
    requires Distinct(s) && 0 <= i < |s|
    ensures Distinct(RemoveAt(s, i))
  {
    var r := RemoveAt(s, i);
    forall a, b | 0 <= a < b < |r| ensures r[a] != r[b] {
      var a' := if a < i then a else a + 1;
      var b' := if b < i then b else b + 1;
      assert r[a] == s[a'] && r[b] == s[b'];
    }
  }

  /** `splice(indexOf(x), 1)` keeps a list without repetitions. */
  lemma SpliceIndexOfDistinct<T>(s: seq<T>, x: T)
    requires Distinct(s)
    ensures Distinct(SpliceIndexOf(s, x))
  {
    var i := IndexOf(s, x);
    if i >= 0 {
      RemoveAtDistinct(s, i);
    } else if |s| > 0 {
      RemoveAtDistinct(s, |s| - 1);
    }
  }

  /** Splicing elements out of a list without repetitions leaves a list
      without repetitions. */
  lemma {:induction false} SpliceAllDistinct<T>(s: seq<T>, xs: seq<T>)
    requires Distinct(s)
    ensures Distinct(SpliceAll(s, xs))
    decreases |xs|
  {
    if xs != [] {
      SpliceAllDistinct(s, xs[..|xs| - 1]);
      SpliceIndexOfDistinct(SpliceAll(s, xs[..|xs| - 1]), xs[|xs| - 1]);
    }
  }

  /** Removing an element keeps a list inside a set. */
  lemma RemoveFirstWithin<T>(s: seq<T>, x: T, u: set<T>)
    requires Within(s, u)
    ensures Within(RemoveFirst(s, x), u)
  {
    var i := IndexOf(s, x);
    if i >= 0 {
      RemoveAtWithin(s, i, u);
    }
  }

  /** `splice(indexOf(x), 1)` keeps a list inside a set. */
  lemma SpliceIndexOfWithin<T>(s: seq<T>, x: T, u: set<T>)
    requires Within(s, u)
    ensures Within(SpliceIndexOf(s, x), u)
  {
    var i := IndexOf(s, x);
    if i >= 0 {
      RemoveAtWithin(s, i, u);
    } else if |s| > 0 {
      RemoveAtWithin(s, |s| - 1, u);
    }
  }

  lemma RemoveAtWithin<T>(s: seq<T>, i: int, u: set<T>)
    requires Within(s, u) && 0 <= i < |s|
    ensures Within(RemoveAt(s, i), u)
  {
    var r := RemoveAt(s, i);
    forall k | 0 <= k < |r| ensures r[k] in u {
      if k < i { assert r[k] == s[k]; } else { assert r[k] == s[k + 1]; }
    }
  }
}
