/** Deterministic numeric utilities: the fixed-point rounding primitive and the
    hand-written merge sort that orders the wave schedule. */
module MathUtils {

  /** A JavaScript number as the engine can meet it: NaN or a finite value. */
  datatype JsNumber = NaN | Finite(value: real)

  /** Math.round: the nearest integer, halves rounded towards +infinity. */
  function Round(x: real): (r: int)
    ensures r as real - 0.5 <= x < r as real + 0.5
  {
    (x + 0.5).Floor
  }

  /** A value that is an exact multiple of 1e-5. */
  ghost predicate IsFixed(x: real) {
    (x * 100000.0).Floor as real == x * 100000.0
  }

  /** fixNumber on a finite value: the nearest multiple of 1e-5. */
  function Fix(x: real): (r: real)
    ensures IsFixed(r)
    ensures x - 0.000005 < r <= x + 0.000005
  {
    var k := Round(100000.0 * x);
    assert (k as real / 100000.0) * 100000.0 == k as real;
    k as real / 100000.0
  }

  /** fixNumber: NaN becomes 0, anything else is rounded to 5 fractional digits. */
  function FixNumber(n: JsNumber): (r: real)
    ensures IsFixed(r)
    ensures n.NaN? ==> r == 0.0
    ensures n.Finite? ==> n.value - 0.000005 < r <= n.value + 0.000005
  {
    match n
    case NaN => 0.0
    case Finite(v) => Fix(v)
  }

  /** The product of two quantities that both vary. Proofs see such a product only
      through this function, which keeps nonlinear arithmetic out of the
      surrounding reasoning. */
  function Mul(a: real, b: real): real
  {
    a * b
  }

  /** The product of two integers that both vary (see Mul). */
  function IntMul(a: int, b: int): int
  {
    a * b
  }

  /** The squared length of the vector (dx, dy). */
  function SumOfSquares(dx: real, dy: real): real
  {
    dx * dx + dy * dy
  }

  /** Rounding leaves a value that is already fixed where it is. */
  lemma FixOfFixed(x: real)
    requires IsFixed(x)
    ensures Fix(x) == x
  {
    var k := (x * 100000.0).Floor;
    assert 100000.0 * x == k as real;
    assert (k as real + 0.5).Floor == k;
    assert Round(100000.0 * x) == k;
  }

  /** fixNumber is idempotent. */
  lemma FixIdempotent(n: JsNumber)
    ensures FixNumber(Finite(FixNumber(n))) == FixNumber(n)
  {
    FixOfFixed(FixNumber(n));
  }

  /** Rounding is monotone. */
  lemma RoundMonotone(x: real, y: real)
    requires x <= y
    ensures Round(x) <= Round(y)
  {
  }

  /** fixNumber is monotone. */
  lemma FixMonotone(x: real, y: real)
    requires x <= y
    ensures Fix(x) <= Fix(y)
  {
    RoundMonotone(100000.0 * x, 100000.0 * y);
  }

  /** fixNumber keeps non-negative values non-negative. */
  lemma FixNonNegative(x: real)
    requires x >= 0.0
    ensures Fix(x) >= 0.0
  {
    RoundMonotone(0.0, 100000.0 * x);
  }

  // ---------------------------------------------------------------------------
  // Merge sort. The comparator the engine passes is `e1.t - e2.t < 0`, a strict
  // comparison of an integer key; `key` is that key.

  /** Adjacent elements are in non-decreasing key order. */
  ghost predicate SortedBy<T>(s: seq<T>, key: T -> int) {
    forall i :: 0 <= i < |s| - 1 ==> key(s[i]) <= key(s[i + 1])
  }

  /** Every earlier element has a key no larger than every later one. */
  ghost predicate PairwiseSortedBy<T>(s: seq<T>, key: T -> int) {
    forall i, j :: 0 <= i < j < |s| ==> key(s[i]) <= key(s[j])
  }

  lemma {:induction false} SortedIsPairwise<T>(s: seq<T>, key: T -> int)
    requires SortedBy(s, key)
    ensures PairwiseSortedBy(s, key)
  {
    if |s| > 1 {
      SortedIsPairwise(s[1..], key);
      assert forall i, j :: 0 <= i < j < |s| ==> key(s[i]) <= key(s[j]) by {
        forall i, j | 0 <= i < j < |s| ensures key(s[i]) <= key(s[j]) {
          if i > 0 {
            assert key(s[1..][i - 1]) <= key(s[1..][j - 1]);
          } else if j > 1 {
            assert key(s[1..][0]) <= key(s[1..][j - 1]);
          }
        }
      }
    }
  }

  /** splitList: an empty list gives two empty halves, a singleton stays on the
      left, and anything longer is cut at floor(n / 2). */
  function SplitList<T>(list: seq<T>): (halves: (seq<T>, seq<T>))
    ensures halves.0 + halves.1 == list
    ensures |list| >= 2 ==> |halves.0| == |list| / 2 && |halves.1| == |list| - |list| / 2
    ensures |list| == 1 ==> halves.0 == list && halves.1 == []
  {
    if |list| == 0 then ([], [])
    else if |list| == 1 then (list, [])
    else
      var index := |list| / 2;
      (list[..index], list[index..])
  }

  /** The merge that jointLists performs: the left head is emitted only when the
      comparator says it is strictly smaller, so on equal keys the right head
      goes first. */
  function Joint<T>(list1: seq<T>, list2: seq<T>, key: T -> int): seq<T>
    decreases |list1| + |list2|
  {
    if list1 == [] then list2
    else if list2 == [] then list1
    else if key(list1[0]) < key(list2[0]) then [list1[0]] + Joint(list1[1..], list2, key)
    else [list2[0]] + Joint(list1, list2[1..], key)
  }

  lemma {:induction false} JointPermutation<T>(list1: seq<T>, list2: seq<T>, key: T -> int)
    ensures multiset(Joint(list1, list2, key)) == multiset(list1) + multiset(list2)
    decreases |list1| + |list2|
  {
    if list1 == [] || list2 == [] {
    } else if key(list1[0]) < key(list2[0]) {
      JointPermutation(list1[1..], list2, key);
      assert list1 == [list1[0]] + list1[1..];
    } else {
      JointPermutation(list1, list2[1..], key);
      assert list2 == [list2[0]] + list2[1..];
    }
  }

  lemma {:induction false} JointSorted<T>(list1: seq<T>, list2: seq<T>, key: T -> int)
    requires SortedBy(list1, key) && SortedBy(list2, key)
    ensures SortedBy(Joint(list1, list2, key), key)
    ensures |Joint(list1, list2, key)| == |list1| + |list2|
    ensures |list1| > 0 && |list2| > 0 ==>
      Joint(list1, list2, key)[0] == (if key(list1[0]) < key(list2[0]) then list1[0] else list2[0])
    decreases |list1| + |list2|
  {
    if list1 == [] || list2 == [] {
    } else if key(list1[0]) < key(list2[0]) {
      JointSorted(list1[1..], list2, key);
      var rest := Joint(list1[1..], list2, key);
      if |list1| > 1 {
        assert rest[0] == list1[1] || rest[0] == list2[0];
      }
    } else {
      JointSorted(list1, list2[1..], key);
      var rest := Joint(list1, list2[1..], key);
      if |list2| > 1 {
        assert rest[0] == list1[0] || rest[0] == list2[1];
      }
    }
  }

  /** mergeSort: lists of length at most one are returned as they are; longer
      lists are split, both halves sorted and the results merged. */
  function MergeSort<T>(list: seq<T>, key: T -> int): (r: seq<T>)
    ensures |list| <= 1 ==> r == list
    decreases |list|
  {
    if |list| <= 1 then list
    else
      var halves := SplitList(list);
      Joint(MergeSort(halves.0, key), MergeSort(halves.1, key), key)
  }

  /** The output of mergeSort is a permutation of its input. */
  lemma {:induction false} MergeSortPermutation<T>(list: seq<T>, key: T -> int)
    ensures multiset(MergeSort(list, key)) == multiset(list)
    decreases |list|
  {
    if |list| > 1 {
      var halves := SplitList(list);
      MergeSortPermutation(halves.0, key);
      MergeSortPermutation(halves.1, key);
      JointPermutation(MergeSort(halves.0, key), MergeSort(halves.1, key), key);
    }
  }

  /** The output of mergeSort is sorted by the key. */
  lemma {:induction false} MergeSortSorted<T>(list: seq<T>, key: T -> int)
    ensures SortedBy(MergeSort(list, key), key)
    ensures PairwiseSortedBy(MergeSort(list, key), key)
    decreases |list|
  {
    if |list| > 1 {
      var halves := SplitList(list);
      MergeSortSorted(halves.0, key);
      MergeSortSorted(halves.1, key);
      JointSorted(MergeSort(halves.0, key), MergeSort(halves.1, key), key);
    }
    SortedIsPairwise(MergeSort(list, key), key);
  }

  /** The sort is not stable: two entries with equal keys come out swapped. */
  lemma MergeSortSwapsEqualPair<T>(a: T, b: T, key: T -> int)
    requires key(a) == key(b)
    ensures MergeSort([a, b], key) == [b, a]
  {
    var halves := SplitList([a, b]);
    assert halves.0 == [a] && halves.1 == [b];
    assert Joint([a], [b], key) == [b] + Joint([a], [], key);
  }

  /** jointLists: merges two non-empty lists with the loop of the source. The
      loop body runs before the exhaustion test, which is why both lists must be
      non-empty (mergeSort only calls it on two non-empty halves). */
  method JointLists<T>(list1: seq<T>, list2: seq<T>, key: T -> int) returns (result: seq<T>)
    requires |list1| > 0 && |list2| > 0
    ensures result == Joint(list1, list2, key)
    ensures key(list1[0]) < key(list2[0]) ==> result[0] == list1[0]
    ensures !(key(list1[0]) < key(list2[0])) ==> result[0] == list2[0]
  {
    result := [];
    var index1, index2 := 0, 0;
    while true
      invariant 0 <= index1 < |list1| && 0 <= index2 < |list2|
      invariant result + Joint(list1[index1..], list2[index2..], key) == Joint(list1, list2, key)
      decreases |list1| + |list2| - index1 - index2
    {
      JointStep(list1, list2, index1, index2, key);
      if key(list1[index1]) < key(list2[index2]) {
        result := result + [list1[index1]];
        index1 := index1 + 1;
      } else {
        result := result + [list2[index2]];
        index2 := index2 + 1;
      }
      if index1 == |list1| || index2 == |list2| {
        break;
      }
    }
    assert index1 == |list1| || index2 == |list2|;
    if index1 < |list1| {
      assert list2[index2..] == [];
      result := result + list1[index1..];
    } else if index2 < |list2| {
      assert list1[index1..] == [];
      result := result + list2[index2..];
    }
    JointStep(list1, list2, 0, 0, key);
  }

  /** One step of the merge loop, in terms of the remaining suffixes. */
  lemma JointStep<T>(list1: seq<T>, list2: seq<T>, index1: nat, index2: nat, key: T -> int)
    requires index1 < |list1| && index2 < |list2|
    ensures key(list1[index1]) < key(list2[index2]) ==>
      Joint(list1[index1..], list2[index2..], key) == [list1[index1]] + Joint(list1[index1 + 1..], list2[index2..], key)
    ensures !(key(list1[index1]) < key(list2[index2])) ==>
      Joint(list1[index1..], list2[index2..], key) == [list2[index2]] + Joint(list1[index1..], list2[index2 + 1..], key)
  {
    assert list1[index1..][1..] == list1[index1 + 1..];
    assert list2[index2..][1..] == list2[index2 + 1..];
  }
}
