/** Target selection of a turret: which enemies are candidates, and the order
    each shooting strategy puts them in. */
module Targeting {
  import opened MathUtils
  import opened GameTypes
  import opened Enemies

  /** An in-range enemy together with the values the comparators read. */
  datatype Candidate = Candidate(enemy: Enemy, id: int, l: real, life: real, squareDist: real)

  /** The tie-break shared by every strategy: further along the path first,
      then the lower id. */
  function TieBreak(a: Candidate, b: Candidate): real
  {
    if a.l == b.l then (a.id - b.id) as real else b.l - a.l
  }

  /** The comparator a strategy passes to the sort, as the number it returns:
      a negative value puts `a` before `b`. */
  function Compare(s: Strategy, a: Candidate, b: Candidate): real
  {
    match s
    case ShootFirst => TieBreak(a, b)
    case ShootLast => if a.l == b.l then (a.id - b.id) as real else a.l - b.l
    case ShootClosest => if a.squareDist == b.squareDist then TieBreak(a, b) else a.squareDist - b.squareDist
    case ShootWeakest => if a.life == b.life then TieBreak(a, b) else a.life - b.life
    case ShootStrongest => if a.life == b.life then TieBreak(a, b) else b.life - a.life
  }

  predicate Before(s: Strategy, a: Candidate, b: Candidate)
  {
    Compare(s, a, b) < 0.0
  }

  /** Between two candidates with the same progress (and, for the closest,
      weakest and strongest strategies, the same distance or life) every
      strategy picks the lower id first. */
  lemma TiesBrokenById(s: Strategy, a: Candidate, b: Candidate)
    requires a.l == b.l
    requires s == ShootClosest ==> a.squareDist == b.squareDist
    requires s == ShootWeakest || s == ShootStrongest ==> a.life == b.life
    ensures Before(s, a, b) <==> a.id < b.id
  {
  }

  /** Every comparator is a strict total order on candidates with distinct ids. */
  lemma BeforeIrreflexive(s: Strategy, a: Candidate)
    ensures !Before(s, a, a)
  {
  }

  lemma BeforeAsymmetric(s: Strategy, a: Candidate, b: Candidate)
    ensures Before(s, a, b) ==> !Before(s, b, a)
  {
  }

  lemma BeforeTotal(s: Strategy, a: Candidate, b: Candidate)
    requires a.id != b.id
    ensures Before(s, a, b) || Before(s, b, a)
  {
  }

  lemma NotBeforeTransitive(s: Strategy, a: Candidate, b: Candidate, c: Candidate)
    requires !Before(s, a, b) && !Before(s, b, c)
    ensures !Before(s, a, c)
  {
  }

  /** No candidate is followed by one the comparator puts before it. */
  ghost predicate OrderedBy(s: Strategy, r: seq<Candidate>)
  {
    forall i, j :: 0 <= i < j < |r| ==> !Before(s, r[j], r[i])
  }

  ghost predicate DistinctIds(r: seq<Candidate>)
  {
    forall i, j :: 0 <= i < j < |r| ==> r[i].id != r[j].id
  }

  /** Inserts `c` into a list ordered by the strategy, before the first element
      that does not come before it. */
  function Insert(s: Strategy, c: Candidate, r: seq<Candidate>): seq<Candidate>
  {
    if r == [] then [c]
    else if Before(s, r[0], c) then [r[0]] + Insert(s, c, r[1..])
    else [c] + r
  }

  /** The candidates in the order of the strategy's comparator. */
  function SortCandidates(s: Strategy, cs: seq<Candidate>): seq<Candidate>
  {
    if cs == [] then [] else Insert(s, cs[0], SortCandidates(s, cs[1..]))
  }

  lemma {:induction false} InsertMultiset(s: Strategy, c: Candidate, r: seq<Candidate>)
    ensures multiset(Insert(s, c, r)) == multiset(r) + multiset{c}
  {
    if r != [] && Before(s, r[0], c) {
      InsertMultiset(s, c, r[1..]);
      assert r == [r[0]] + r[1..];
    }
  }

  lemma OrderedCons(s: Strategy, h: Candidate, r: seq<Candidate>)
    requires OrderedBy(s, r)
    requires forall x :: x in r ==> !Before(s, x, h)
    ensures OrderedBy(s, [h] + r)
  {
    var hr := [h] + r;
    forall i, j | 0 <= i < j < |hr| ensures !Before(s, hr[j], hr[i]) {
      if i == 0 {
        assert hr[j] == r[j - 1];
      } else {
        assert hr[i] == r[i - 1] && hr[j] == r[j - 1];
      }
    }
  }

  lemma {:induction false} InsertOrdered(s: Strategy, c: Candidate, r: seq<Candidate>)
    requires OrderedBy(s, r)
    ensures OrderedBy(s, Insert(s, c, r))
  {
    if r == [] {
    } else if Before(s, r[0], c) {
      var tail := r[1..];
      OrderedTail(s, r);
      var rest := Insert(s, c, tail);
      InsertOrdered(s, c, tail);
      InsertMultiset(s, c, tail);
      forall x | x in rest ensures !Before(s, x, r[0]) {
        assert x in multiset(rest);
        if x == c {
          BeforeAsymmetric(s, r[0], c);
        } else {
          assert x in multiset(tail);
          var k :| 0 <= k < |tail| && tail[k] == x;
          assert r[k + 1] == x;
        }
      }
      OrderedCons(s, r[0], rest);
    } else {
      forall x | x in r ensures !Before(s, x, c) {
        var k :| 0 <= k < |r| && r[k] == x;
        if k > 0 {
          NotBeforeTransitive(s, r[k], r[0], c);
        }
      }
      OrderedCons(s, c, r);
    }
  }

  /** The sorted list holds exactly the candidates it was given. */
  lemma {:induction false} SortPermutation(s: Strategy, cs: seq<Candidate>)
    ensures multiset(SortCandidates(s, cs)) == multiset(cs)
  {
    if cs != [] {
      SortPermutation(s, cs[1..]);
      InsertMultiset(s, cs[0], SortCandidates(s, cs[1..]));
      assert cs == [cs[0]] + cs[1..];
    }
  }

  /** The sorted list is ordered by the strategy's comparator. */
  lemma {:induction false} SortOrdered(s: Strategy, cs: seq<Candidate>)
    ensures OrderedBy(s, SortCandidates(s, cs))
  {
    if cs != [] {
      SortOrdered(s, cs[1..]);
      InsertOrdered(s, cs[0], SortCandidates(s, cs[1..]));
    }
  }

  lemma {:induction false} CountAtMostOne(a: seq<Candidate>, x: Candidate)
    requires DistinctIds(a)
    ensures multiset(a)[x] <= 1
  {
    if a != [] {
      assert a == [a[0]] + a[1..];
      DistinctTail(a);
      CountAtMostOne(a[1..], x);
      if x == a[0] {
        forall k | 0 <= k < |a| - 1 ensures a[1..][k] != x {
          assert a[0].id != a[k + 1].id;
        }
        assert x !in a[1..];
      }
    }
  }

  lemma CountTwo(b: seq<Candidate>, i: int, j: int)
    requires 0 <= i < j < |b| && b[i] == b[j]
    ensures multiset(b)[b[i]] >= 2
  {
    assert b == b[..j] + b[j..];
    assert b[..j][i] == b[i] && b[j..][0] == b[j];
  }

  lemma DistinctIdsMultiset(a: seq<Candidate>, b: seq<Candidate>)
    requires DistinctIds(a) && multiset(a) == multiset(b)
    ensures DistinctIds(b)
  {
    forall i, j | 0 <= i < j < |b| ensures b[i].id != b[j].id {
      assert b[i] in multiset(a) && b[j] in multiset(a);
      var p :| 0 <= p < |a| && a[p] == b[i];
      var q :| 0 <= q < |a| && a[q] == b[j];
      if b[i] == b[j] {
        CountTwo(b, i, j);
        CountAtMostOne(a, b[i]);
      } else if p < q {
        assert a[p].id != a[q].id;
      } else {
        assert a[q].id != a[p].id;
      }
    }
  }

  /** The tail of an ordered list is ordered. */
  lemma OrderedTail(s: Strategy, a: seq<Candidate>)
    requires OrderedBy(s, a) && |a| > 0
    ensures OrderedBy(s, a[1..])
  {
    forall i, j | 0 <= i < j < |a| - 1 ensures !Before(s, a[1..][j], a[1..][i]) {
      assert a[1..][i] == a[i + 1] && a[1..][j] == a[j + 1];
    }
  }

  /** The tail of a list with distinct ids has distinct ids. */
  lemma DistinctTail(a: seq<Candidate>)
    requires DistinctIds(a) && |a| > 0
    ensures DistinctIds(a[1..])
  {
    forall i, j | 0 <= i < j < |a| - 1 ensures a[1..][i].id != a[1..][j].id {
      assert a[1..][i] == a[i + 1] && a[1..][j] == a[j + 1];
    }
  }

  /** Taking the head off a list takes one occurrence out of its multiset. */
  lemma MultisetTail(a: seq<Candidate>)
    requires |a| > 0
    ensures a == [a[0]] + a[1..] && multiset(a[1..]) == multiset(a) - multiset{a[0]}
  {
    assert a == [a[0]] + a[1..];
  }

  /** Two ordered lists holding the same candidates with distinct ids start
      with the same candidate. */
  lemma OrderedHeads(s: Strategy, a: seq<Candidate>, b: seq<Candidate>)
    requires OrderedBy(s, a) && OrderedBy(s, b) && multiset(a) == multiset(b)
    requires DistinctIds(a) && DistinctIds(b) && |a| > 0
    ensures |b| > 0 && a[0] == b[0]
  {
    assert |b| == |multiset(b)| == |a|;
    if a[0] != b[0] {
      assert a[0] in multiset(b);
      var k :| 0 <= k < |b| && b[k] == a[0];
      assert b[0] in multiset(a);
      var m :| 0 <= m < |a| && a[m] == b[0];
      assert k != 0 && m != 0;
      assert a[0].id != b[0].id;
      BeforeTotal(s, a[0], b[0]);
      assert false;
    }
  }

  /** Two lists ordered by a strategy that hold the same candidates with
      distinct ids are the same list: any correct sort of the candidates gives
      this order. */
  lemma {:induction false} OrderedUnique(s: Strategy, a: seq<Candidate>, b: seq<Candidate>)
    requires OrderedBy(s, a) && OrderedBy(s, b) && multiset(a) == multiset(b)
    requires DistinctIds(a)
    ensures a == b
    decreases |a|
  {
    DistinctIdsMultiset(a, b);
    if a == [] {
      assert |b| == |multiset(b)| == 0;
    } else {
      OrderedHeads(s, a, b);
      MultisetTail(a);
      MultisetTail(b);
      OrderedTail(s, a);
      OrderedTail(s, b);
      DistinctTail(a);
      OrderedUnique(s, a[1..], b[1..]);
    }
  }

  /** The order getEnemiesWithinRange returns: lists of two or more are sorted
      by the strategy's comparator. */
  function Targets(s: Strategy, cs: seq<Candidate>): seq<Candidate>
  {
    if |cs| > 1 then SortCandidates(s, cs) else cs
  }

  /** The targets are a reordering of the candidates, ordered by the strategy,
      and the only such ordering when the candidates' ids are distinct. */
  lemma TargetsSorted(s: Strategy, cs: seq<Candidate>)
    ensures multiset(Targets(s, cs)) == multiset(cs)
    ensures OrderedBy(s, Targets(s, cs))
    ensures DistinctIds(cs) ==> forall r :: OrderedBy(s, r) && multiset(r) == multiset(cs) ==> r == Targets(s, cs)
  {
    SortPermutation(s, cs);
    SortOrdered(s, cs);
    if DistinctIds(cs) {
      DistinctIdsMultiset(cs, Targets(s, cs));
      forall r | OrderedBy(s, r) && multiset(r) == multiset(cs) ensures r == Targets(s, cs) {
        OrderedUnique(s, Targets(s, cs), r);
      }
    }
  }

  /** The enemies of a list of candidates, in order. */
  function EnemiesOf(cs: seq<Candidate>): (r: seq<Enemy>)
    ensures |r| == |cs| && forall i :: 0 <= i < |cs| ==> r[i] == cs[i].enemy
  {
    if cs == [] then [] else [cs[0].enemy] + EnemiesOf(cs[1..])
  }

  /** Whether getEnemiesWithinRange considers an enemy at all: a grade-3 glue
      turret skips enemies that have already been teleported (`skipTeleported`),
      and only living enemies that are short of the last one and a half cells
      and not in the middle of a teleport remain. */
  predicate Eligible(e: Enemy, skipTeleported: bool, pathLength: int)
    reads e
  {
    !(skipTeleported && e.hasBeenTeleported) && e.life > 0.0 && e.l < pathLength as real - 1.5 && !e.teleporting
  }

  /** The rounded squared distance from the point (tx, ty) to an enemy. */
  function SquaredDistance(tx: real, ty: real, e: Enemy): real
    reads e
  {
    Fix(SumOfSquares(tx - e.x, ty - e.y))
  }

  /** The candidate an enemy gives a turret at (tx, ty). */
  function Snapshot(e: Enemy, tx: real, ty: real): Candidate
    reads e
  {
    Candidate(e, e.id, e.l, e.life, SquaredDistance(tx, ty, e))
  }

  /** The eligible enemies within the squared range of a turret at (tx, ty),
      in the order of the engine's enemy list. */
  function Candidates(enemies: seq<Enemy>, tx: real, ty: real, squaredRange: real, skipTeleported: bool, pathLength: int): seq<Candidate>
    reads set e | e in enemies
    decreases |enemies|
  {
    if enemies == [] then []
    else
      var last := enemies[|enemies| - 1];
      var rest := Candidates(enemies[..|enemies| - 1], tx, ty, squaredRange, skipTeleported, pathLength);
      if Eligible(last, skipTeleported, pathLength) && squaredRange >= SquaredDistance(tx, ty, last)
      then rest + [Snapshot(last, tx, ty)]
      else rest
  }

  /** A candidate is exactly an eligible enemy of the list within range, as
      seen now. */
  lemma {:induction false} CandidatesExactly(enemies: seq<Enemy>, tx: real, ty: real, squaredRange: real, skipTeleported: bool, pathLength: int)
    ensures forall c :: c in Candidates(enemies, tx, ty, squaredRange, skipTeleported, pathLength) ==>
      && c.enemy in enemies && c == Snapshot(c.enemy, tx, ty)
      && Eligible(c.enemy, skipTeleported, pathLength) && squaredRange >= c.squareDist
    ensures forall e :: e in enemies && Eligible(e, skipTeleported, pathLength) && squaredRange >= SquaredDistance(tx, ty, e) ==>
      Snapshot(e, tx, ty) in Candidates(enemies, tx, ty, squaredRange, skipTeleported, pathLength)
    decreases |enemies|
  {
    if enemies != [] {
      var front := enemies[..|enemies| - 1];
      CandidatesExactly(front, tx, ty, squaredRange, skipTeleported, pathLength);
      assert enemies == front + [enemies[|enemies| - 1]];
    }
  }

  /** Enemies with distinct ids give candidates with distinct ids. */
  lemma {:induction false} CandidatesDistinct(enemies: seq<Enemy>, tx: real, ty: real, squaredRange: real, skipTeleported: bool, pathLength: int)
    requires forall i, j :: 0 <= i < j < |enemies| ==> enemies[i].id != enemies[j].id
    ensures DistinctIds(Candidates(enemies, tx, ty, squaredRange, skipTeleported, pathLength))
    decreases |enemies|
  {
    if enemies != [] {
      var front := enemies[..|enemies| - 1];
      var last := enemies[|enemies| - 1];
      CandidatesDistinct(front, tx, ty, squaredRange, skipTeleported, pathLength);
      CandidatesExactly(front, tx, ty, squaredRange, skipTeleported, pathLength);
      var rest := Candidates(front, tx, ty, squaredRange, skipTeleported, pathLength);
      forall k | 0 <= k < |rest| ensures rest[k].id != last.id {
        assert rest[k] in rest;
        var m :| 0 <= m < |front| && front[m] == rest[k].enemy;
      }
    }
  }
}
