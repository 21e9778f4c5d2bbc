/** The schedule a new wave adds: its template repeated a number of times, each
    copy starting two ticks after the previous one ends, then turned from
    relative ticks into absolute engine ticks. */
module Waves {
  import opened MathUtils
  import opened GameTypes

  /** The entries with every tick moved by `d`. */
  function Shift(entries: seq<WaveEntry>, d: int): (r: seq<WaveEntry>)
    ensures |r| == |entries|
    ensures forall i {:trigger r[i]} :: 0 <= i < |entries| ==> r[i] == WaveEntry(entries[i].enemyType, entries[i].t + d)
  {
    if entries == [] then [] else [WaveEntry(entries[0].enemyType, entries[0].t + d)] + Shift(entries[1..], d)
  }

  /** How many extra copies a wave gets: floor(round / L) times the template's
      `extend`, capped at its `maxExtend` (a negative value means none). */
  function ExtraWaves(round: nat, templates: nat, w: WaveAttributes): int
    requires templates > 0
  {
    Min(IntMul(round / templates, w.extend), w.maxExtend)
  }

  /** The period of the repetition: the template's last tick plus 2. */
  function Period(template: seq<WaveEntry>): int
    requires |template| > 0
  {
    template[|template| - 1].t + 2
  }

  /** How far copy `j` is shifted: j periods, added up one copy at a time. */
  function Offset(template: seq<WaveEntry>, j: nat): int
    requires |template| > 0
  {
    if j == 0 then 0 else Offset(template, j - 1) + Period(template)
  }

  lemma {:induction false} OffsetIsProduct(template: seq<WaveEntry>, j: nat)
    requires |template| > 0
    ensures Offset(template, j) == j * Period(template)
  {
    if j > 0 {
      OffsetIsProduct(template, j - 1);
      assert (j - 1) * Period(template) + Period(template) == j * Period(template);
    }
  }

  /** Copy `j` of the template: the template shifted by j periods. */
  function Copy(template: seq<WaveEntry>, j: nat): seq<WaveEntry>
    requires |template| > 0
  {
    Shift(template, Offset(template, j))
  }

  /** Copies 0 to k of the template, one after the other. */
  function Copies(template: seq<WaveEntry>, k: nat): seq<WaveEntry>
    requires |template| > 0
  {
    if k == 0 then Copy(template, 0) else Copies(template, k - 1) + Copy(template, k)
  }

  /** Copies 0 to k hold k + 1 templates' worth of entries. */
  lemma {:induction false} CopiesLength(template: seq<WaveEntry>, k: nat)
    requires |template| > 0
    ensures |Copies(template, k)| == |template| * (k + 1)
  {
    if k > 0 {
      CopiesLength(template, k - 1);
      assert |template| * k + |template| == |template| * (k + 1);
    }
  }

  /** The last entry of copies 0 to k is the template's last entry shifted by
      k periods. */
  lemma CopiesLast(template: seq<WaveEntry>, k: nat)
    requires |template| > 0
    ensures var c := Copies(template, k); |c| > 0 && c[|c| - 1].t == template[|template| - 1].t + Offset(template, k)
  {
    var c := Copy(template, k);
    assert |c| == |template| && c[|c| - 1].t == template[|template| - 1].t + Offset(template, k);
    if k > 0 {
      assert Copies(template, k) == Copies(template, k - 1) + c;
    }
  }

  /** The step of newWave's copy loop: appending the template shifted past
      the last tick so far plus 2 adds exactly the next copy. */
  lemma CopiesNext(template: seq<WaveEntry>, k: nat)
    requires |template| > 0
    ensures var c := Copies(template, k); |c| > 0 && Copies(template, k + 1) == c + Shift(template, c[|c| - 1].t + 2)
  {
    CopiesLast(template, k);
  }

  /** The entries with their relative ticks turned into absolute ones:
      t * delta + now + 1. */
  function Absolute(entries: seq<WaveEntry>, delta: int, now: int): (r: seq<WaveEntry>)
    ensures |r| == |entries|
    ensures forall i {:trigger r[i]} :: 0 <= i < |entries| ==> r[i] == WaveEntry(entries[i].enemyType, IntMul(entries[i].t, delta) + now + 1)
  {
    if entries == [] then [] else [WaveEntry(entries[0].enemyType, IntMul(entries[0].t, delta) + now + 1)] + Absolute(entries[1..], delta, now)
  }

  /** Levels whose waves can be launched: at least one template, and no
      empty template. */
  predicate Playable(waves: seq<WaveAttributes>)
  {
    |waves| > 0 && forall w :: w in waves ==> |w.enemies| > 0
  }

  /** The wave templates of a playable level. */
  type Templates = w: seq<WaveAttributes> | Playable(w) witness [WaveAttributes(0, 0, 0, [WaveEntry(Soldier, 0)])]

  /** The entries a wave launched in round `round` at tick `now` adds to the
      schedule, before merging. */
  function NewWaveEntries(waves: seq<WaveAttributes>, round: nat, delta: int, now: int): seq<WaveEntry>
    requires Playable(waves)
  {
    var w := waves[round % |waves|];
    Absolute(Copies(w.enemies, Max(0, ExtraWaves(round, |waves|, w))), delta, now)
  }

  /** A wave launched in round `round` adds len * (1 + extra) entries, where
      len is the length of its template and extra the number of extra copies. */
  lemma NewWaveEntriesLength(waves: seq<WaveAttributes>, round: nat, delta: int, now: int)
    requires Playable(waves)
    ensures var w := waves[round % |waves|];
      |NewWaveEntries(waves, round, delta, now)| == |w.enemies| * (1 + Max(0, ExtraWaves(round, |waves|, w)))
  {
    var w := waves[round % |waves|];
    assert w in waves;
    CopiesLength(w.enemies, Max(0, ExtraWaves(round, |waves|, w)));
  }

  /** The total life of the enemies of a schedule, summed front to back. */
  function TotalHealth(entries: seq<WaveEntry>, enemyData: EnemyType -> EnemyAttributes): real
  {
    if entries == [] then 0.0
    else TotalHealth(entries[..|entries| - 1], enemyData) + enemyData(entries[|entries| - 1].enemyType).life
  }

  /** The total reward of the enemies of a schedule under a reward modifier,
      each enemy's value scaled and rounded on its own. */
  function TotalReward(entries: seq<WaveEntry>, enemyData: EnemyType -> EnemyAttributes, modifier: real): int
  {
    if entries == [] then 0
    else
      var last := entries[|entries| - 1];
      TotalReward(entries[..|entries| - 1], enemyData, modifier) + Round(Mul(modifier, enemyData(last.enemyType).value as real))
  }

  /** The schedule after newWave: the old schedule and the new entries merged
      by tick hold exactly the entries of both and are sorted by tick. */
  lemma MergedSchedule(schedule: seq<WaveEntry>, added: seq<WaveEntry>)
    ensures multiset(MergeSort(schedule + added, Tick)) == multiset(schedule) + multiset(added)
    ensures SortedBy(MergeSort(schedule + added, Tick), Tick)
  {
    MergeSortPermutation(schedule + added, Tick);
    MergeSortSorted(schedule + added, Tick);
  }
}
