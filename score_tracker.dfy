/**
 * The score bookkeeping of the game manager: a `long` score and an `int`
 * multiplier, folded from point-scored and multiplier-changed events.
 * Every such event is answered by a score-changed announcement carrying
 * the new score and multiplier.
 */
module ScoreTracker {
  import opened MachineInt

  const MIN_MULTIPLIER: int := 1
  const MAX_MULTIPLIER: int := 30

  /** The two score fields of the game manager. */
  datatype Tracker = Tracker(score: Int64, multiplier: Int32)

  /** An event the score tracker reacts to. `isIncrement` is the event's `isMultiplier` flag. */
  datatype ScoreEvent = PointScored(point: Int32) | MultiplierChanged(isIncrement: bool)

  /** The payload of a score-changed announcement. */
  datatype ScoreChanged = ScoreChanged(score: Int64, multiplier: Int32)

  predicate InBounds(t: Tracker) {
    MIN_MULTIPLIER <= t.multiplier <= MAX_MULTIPLIER
  }

  function Min(a: int, b: int): (r: int) { if a <= b then a else b }

  function Max(a: int, b: int): (r: int) { if a <= b then b else a }

  /** Unity's integer clamp: below `lo` gives `lo`, above `hi` gives `hi`, otherwise the value itself. */
  function Clamp(v: int, lo: int, hi: int): (r: int)
    ensures lo <= hi ==> lo <= r <= hi
    ensures lo <= v <= hi ==> r == v
    ensures lo <= hi ==> r == Max(lo, Min(v, hi))
  {
    if v < lo then lo else if v > hi then hi else v
  }

  /** The multiplier after one multiplier-changed event: one step up or down, then clamped. */
  function NextMultiplier(m: Int32, isIncrement: bool): (r: Int32)
    ensures MIN_MULTIPLIER <= r <= MAX_MULTIPLIER
    ensures MIN_MULTIPLIER <= m <= MAX_MULTIPLIER ==>
      r == if isIncrement then Min(m + 1, MAX_MULTIPLIER) else Max(m - 1, MIN_MULTIPLIER)
  {
    var stepped := if isIncrement then Wrap32(m + 1) else Wrap32(m - 1);
    Clamp(stepped, MIN_MULTIPLIER, MAX_MULTIPLIER)
  }

  /**
   * The score after `point` is awarded at multiplier `multiplier`. The product
   * is an `int` product and the sum a `long` sum, both unchecked.
   */
  function AddPoints(score: Int64, point: Int32, multiplier: Int32): (r: Int64)
    ensures IsInt32(point * multiplier) && IsInt64(score + point * multiplier) ==>
      r == score + point * multiplier
    ensures (score + Wrap32(point * multiplier) - r) % 0x1_0000_0000_0000_0000 == 0
  {
    Wrap64(score + Wrap32(point * multiplier))
  }

  /** One event folded into the tracker. */
  function Step(t: Tracker, e: ScoreEvent): (r: Tracker)
    ensures e.PointScored? ==> r.multiplier == t.multiplier
    ensures e.MultiplierChanged? ==> r.score == t.score && InBounds(r)
    ensures InBounds(t) ==> InBounds(r)
  {
    match e
    case PointScored(p) => t.(score := AddPoints(t.score, p, t.multiplier))
    case MultiplierChanged(up) => t.(multiplier := NextMultiplier(t.multiplier, up))
  }

  /**
   * A run of events folded in the order they are handled. The multiplier is
   * within bounds afterwards when it was before, or when any multiplier event
   * was handled, whatever the starting value.
   */
  function Run(t: Tracker, es: seq<ScoreEvent>): (r: Tracker)
    ensures InBounds(t) ==> InBounds(r)
    ensures (exists k :: 0 <= k < |es| && es[k].MultiplierChanged?) ==> InBounds(r)
    decreases |es|
  {
    if es == [] then t
    else
      var r := Run(Step(t, es[0]), es[1..]);
      assert forall k :: 1 <= k < |es| ==> es[k] == es[1..][k - 1];
      r
  }

  /**
   * The score-changed announcements a run of events makes: one per event,
   * the i-th carrying the score and multiplier after the first i + 1 events.
   */
  function Announced(t: Tracker, es: seq<ScoreEvent>): (r: seq<ScoreChanged>)
    ensures |r| == |es|
    ensures forall i :: 0 <= i < |es| ==>
      r[i] == ScoreChanged(Run(t, es[..i + 1]).score, Run(t, es[..i + 1]).multiplier)
    ensures es != [] ==> r[|r| - 1] == ScoreChanged(Run(t, es).score, Run(t, es).multiplier)
    decreases |es|
  {
    if es == [] then []
    else
      var next := Step(t, es[0]);
      var r := [ScoreChanged(next.score, next.multiplier)] + Announced(next, es[1..]);
      assert forall i :: 0 <= i < |es| ==>
        r[i] == ScoreChanged(Run(t, es[..i + 1]).score, Run(t, es[..i + 1]).multiplier) by {
        forall i | 0 <= i < |es|
          ensures r[i] == ScoreChanged(Run(t, es[..i + 1]).score, Run(t, es[..i + 1]).multiplier)
        {
          assert es[..i + 1][0] == es[0];
          assert es[..i + 1][1..] == es[1..][..i];
          if i == 0 {
            assert es[1..][..0] == [];
          }
        }
      }
      assert es[..|es|] == es;
      r
  }

  /** `k` copies of the event `e`. */
  function Repeat(e: ScoreEvent, k: nat): (r: seq<ScoreEvent>)
    ensures |r| == k
    ensures forall i :: 0 <= i < k ==> r[i] == e
  {
    if k == 0 then [] else [e] + Repeat(e, k - 1)
  }

  /** Handling two runs one after the other is handling their concatenation. */
  lemma {:induction false} RunAppend(t: Tracker, a: seq<ScoreEvent>, b: seq<ScoreEvent>)
    ensures Run(t, a + b) == Run(Run(t, a), b)
    decreases |a|
  {
    if a == [] {
      assert a + b == b;
    } else {
      assert (a + b)[1..] == a[1..] + b;
      RunAppend(Step(t, a[0]), a[1..], b);
    }
  }

  /** `k` increments raise an in-bounds multiplier by `k`, saturating at 30, and leave the score alone. */
  lemma {:induction false} Increments(t: Tracker, k: nat)
    requires InBounds(t)
    ensures Run(t, Repeat(MultiplierChanged(true), k)) == Tracker(t.score, Min(t.multiplier + k, MAX_MULTIPLIER))
    decreases k
  {
    if k > 0 {
      var es := Repeat(MultiplierChanged(true), k);
      assert es[1..] == Repeat(MultiplierChanged(true), k - 1);
      Increments(Step(t, es[0]), k - 1);
    }
  }

  /** `k` decrements lower an in-bounds multiplier by `k`, saturating at 1, and leave the score alone. */
  lemma {:induction false} Decrements(t: Tracker, k: nat)
    requires InBounds(t)
    ensures Run(t, Repeat(MultiplierChanged(false), k)) == Tracker(t.score, Max(t.multiplier - k, MIN_MULTIPLIER))
    decreases k
  {
    if k > 0 {
      var es := Repeat(MultiplierChanged(false), k);
      assert es[1..] == Repeat(MultiplierChanged(false), k - 1);
      Decrements(Step(t, es[0]), k - 1);
    }
  }

  /** The clamp saturates at both ends, and the announcement is made although the value did not move. */
  lemma SaturationStillAnnounces(score: Int64)
    ensures Run(Tracker(score, 30), [MultiplierChanged(true)]) == Tracker(score, 30)
    ensures Run(Tracker(score, 1), [MultiplierChanged(false)]) == Tracker(score, 1)
    ensures Announced(Tracker(score, 30), [MultiplierChanged(true)]) == [ScoreChanged(score, 30)]
    ensures Announced(Tracker(score, 1), [MultiplierChanged(false)]) == [ScoreChanged(score, 1)]
  {
  }

  /** From multiplier 1, five increments give 6 and ten further decrements give 1, never below. */
  lemma MultiplierScenario(score: Int64)
    ensures Run(Tracker(score, 1), Repeat(MultiplierChanged(true), 5)).multiplier == 6
    ensures Run(Tracker(score, 1), Repeat(MultiplierChanged(true), 5) + Repeat(MultiplierChanged(false), 10))
         == Tracker(score, 1)
  {
    var ups := Repeat(MultiplierChanged(true), 5);
    Increments(Tracker(score, 1), 5);
    RunAppend(Tracker(score, 1), ups, Repeat(MultiplierChanged(false), 10));
    Decrements(Tracker(score, 6), 10);
  }

  /** Score 0 at multiplier 3: ten points give score 30, announced as (30, 3). */
  lemma PointScenario()
    ensures Run(Tracker(0, 3), [PointScored(10)]) == Tracker(30, 3)
    ensures Announced(Tracker(0, 3), [PointScored(10)]) == [ScoreChanged(30, 3)]
  {
  }

  /** A point event uses the multiplier in effect when it is handled, not when it was raised. */
  lemma PointsUseCurrentMultiplier(t: Tracker, p1: Int32, up: bool, p2: Int32)
    requires IsInt32(p1 * t.multiplier) && IsInt64(t.score + p1 * t.multiplier)
    requires var m := NextMultiplier(t.multiplier, up);
      IsInt32(p2 * m) && IsInt64(t.score + p1 * t.multiplier + p2 * m)
    ensures var r := Run(t, [PointScored(p1), MultiplierChanged(up), PointScored(p2)]);
      r.multiplier == NextMultiplier(t.multiplier, up) &&
      r.score == t.score + p1 * t.multiplier + p2 * r.multiplier
  {
    var m := NextMultiplier(t.multiplier, up);
    var t1 := Tracker(t.score + p1 * t.multiplier, t.multiplier);
    var t2 := Tracker(t1.score, m);
    StepPoint(t, p1);
    StepPoint(t2, p2);
    RunOfThree(t, PointScored(p1), MultiplierChanged(up), PointScored(p2));
  }

  lemma RunOfThree(t: Tracker, e1: ScoreEvent, e2: ScoreEvent, e3: ScoreEvent)
    ensures Run(t, [e1, e2, e3]) == Step(Step(Step(t, e1), e2), e3)
  {
    RunCons(t, e1, [e2, e3]);
    RunCons(Step(t, e1), e2, [e3]);
    RunCons(Step(Step(t, e1), e2), e3, []);
    assert [e1] + [e2, e3] == [e1, e2, e3];
    assert [e2] + [e3] == [e2, e3];
    assert [e3] + [] == [e3];
  }

  lemma RunCons(t: Tracker, e: ScoreEvent, es: seq<ScoreEvent>)
    ensures Run(t, [e] + es) == Run(Step(t, e), es)
  {
    assert ([e] + es)[1..] == es;
  }

  /** A point event that overflows nothing adds exactly point times multiplier. */
  lemma StepPoint(t: Tracker, p: Int32)
    requires IsInt32(p * t.multiplier) && IsInt64(t.score + p * t.multiplier)
    ensures Step(t, PointScored(p)) == Tracker(t.score + p * t.multiplier, t.multiplier)
  {
  }

  /** The sum of the points of a run of point events. */
  function PointSum(es: seq<ScoreEvent>): (sum: int)
    requires forall k :: 0 <= k < |es| ==> es[k].PointScored?
  {
    if es == [] then 0 else es[0].point + PointSum(es[1..])
  }

  /**
   * A run of non-negative point events is the multiplier times the points
   * added to the score, when no product and no partial score overflows.
   */
  lemma {:induction false} PointRun(t: Tracker, es: seq<ScoreEvent>)
    requires InBounds(t)
    requires forall k :: 0 <= k < |es| ==> es[k].PointScored? && 0 <= es[k].point
    requires forall k :: 0 <= k < |es| ==> es[k].point * t.multiplier <= INT32_MAX
    requires t.score + t.multiplier * PointSum(es) <= INT64_MAX
    ensures PointSum(es) >= 0
    ensures Run(t, es).multiplier == t.multiplier
    ensures Run(t, es).score == t.score + t.multiplier * PointSum(es)
    decreases |es|
  {
    PointSumNonNegative(es);
    if es != [] {
      var p, rest, m := es[0].point, es[1..], t.multiplier;
      assert forall k :: 0 <= k < |rest| ==> rest[k] == es[k + 1];
      PointSumNonNegative(rest);
      var sum := PointSum(rest);
      assert PointSum(es) == p + sum;
      SplitProduct(m, p, sum);
      var next := Tracker(t.score + p * m, m);
      StepPoint(t, p);
      PointRun(next, rest);
    }
  }

  lemma SplitProduct(m: int, p: int, s: int)
    requires 0 <= m && 0 <= p && 0 <= s
    ensures m * (p + s) == p * m + m * s && 0 <= p * m && 0 <= m * s
  {
  }

  lemma {:induction false} PointSumNonNegative(es: seq<ScoreEvent>)
    requires forall k :: 0 <= k < |es| ==> es[k].PointScored? && 0 <= es[k].point
    ensures PointSum(es) >= 0
    decreases |es|
  {
    if es != [] {
      assert forall k :: 0 <= k < |es[1..]| ==> es[1..][k] == es[k + 1];
      PointSumNonNegative(es[1..]);
    }
  }

  /** Unchecked `int` multiplication: a large award can turn the score negative in one event. */
  lemma ProductWraps()
    ensures Run(Tracker(0, 2), [PointScored(INT32_MAX)]).score == -2
  {
  }
}
