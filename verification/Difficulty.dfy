/** Difficulty, its retarget window, work and targets: packages/core/src/difficulty.ts and pow.ts. */
module Difficulty {
  import opened Prelude
  import opened Positional
  import opened Sums

  const LWMA_WINDOW := 240
  const INITIAL_DIFFICULTY := 1_000_000
  const MINIMUM_DIFFICULTY := 1
  const TARGET_BLOCK_SECONDS := 15
  const MAX_TIMESTAMP_DROP_MULTIPLIER := 6
  const TRIANGULAR_WEIGHT := LWMA_WINDOW * (LWMA_WINDOW + 1) / 2
  const MAX_TARGET := 0xffff_ffff_ffff_ffff_ffff_ffff_ffff_ffff_ffff_ffff_ffff_ffff_ffff_ffff_ffff_ffff

  datatype Summary = Summary(height: int, timestampSeconds: int, difficulty: int)

  /** Division of unbounded integers towards zero. */
  function Quotient(a: int, b: int): int
    requires b > 0
  {
    if a >= 0 then a / b else -(-a / b)
  }

  function BoundedSolveTime(previous: Summary, current: Summary): (t: nat)
    ensures
      var gap := current.timestampSeconds - previous.timestampSeconds;
      && 1 <= t <= 90
      && (gap < 1 ==> t == 1) && (1 <= gap <= 90 ==> t == gap) && (gap > 90 ==> t == 90)
  {
    var solveTime := current.timestampSeconds - previous.timestampSeconds;
    var maximum := TARGET_BLOCK_SECONDS * MAX_TIMESTAMP_DROP_MULTIPLIER;
    if solveTime < 1 then 1 else if solveTime > maximum then maximum else solveTime
  }

  ghost function WeightedSolveTime(w: seq<Summary>): (t: nat)
    ensures |w| > 1 ==> t > 0
  {
    if |w| <= 1 then 0
    else WeightedSolveTime(w[..|w| - 1]) + BoundedSolveTime(w[|w| - 2], w[|w| - 1]) * (|w| - 1)
  }

  /** The difficulties of all blocks of the window but the first. */
  ghost function DifficultySum(w: seq<Summary>): int {
    if |w| <= 1 then 0 else DifficultySum(w[..|w| - 1]) + w[|w| - 1].difficulty
  }

  ghost predicate Increasing(w: seq<Summary>) {
    forall k :: 0 < k < |w| ==> w[k - 1].timestampSeconds < w[k].timestampSeconds
  }

  function Clamp(next: int, previous: int): int {
    var third := Quotient(previous, 3);
    var upper := previous * 3;
    var lower := if third < MINIMUM_DIFFICULTY then MINIMUM_DIFFICULTY else third;
    var capped := if next > upper then upper else next;
    var raised := if capped < lower then lower else capped;
    if raised < MINIMUM_DIFFICULTY then MINIMUM_DIFFICULTY else raised
  }

  function LastWindow<T>(s: seq<T>, n: nat): (w: seq<T>)
    ensures |w| == if |s| < n then |s| else n
  {
    if |s| < n then s else s[|s| - n..]
  }

  /** The difficulty a block on top of `recent` must have; None where the source throws. */
  ghost function Next(recent: seq<Summary>): Option<int> {
    if |recent| == 0 then Some(INITIAL_DIFFICULTY)
    else if |recent| < LWMA_WINDOW then Some(recent[|recent| - 1].difficulty)
    else
      var w := LastWindow(recent, LWMA_WINDOW);
      if !Increasing(w) then None
      else Some(Clamp(Raw(w), w[|w| - 1].difficulty))
  }

  /** Only the last 240 summaries matter. */
  lemma NextReadsWindow(recent: seq<Summary>)
    ensures Next(LastWindow(recent, LWMA_WINDOW)) == Next(recent)
  {
    hide Increasing, Raw, Clamp;
    var w := LastWindow(recent, LWMA_WINDOW);
    assert LastWindow(w, LWMA_WINDOW) == w;
  }

  ghost function Raw(w: seq<Summary>): int
    requires |w| > 1
  {
    Quotient(DifficultySum(w) * TARGET_BLOCK_SECONDS * TRIANGULAR_WEIGHT, WeightedSolveTime(w))
  }

  lemma WindowStart(w: seq<Summary>)
    requires |w| > 0
    ensures Increasing(w[..1]) && WeightedSolveTime(w[..1]) == 0 && DifficultySum(w[..1]) == 0
  {
  }

  /** One more block of the window. */
  lemma WindowStep(w: seq<Summary>, i: nat)
    requires 0 < i < |w|
    ensures Increasing(w[..i + 1]) <==> Increasing(w[..i]) && w[i - 1].timestampSeconds < w[i].timestampSeconds
    ensures Increasing(w) ==> Increasing(w[..i + 1])
    ensures WeightedSolveTime(w[..i + 1]) == WeightedSolveTime(w[..i]) + BoundedSolveTime(w[i - 1], w[i]) * i
    ensures DifficultySum(w[..i + 1]) == DifficultySum(w[..i]) + w[i].difficulty
  {
    var v := w[..i + 1];
    assert v[..i] == w[..i] && v[i] == w[i] && v[i - 1] == w[i - 1];
    assert Increasing(v) ==> w[i - 1].timestampSeconds < w[i].timestampSeconds;
    forall k | Increasing(v) && 0 < k < i ensures w[k - 1].timestampSeconds < w[k].timestampSeconds {
      assert v[k - 1].timestampSeconds < v[k].timestampSeconds;
    }
  }

  method NextLwmaDifficulty(recent: seq<Summary>) returns (r: Result<int>)
    ensures r.Ok? <==> Next(recent).Some?
    ensures r.Ok? ==> r.value == Next(recent).value
  {
    if |recent| == 0 {
      return Ok(INITIAL_DIFFICULTY);
    }
    if |recent| < LWMA_WINDOW {
      return Ok(recent[|recent| - 1].difficulty);
    }
    hide WeightedSolveTime, DifficultySum, Increasing, BoundedSolveTime;
    var window := recent[|recent| - LWMA_WINDOW..];
    WindowStart(window);
    var weightedSolveTime: nat := 0;
    var difficultySum := 0;
    for index := 1 to |window|
      invariant weightedSolveTime > 0 || index == 1
      invariant Increasing(window[..index])
      invariant weightedSolveTime == WeightedSolveTime(window[..index])
      invariant difficultySum == DifficultySum(window[..index])
    {
      var previous, current := window[index - 1], window[index];
      WindowStep(window, index);
      if current.timestampSeconds <= previous.timestampSeconds {
        return Err("block timestamps must increase");
      }
      weightedSolveTime := weightedSolveTime + BoundedSolveTime(previous, current) * index;
      difficultySum := difficultySum + current.difficulty;
    }
    assert window[..|window|] == window;
    var next := Quotient(difficultySum * TARGET_BLOCK_SECONDS * TRIANGULAR_WEIGHT, weightedSolveTime);
    r := Ok(Clamp(next, window[|window| - 1].difficulty));
  }

  /** A retarget never leaves [max(1, d/3), 3d], d being the parent's difficulty. */
  lemma NextStaysInRange(recent: seq<Summary>)
    requires |recent| > 0 && recent[|recent| - 1].difficulty >= 1 && Next(recent).Some?
    ensures
      var d := recent[|recent| - 1].difficulty;
      d / 3 <= Next(recent).value <= 3 * d && Next(recent).value >= 1
  {
  }

  lemma QuotientAntitone(a: nat, small: nat, large: nat)
    requires 0 < small <= large
    ensures a / large <= a / small
  {
    Euclid(a, large);
    MulMonotone(small, large, a / large);
    QuotientAtLeast(a, a / large, small);
  }

  /** Window `b` has the difficulties of `a`, and every one of its blocks took at least as long. */
  ghost predicate Slower(a: seq<Summary>, b: seq<Summary>) {
    && |a| == |b|
    && (forall k :: 0 <= k < |a| ==> a[k].difficulty == b[k].difficulty)
    && (forall k :: 0 < k < |a| ==>
      a[k].timestampSeconds - a[k - 1].timestampSeconds <= b[k].timestampSeconds - b[k - 1].timestampSeconds)
  }

  lemma {:induction false} SlowerSums(a: seq<Summary>, b: seq<Summary>)
    requires Slower(a, b)
    ensures DifficultySum(a) == DifficultySum(b) && WeightedSolveTime(a) <= WeightedSolveTime(b)
  {
    var n := |a|;
    if n > 1 {
      SlowerSums(a[..n - 1], b[..n - 1]);
      MulMonotone(BoundedSolveTime(a[n - 2], a[n - 1]), BoundedSolveTime(b[n - 2], b[n - 1]), n - 1);
    }
  }

  lemma {:induction false} DifficultySumNonNegative(w: seq<Summary>)
    requires forall k :: 0 <= k < |w| ==> w[k].difficulty >= 0
    ensures DifficultySum(w) >= 0
  {
    if |w| > 1 {
      DifficultySumNonNegative(w[..|w| - 1]);
    }
  }

  lemma SlowerRaw(v: seq<Summary>, w: seq<Summary>)
    requires |v| > 1 && Slower(v, w) && forall k :: 0 <= k < |v| ==> v[k].difficulty >= 0
    ensures Raw(w) <= Raw(v)
  {
    hide WeightedSolveTime, DifficultySum;
    SlowerSums(v, w);
    DifficultySumNonNegative(v);
    QuotientAntitone(
      DifficultySum(v) * TARGET_BLOCK_SECONDS * TRIANGULAR_WEIGHT, WeightedSolveTime(v), WeightedSolveTime(w));
  }

  /** Pointwise longer solve times with equal difficulties never raise the next difficulty. */
  lemma SlowerNeverHarder(a: seq<Summary>, b: seq<Summary>)
    requires Slower(a, b) && Next(a).Some? && Next(b).Some?
    requires forall k :: 0 <= k < |a| ==> a[k].difficulty >= 1
    ensures Next(b).value <= Next(a).value
  {
    hide Raw, Clamp, Increasing;
    if |a| >= LWMA_WINDOW {
      var v, w := LastWindow(a, LWMA_WINDOW), LastWindow(b, LWMA_WINDOW);
      SlowerRaw(v, w);
      ClampMonotone(Raw(w), Raw(v), v[LWMA_WINDOW - 1].difficulty);
    }
  }

  lemma ClampMonotone(x: int, y: int, previous: int)
    requires x <= y && previous >= 1
    ensures Clamp(x, previous) <= Clamp(y, previous)
  {
  }

  lemma {:induction false} WeightedBound(w: seq<Summary>)
    requires |w| > 0
    ensures WeightedSolveTime(w) <= 45 * (|w| * (|w| - 1))
  {
    var n := |w|;
    if n > 1 {
      WeightedBound(w[..n - 1]);
      var last := BoundedSolveTime(w[n - 2], w[n - 1]);
      assert WeightedSolveTime(w) == WeightedSolveTime(w[..n - 1]) + last * (n - 1);
      hide WeightedSolveTime, BoundedSolveTime;
      LastWeight(last, n);
    }
  }

  lemma LastWeight(last: nat, n: nat)
    requires last <= 90 && n > 1
    ensures 45 * ((n - 1) * (n - 2)) + last * (n - 1) <= 45 * (n * (n - 1))
  {
    MulMonotone(last, 90, n - 1);
  }

  lemma {:induction false} EqualSum(w: seq<Summary>, d: int)
    requires |w| > 0 && forall k :: 0 <= k < |w| ==> w[k].difficulty == d
    ensures DifficultySum(w) == (|w| - 1) * d
  {
    if |w| > 1 {
      EqualSum(w[..|w| - 1], d);
      assert (|w| - 1) * d == (|w| - 2) * d + d;
    }
  }

  /**
   * The window sum is not divided by the window length: a window of equal difficulties triples,
   * whatever its timestamps are. In particular the rule has no fixed point at the target time.
   */
  lemma EqualWindowTriples(recent: seq<Summary>, d: int)
    requires |recent| >= LWMA_WINDOW && d >= 1
    requires forall k :: 0 <= k < |recent| ==> recent[k].difficulty == d
    requires Next(recent).Some?
    ensures Next(recent).value == 3 * d
  {
    hide WeightedSolveTime, DifficultySum, Clamp, Quotient, Increasing;
    var w := LastWindow(recent, LWMA_WINDOW);
    WeightedBound(w);
    EqualSum(w, d);
    var t := WeightedSolveTime(w);
    var numerator := DifficultySum(w) * TARGET_BLOCK_SECONDS * TRIANGULAR_WEIGHT;
    assert t <= 2_581_200;
    assert numerator == 103_678_200 * d;
    MulMonotone(t, 2_581_200, 3 * d);
    TripleOfDifficulty(numerator, t, d);
  }

  lemma TripleOfDifficulty(numerator: nat, t: nat, d: nat)
    requires 0 < t && t * (3 * d) <= numerator && d >= 1
    ensures Clamp(Quotient(numerator, t), d) == 3 * d
  {
    QuotientAtLeast(numerator, 3 * d, t);
  }

  // ---- the rule in numbers ----

  /** What the gap before position `k` contributes: its seconds between 1 and 90, times the position. */
  function WeightedGap(w: seq<Summary>, k: nat): int
    requires 0 < k < |w|
  {
    var gap := w[k].timestampSeconds - w[k - 1].timestampSeconds;
    k * (if gap < 1 then 1 else if gap > 90 then 90 else gap)
  }

  function WeightedGaps(w: seq<Summary>): seq<int>
    requires |w| > 0
  {
    seq(|w| - 1, k requires 0 <= k < |w| - 1 => WeightedGap(w, k + 1))
  }

  function LaterDifficulties(w: seq<Summary>): seq<int>
    requires |w| > 0
  {
    seq(|w| - 1, k requires 0 <= k < |w| - 1 => w[k + 1].difficulty)
  }

  lemma {:induction false} TimeOfWindow(w: seq<Summary>)
    requires |w| > 0
    ensures WeightedSolveTime(w) == Total(WeightedGaps(w))
  {
    hide Total;
    if |w| > 1 {
      var init, n := w[..|w| - 1], |w| - 1;
      TimeOfWindow(init);
      LastGap(w);
      TotalSnoc(WeightedGaps(init), WeightedGap(w, n));
    } else {
      assert WeightedGaps(w) == [];
      NoTotal();
    }
  }

  lemma LastGap(w: seq<Summary>)
    requires |w| > 1
    ensures WeightedGaps(w) == WeightedGaps(w[..|w| - 1]) + [WeightedGap(w, |w| - 1)]
    ensures BoundedSolveTime(w[|w| - 2], w[|w| - 1]) * (|w| - 1) == WeightedGap(w, |w| - 1)
  {
    var init := w[..|w| - 1];
    forall k | 0 < k < |init| ensures WeightedGap(w, k) == WeightedGap(init, k) {
      assert w[k] == init[k] && w[k - 1] == init[k - 1];
    }
    hide WeightedGap;
    assert forall k :: 0 <= k < |init| - 1 ==> WeightedGaps(w)[k] == WeightedGaps(init)[k];
  }

  lemma {:induction false} DifficultiesOfWindow(w: seq<Summary>)
    requires |w| > 0
    ensures DifficultySum(w) == Total(LaterDifficulties(w))
  {
    hide Total;
    if |w| > 1 {
      var init, last := w[..|w| - 1], w[|w| - 1].difficulty;
      DifficultiesOfWindow(init);
      assert LaterDifficulties(w) == LaterDifficulties(init) + [last];
      TotalSnoc(LaterDifficulties(init), last);
    } else {
      assert LaterDifficulties(w) == [];
      NoTotal();
    }
  }

  /** The next difficulty from a full window, with its constants as numbers. */
  function RetargetValue(w: seq<Summary>): int
    requires |w| > 0
  {
    var previous, time := w[|w| - 1].difficulty, Total(WeightedGaps(w));
    var quotient := if time > 0 then Total(LaterDifficulties(w)) * 433_800 / time else 0;
    var capped := if quotient > 3 * previous then 3 * previous else quotient;
    if capped >= previous / 3 && capped >= 1 then capped else if previous / 3 >= 1 then previous / 3 else 1
  }

  lemma ClampInNumbers(sum: nat, time: nat, previous: int)
    requires time > 0 && previous >= 1
    ensures
      var quotient := sum * 433_800 / time;
      var capped := if quotient > 3 * previous then 3 * previous else quotient;
      Clamp(Quotient(sum * TARGET_BLOCK_SECONDS * TRIANGULAR_WEIGHT, time), previous)
      == if capped >= previous / 3 && capped >= 1 then capped else if previous / 3 >= 1 then previous / 3 else 1
  {
    assert sum * TARGET_BLOCK_SECONDS * TRIANGULAR_WEIGHT == sum * 433_800;
  }

  lemma RetargetInNumbers(w: seq<Summary>)
    requires |w| > 1 && forall k :: 0 <= k < |w| ==> w[k].difficulty >= 1
    ensures Clamp(Raw(w), w[|w| - 1].difficulty) == RetargetValue(w)
  {
    hide Total, WeightedSolveTime, DifficultySum, WeightedGaps, LaterDifficulties, Clamp, Quotient;
    DifficultySumNonNegative(w);
    TimeOfWindow(w);
    DifficultiesOfWindow(w);
    WindowHasTime(w);
    ClampInNumbers(DifficultySum(w), WeightedSolveTime(w), w[|w| - 1].difficulty);
  }

  /** Below 240 blocks the difficulty repeats; from there on it is the value above, if all timestamps increase. */
  lemma NextInNumbers(recent: seq<Summary>)
    requires forall k :: 0 <= k < |recent| ==> recent[k].difficulty >= 1
    ensures |recent| == 0 ==> Next(recent) == Some(1_000_000)
    ensures 0 < |recent| < 240 ==> Next(recent) == Some(recent[|recent| - 1].difficulty)
    ensures |recent| >= 240 ==>
      var w := recent[|recent| - 240..];
      Next(recent) == if forall k :: 0 < k < 240 ==> w[k - 1].timestampSeconds < w[k].timestampSeconds
        then Some(RetargetValue(w)) else None
  {
    hide RetargetValue, Raw, Clamp;
    if |recent| >= 240 {
      RetargetInNumbers(recent[|recent| - 240..]);
    }
  }

  lemma WindowHasTime(w: seq<Summary>)
    requires |w| > 1
    ensures WeightedSolveTime(w) > 0
  {
  }

  lemma {:induction false} EvenWindow(w: seq<Summary>, s: nat)
    requires |w| > 0 && 1 <= s <= 90
    requires forall k :: 0 < k < |w| ==> w[k].timestampSeconds - w[k - 1].timestampSeconds == s
    ensures 2 * WeightedSolveTime(w) == s * (|w| * (|w| - 1))
  {
    hide WeightedSolveTime;
    if |w| > 1 {
      EvenWindow(w[..|w| - 1], s);
      LastGapIs(w, s);
      EvenStep(s, |w|);
    } else {
      OneHasNoGap(w);
    }
  }

  lemma OneHasNoGap(w: seq<Summary>)
    requires |w| == 1
    ensures WeightedSolveTime(w) == 0
  {
  }

  lemma EvenStep(s: nat, n: nat)
    requires n > 1
    ensures 2 * (s * (n - 1)) == s * (n * (n - 1)) - s * ((n - 1) * (n - 2))
  {
    assert n * (n - 1) - (n - 1) * (n - 2) == 2 * (n - 1);
    assert s * (n * (n - 1)) - s * ((n - 1) * (n - 2)) == s * (n * (n - 1) - (n - 1) * (n - 2));
  }

  lemma EvenTime(w: seq<Summary>, s: nat)
    requires |w| == 240 && 1 <= s <= 90
    requires forall k :: 0 < k < 240 ==> w[k].timestampSeconds - w[k - 1].timestampSeconds == s
    ensures Total(WeightedGaps(w)) == 28_680 * s > 0
  {
    hide WeightedSolveTime, Total, WeightedGaps;
    EvenWindow(w, s);
    TimeOfWindow(w);
  }

  lemma LaterOfLast(recent: seq<Summary>)
    requires |recent| >= 240
    ensures LaterDifficulties(recent[|recent| - 240..])
      == seq(239, k requires 0 <= k < 239 => recent[|recent| - 239 + k].difficulty)
  {
  }

  /** A full window of blocks `s` seconds apart: the sum of the difficulties times 433,800 over 28,680 `s`, capped. */
  lemma EvenWindowRetarget(recent: seq<Summary>, s: nat)
    requires |recent| >= 240 && 1 <= s <= 90 && forall k :: 0 <= k < |recent| ==> recent[k].difficulty >= 1
    requires forall k :: |recent| - 240 < k < |recent| ==>
      recent[k].timestampSeconds - recent[k - 1].timestampSeconds == s
    ensures
      var previous := recent[|recent| - 1].difficulty;
      var sum := Total(seq(239, k requires 0 <= k < 239 => recent[|recent| - 239 + k].difficulty));
      var quotient := sum * 433_800 / (28_680 * s);
      var capped := if quotient > 3 * previous then 3 * previous else quotient;
      Next(recent) == Some(
        if capped >= previous / 3 && capped >= 1 then capped else if previous / 3 >= 1 then previous / 3 else 1)
  {
    hide Total, Next, WeightedGaps, LaterDifficulties;
    EvenTime(recent[|recent| - 240..], s);
    NextInNumbers(recent);
    LaterOfLast(recent);
  }

  lemma LastGapIs(w: seq<Summary>, t: nat)
    requires |w| > 1 && 1 <= t <= 90 && w[|w| - 1].timestampSeconds - w[|w| - 2].timestampSeconds == t
    ensures WeightedSolveTime(w) == WeightedSolveTime(w[..|w| - 1]) + t * (|w| - 1)
  {
  }

  lemma OtherGapStep(before: nat, s: nat, u: nat, n: nat)
    requires n > 1 && 2 * before == s * ((n - 1) * (n - 2))
    ensures 2 * (before + u * (n - 1)) == s * (n * (n - 1)) + 2 * ((n - 1) * (u - s))
  {
    EvenStep(s, n);
    assert u * (n - 1) == s * (n - 1) + (n - 1) * (u - s);
  }

  /** One gap of `u` seconds among gaps of `s` counts with its position in the window. */
  lemma {:induction false} OneOtherGap(w: seq<Summary>, s: nat, u: nat, at: nat)
    requires 0 < at < |w| && 1 <= s <= 90 && 1 <= u <= 90
    requires forall k :: 0 < k < |w| ==>
      w[k].timestampSeconds - w[k - 1].timestampSeconds == if k == at then u else s
    ensures 2 * WeightedSolveTime(w) == s * (|w| * (|w| - 1)) + 2 * (at * (u - s))
  {
    hide WeightedSolveTime;
    var n, init := |w|, w[..|w| - 1];
    LastGapIs(w, if at == n - 1 then u else s);
    if at == n - 1 {
      EvenWindow(init, s);
      OtherGapStep(WeightedSolveTime(init), s, u, n);
    } else {
      OneOtherGap(init, s, u, at);
      EvenStep(s, n);
    }
  }

  // ---- work ----

  function TargetForDifficulty(difficulty: int): (r: Result<int>) {
    if difficulty < 1 then Err("difficulty must be positive")
    else
      var target := MAX_TARGET / difficulty;
      Ok(if target > MAX_TARGET then MAX_TARGET else target)
  }

  function WorkForDifficulty(difficulty: int): (r: Result<int>) {
    if difficulty < 1 then Err("difficulty must be positive") else Ok(MAX_TARGET / difficulty + 1)
  }

  /** The target is the greatest number whose product with the difficulty is below 2^256, and the work is one more. */
  lemma TargetIsQuotient(difficulty: int)
    requires difficulty >= 1
    ensures TargetForDifficulty(difficulty).Ok? && WorkForDifficulty(difficulty).Ok?
    ensures
      var target := TargetForDifficulty(difficulty).value;
      && 0 <= target && target * difficulty <= MAX_TARGET < (target + 1) * difficulty
      && WorkForDifficulty(difficulty).value == target + 1
  {
    Euclid(MAX_TARGET, difficulty);
    QuotientAntitone(MAX_TARGET, 1, difficulty);
  }

  /** Work is positive; a higher difficulty never counts as more work, and narrows the target. */
  lemma WorkFalls(low: int, high: int)
    requires 1 <= low <= high
    ensures 1 <= WorkForDifficulty(high).value <= WorkForDifficulty(low).value
    ensures 0 <= TargetForDifficulty(high).value <= TargetForDifficulty(low).value <= MAX_TARGET
  {
    QuotientAntitone(MAX_TARGET, low, high);
    QuotientAntitone(MAX_TARGET, 1, low);
  }
}
