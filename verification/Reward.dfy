/** Emission: packages/shared/src/reward.ts, and the cap check of packages/core/src/state.ts. */
module Reward {
  import opened Prelude

  const TOTAL_SUPPLY := 21_0000_0000 * EDX_UNIT
  const GENESIS_ISSUED := 0
  const PHASE_1_MAX_HEIGHT := 518_400
  const PHASE_2_MAX_HEIGHT := 21_024_000
  const PHASE_1_REWARD := 400 * EDX_UNIT
  const PHASE_3_REWARD := 3 * EDX_UNIT / 2
  const PHASE_2_DIVISOR := 0x20_0000

  function PhaseForHeight(height: int): Result<int> {
    if height < 1 || height > MAX_SAFE_INTEGER then Err("invalid mined block height")
    else if height <= PHASE_1_MAX_HEIGHT then Ok(1)
    else if height <= PHASE_2_MAX_HEIGHT then Ok(2)
    else Ok(3)
  }

  function RewardForBlock(height: int, issued: int): Result<int> {
    if issued < 0 || issued > TOTAL_SUPPLY then Err("invalid issued amount") else
      match PhaseForHeight(height)
      case Err(e) => Err(e)
      case Ok(phase) =>
        if phase == 1 then Ok(PHASE_1_REWARD)
        else if phase == 3 then Ok(PHASE_3_REWARD)
        else
          var rewardEdx := (TOTAL_SUPPLY - issued) / (EDX_UNIT * PHASE_2_DIVISOR);
          Ok((if rewardEdx < 1 then 1 else rewardEdx) * EDX_UNIT)
  }

  lemma RewardIsPositive(height: int, issued: int)
    requires RewardForBlock(height, issued).Ok?
    ensures RewardForBlock(height, issued).value > 0
  {
  }

  /** A block may mint its reward only if the cap still holds afterwards. */
  predicate Mints(height: int, issued: int) {
    RewardForBlock(height, issued).Ok? && issued + RewardForBlock(height, issued).value <= TOTAL_SUPPLY
  }

  /** Issuance after `height` blocks that each mint the reward of their height; None once a block cannot. */
  ghost function IssuedAt(height: nat): (r: Option<int>) {
    if height == 0 then Some(GENESIS_ISSUED) else
      match IssuedAt(height - 1)
      case None => None
      case Some(before) =>
        if Mints(height, before) then Some(before + RewardForBlock(height, before).value) else None
  }

  // ---- the recurrence in whole EDX that are still to be issued ----

  const CAP := 21_0000_0000

  /** What phase two leaves of `remaining` EDX. */
  function Decay(remaining: nat): (r: nat) {
    if remaining == 0 then 0
    else if remaining / PHASE_2_DIVISOR < 1 then remaining - 1
    else remaining - remaining / PHASE_2_DIVISOR
  }

  ghost function Remaining(steps: nat): nat {
    if steps == 0 then CAP - 400 * PHASE_1_MAX_HEIGHT else Decay(Remaining(steps - 1))
  }

  lemma {:induction false} PhaseOne(height: nat)
    requires height <= PHASE_1_MAX_HEIGHT
    ensures IssuedAt(height) == Some(height * PHASE_1_REWARD)
  {
    if height > 0 {
      PhaseOne(height - 1);
    }
  }

  lemma PhaseTwoStep(height: int, remaining: nat)
    requires PHASE_1_MAX_HEIGHT < height <= PHASE_2_MAX_HEIGHT && 0 < remaining <= CAP
    ensures
      var issued := (CAP - remaining) * EDX_UNIT;
      Mints(height, issued) && issued + RewardForBlock(height, issued).value == (CAP - Decay(remaining)) * EDX_UNIT
  {
    assert (remaining * EDX_UNIT) / (EDX_UNIT * PHASE_2_DIVISOR) == remaining / PHASE_2_DIVISOR;
  }

  lemma RemainingAtStart()
    ensures Remaining(0) == CAP - 400 * PHASE_1_MAX_HEIGHT <= 903 * PHASE_2_DIVISOR
  {
  }

  /** While anything remains, phase two issues whole EDX and never overshoots. */
  lemma {:induction false} PhaseTwo(steps: nat)
    requires PHASE_1_MAX_HEIGHT + steps <= PHASE_2_MAX_HEIGHT
    requires steps == 0 || Remaining(steps - 1) > 0
    ensures Remaining(steps) <= CAP
    ensures IssuedAt(PHASE_1_MAX_HEIGHT + steps) == Some((CAP - Remaining(steps)) * EDX_UNIT)
  {
    hide IssuedAt, Remaining, Mints, RewardForBlock, Decay;
    if steps == 0 {
      RemainingAtStart();
      PhaseOne(PHASE_1_MAX_HEIGHT);
    } else {
      RemainingStep(steps);
      PhaseTwo(steps - 1);
      PhaseTwoStep(PHASE_1_MAX_HEIGHT + steps, Remaining(steps - 1));
      IssuedStep(PHASE_1_MAX_HEIGHT + steps);
    }
  }

  lemma RemainingStep(steps: nat)
    requires steps > 0
    ensures Remaining(steps) == Decay(Remaining(steps - 1)) <= Remaining(steps - 1)
    ensures Remaining(steps - 1) > 0 && steps > 1 ==> Remaining(steps - 2) > 0
  {
  }

  lemma IssuedStep(height: nat)
    requires height > 0 && IssuedAt(height - 1).Some? && Mints(height, IssuedAt(height - 1).value)
    ensures
      var before := IssuedAt(height - 1).value;
      IssuedAt(height) == Some(before + RewardForBlock(height, before).value)
  {
  }

  /**
   * One band: while at least `low` EDX leave per block, `n` blocks with n * low >= high - low * 2^21
   * bring the remainder from at most `high` below the band.
   */
  lemma {:induction false} Band(from: nat, n: nat, low: nat, high: nat)
    requires low >= 1 && Remaining(from) <= high
    ensures Remaining(from + n) < low * PHASE_2_DIVISOR || Remaining(from + n) + n * low <= high
  {
    if n > 0 {
      Band(from, n - 1, low, high);
      var r := Remaining(from + n - 1);
      if r >= low * PHASE_2_DIVISOR {
        assert r / PHASE_2_DIVISOR >= low;
        assert n * low == (n - 1) * low + low;
      } else {
        assert Decay(r) <= r;
      }
    }
  }

  /** The end of a band whose length suffices. */
  lemma NextBand(from: nat, n: nat, low: nat, q: nat)
    requires low >= 1 && Remaining(from) <= q * PHASE_2_DIVISOR
    requires n * low >= (q - low) * PHASE_2_DIVISOR
    ensures Remaining(from + n) <= low * PHASE_2_DIVISOR
  {
    Band(from, n, low, q * PHASE_2_DIVISOR);
  }

  /** Seventeen bands bring the remainder from 1,892,640,000 EDX to at most 2^21 EDX. */
  lemma AllBands()
    ensures Remaining(17_762_104) <= PHASE_2_DIVISOR
  {
    hide Remaining;
    RemainingAtStart();
    NextBand(0, 885_098, 635, 903);
    NextBand(885_098, 882_024, 447, 635);
    NextBand(1_767_122, 888_285, 314, 447);
    NextBand(2_655_407, 882_512, 221, 314);
    NextBand(3_537_919, 892_981, 155, 221);
    NextBand(4_430_900, 885_037, 109, 155);
    NextBand(5_315_937, 910_606, 76, 109);
    NextBand(6_226_543, 910_085, 53, 76);
    NextBand(7_136_628, 906_877, 37, 53);
    NextBand(8_043_505, 887_257, 26, 37);
    NextBand(8_930_762, 932_068, 18, 26);
    NextBand(9_862_830, 1_048_576, 12, 18);
    NextBand(10_911_406, 1_048_576, 8, 12);
    NextBand(11_959_982, 1_258_292, 5, 8);
    NextBand(13_218_274, 1_398_102, 3, 5);
    NextBand(14_616_376, 1_048_576, 2, 3);
    NextBand(15_664_952, 2_097_152, 1, 2);
  }

  /** From 2^21 EDX on, one EDX leaves per block. */
  lemma {:induction false} OneByOne(from: nat, n: nat)
    requires n <= Remaining(from) <= PHASE_2_DIVISOR
    ensures Remaining(from + n) == Remaining(from) - n
  {
    if n > 0 {
      OneByOne(from, n - 1);
    }
  }

  lemma {:induction false} RemainingPositiveBefore(steps: nat, k: nat)
    requires Remaining(steps) > 0 && k <= steps
    ensures Remaining(k) > 0
  {
    if k < steps {
      RemainingPositiveBefore(steps - 1, k);
    }
  }

  /** After the step that empties the remainder no block can mint: the next reward would be one EDX. */
  lemma {:induction false} NothingAfter(h: nat, k: nat)
    requires IssuedAt(h) == Some(TOTAL_SUPPLY) && k > h >= PHASE_1_MAX_HEIGHT
    ensures IssuedAt(k) == None
  {
    if k == h + 1 {
      assert !Mints(k, TOTAL_SUPPLY);
    } else {
      NothingAfter(h, k - 1);
    }
  }

  /** `h` is the height at which issuance ends, exactly at the cap and in the middle of phase two. */
  ghost predicate IsFinalHeight(h: nat) {
    && PHASE_1_MAX_HEIGHT < h < PHASE_2_MAX_HEIGHT
    && IssuedAt(h) == Some(TOTAL_SUPPLY)
    && (forall k: nat :: k < h ==>
      && IssuedAt(k).Some?
      && 0 <= IssuedAt(k).value < TOTAL_SUPPLY && IssuedAt(k).value % EDX_UNIT == 0)
    && (forall k: nat :: k > h ==> IssuedAt(k) == None)
  }

  /** The first step at which nothing remains. */
  lemma FirstEmpty() returns (steps: nat)
    ensures 0 < steps <= 19_859_256
    ensures Remaining(steps) == 0 && Remaining(steps - 1) > 0
  {
    hide Remaining;
    AllBands();
    RemainingAtStart();
    steps := 17_762_104;
    var r := Remaining(steps);
    if r > 0 {
      OneByOne(steps, r);
      OneByOne(steps, r - 1);
      steps := steps + r;
    } else {
      while Remaining(steps - 1) == 0
        invariant 0 < steps <= 17_762_104 && Remaining(steps) == 0
        decreases steps
      {
        steps := steps - 1;
      }
    }
  }

  /**
   * Emission stays in whole EDX, never overshoots, and reaches the cap exactly; every later block
   * is refused, so the tail emission of phase three is never paid.
   */
  lemma EmissionLandsOnCap()
    ensures exists h: nat :: IsFinalHeight(h)
  {
    hide IssuedAt, Remaining;
    var steps := FirstEmpty();
    var h := PHASE_1_MAX_HEIGHT + steps;
    PhaseTwo(steps);
    forall k: nat | k < h
      ensures IssuedAt(k).Some? && 0 <= IssuedAt(k).value < TOTAL_SUPPLY && IssuedAt(k).value % EDX_UNIT == 0
    {
      if k <= PHASE_1_MAX_HEIGHT {
        PhaseOne(k);
        assert k * PHASE_1_REWARD == (k * 400) * EDX_UNIT;
      } else {
        RemainingPositiveBefore(steps - 1, k - PHASE_1_MAX_HEIGHT);
        RemainingPositiveBefore(steps - 1, k - PHASE_1_MAX_HEIGHT - 1);
        PhaseTwo(k - PHASE_1_MAX_HEIGHT);
      }
    }
    forall k: nat | k > h ensures IssuedAt(k) == None {
      NothingAfter(h, k);
    }
    assert IsFinalHeight(h);
  }

  /** The height at which issuance ends. */
  ghost function FinalHeight(): (h: nat)
    ensures IsFinalHeight(h)
  {
    EmissionLandsOnCap();
    var h: nat :| IsFinalHeight(h);
    h
  }

  /** There is only one such height. */
  lemma FinalHeightUnique(a: nat, b: nat)
    requires IsFinalHeight(a) && IsFinalHeight(b)
    ensures a == b
  {
  }
}
