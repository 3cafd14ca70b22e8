/**
 * How fast the difficulty grows, and where that ends: the retarget (packages/core/src/difficulty.ts) does not divide
 * its window sum by the window length, and the header has 128 bits for the difficulty (packages/core/src/encoding.ts).
 */
module Growth {
  import opened Prelude
  import opened Positional
  import opened Types
  import opened HeaderCodec
  import opened Difficulty
  import opened State
  import opened History
  import opened Conservation
  import opened Paths
  import Reward

  /** So many blocks in a row suffice for the next one to have twice their least difficulty. */
  const RUN := 12

  /** No consensus path has more blocks. */
  const LONGEST_PATH := 1536

  lemma {:induction false} SumOfLast(w: seq<Summary>, m: nat, x: nat)
    requires m < |w| && forall k :: 0 <= k < |w| ==> w[k].difficulty >= 0
    requires forall k :: |w| - m <= k < |w| ==> w[k].difficulty >= x
    ensures DifficultySum(w) >= m * x
    decreases m
  {
    if m == 0 {
      DifficultySumNonNegative(w);
    } else {
      var init := w[..|w| - 1];
      SumOfLast(init, m - 1, x);
      assert m * x == (m - 1) * x + x;
    }
  }

  lemma RaisedQuotient(sum: nat, t: nat, x: nat)
    requires sum >= RUN * x && 0 < t <= 2_581_200
    ensures Quotient(sum * TARGET_BLOCK_SECONDS * TRIANGULAR_WEIGHT, t) >= 2 * x
  {
    var numerator := sum * TARGET_BLOCK_SECONDS * TRIANGULAR_WEIGHT;
    assert numerator == 433_800 * sum;
    MulMonotone(t, 2_581_200, 2 * x);
    QuotientAtLeast(numerator, 2 * x, t);
  }

  lemma ClampAtLeast(next: int, previous: int, x: nat)
    requires next >= 2 * x && previous >= x >= 1
    ensures Clamp(next, previous) >= 2 * x
  {
  }

  /** Whatever the timestamps are, twelve blocks of at least a difficulty make the next one at least twice as hard. */
  lemma RetargetDoubles(recent: seq<Summary>, x: nat)
    requires |recent| >= LWMA_WINDOW && x >= 1 && Next(recent).Some?
    requires forall k :: 0 <= k < |recent| ==> recent[k].difficulty >= 0
    requires forall k :: |recent| - RUN <= k < |recent| ==> recent[k].difficulty >= x
    ensures Next(recent).value >= 2 * x
  {
    hide WeightedSolveTime, DifficultySum, Clamp, Quotient, Increasing;
    var w := LastWindow(recent, LWMA_WINDOW);
    WeightedBound(w);
    SumOfLast(w, RUN, x);
    RaisedQuotient(DifficultySum(w), WeightedSolveTime(w), x);
    ClampAtLeast(Raw(w), w[|w| - 1].difficulty, x);
  }

  /** The difficulty that twelve blocks more multiply by two. */
  function Floor(k: nat): nat {
    Power(2, k) * INITIAL_DIFFICULTY
  }

  lemma FloorStep(k: nat)
    ensures Floor(k) >= 1 && Floor(k + 1) == 2 * Floor(k)
  {
    PowerPositive(k);
  }

  lemma {:induction false} PowerPositive(k: nat)
    ensures Power(2, k) >= 1
  {
    if k > 0 {
      PowerPositive(k - 1);
    }
  }

  /** From height 240 on, the least difficulty doubles every twelve blocks on every accepted path. */
  lemma {:induction false} DifficultyDoubles(env: Env, path: seq<Block>, k: nat, i: nat)
    requires ValidPath(env, path) && LWMA_WINDOW - RUN + RUN * k <= i < |path|
    ensures path[i].header.difficulty >= Floor(k)
    decreases i
  {
    hide ValidPath, LinkOk, Next, Floor;
    if i < LWMA_WINDOW {
      InitialDifficulty(env, path, i);
      FirstFloor();
    } else {
      var x := if k == 0 then Floor(0) else Floor(k - 1);
      forall j | i - RUN <= j < i ensures path[j].header.difficulty >= x {
        DifficultyDoubles(env, path, if k == 0 then 0 else k - 1, j);
      }
      FloorStep(if k == 0 then 0 else k - 1);
      ParentsDouble(env, path, i, x);
    }
  }

  lemma FirstFloor()
    ensures Floor(0) == INITIAL_DIFFICULTY
  {
  }

  lemma ParentsDouble(env: Env, path: seq<Block>, i: nat, x: nat)
    requires ValidPath(env, path) && LWMA_WINDOW <= i < |path| && x >= 1
    requires forall j :: i - RUN <= j < i ==> path[j].header.difficulty >= x
    ensures path[i].header.difficulty >= 2 * x
  {
    hide ValidPath, NextDifficulty, SeedOk, MedianTime, Next;
    LinkAt(env, path, i);
    DifficultyRule(path[..i]);
    var recent := Summaries(path[..i]);
    forall k | 0 <= k < |recent| ensures recent[k].difficulty >= 0 {
      DifficultyControlled(env, path, k);
    }
    RetargetDoubles(recent, x);
  }

  /** And it at most triples from block to block. */
  lemma {:induction false} DifficultyAtMostTriples(env: Env, path: seq<Block>, i: nat)
    requires ValidPath(env, path) && LWMA_WINDOW - 1 <= i < |path|
    ensures 1 <= path[i].header.difficulty <= Power(3, i - (LWMA_WINDOW - 1)) * INITIAL_DIFFICULTY
  {
    hide ValidPath;
    if i == LWMA_WINDOW - 1 {
      InitialDifficulty(env, path, i);
    } else {
      DifficultyAtMostTriples(env, path, i - 1);
      DifficultyControlled(env, path, i);
      var p := Power(3, i - LWMA_WINDOW);
      assert Power(3, i - (LWMA_WINDOW - 1)) == p * 3;
      assert p * 3 * INITIAL_DIFFICULTY == 3 * (p * INITIAL_DIFFICULTY);
    }
  }

  lemma EightDoublings(n: nat)
    ensures Power(2, n + 8) == 0x100 * Power(2, n)
  {
    assert Power(2, n + 2) == 4 * Power(2, n);
    assert Power(2, n + 4) == 4 * Power(2, n + 2);
    assert Power(2, n + 6) == 4 * Power(2, n + 4);
    assert Power(2, n + 8) == 4 * Power(2, n + 6);
  }

  lemma {:induction false} ManyDoublings(n: nat, m: nat)
    ensures Power(2, n + 8 * m) == Power(0x100, m) * Power(2, n)
  {
    if m > 0 {
      ManyDoublings(n, m - 1);
      EightDoublings(n + 8 * (m - 1));
      var p, q := Power(0x100, m - 1), Power(2, n);
      assert 0x100 * (p * q) == (p * 0x100) * q;
    }
  }

  lemma FloorOutgrowsHeader()
    ensures Floor(109) >= U128_LIMIT
  {
    hide Power;
    ManyDoublings(5, 13);
    Limits();
    ThirteenAndFive();
  }

  lemma ThirteenAndFive()
    ensures Power(2, 5) == 32 && Power(0x100, 13) == 0x1_0000_0000_0000_0000_0000_0000_00
  {
    assert Power(2, 2) == 4 && Power(2, 4) == 16;
    assert Power(256, 2) == 0x1_0000;
    assert Power(256, 4) == 0x1_0000_0000;
    assert Power(256, 6) == 0x1_0000_0000_0000;
    assert Power(256, 8) == 0x1_0000_0000_0000_0000;
    assert Power(256, 10) == 0x1_0000_0000_0000_0000_0000;
    assert Power(256, 12) == 0x1_0000_0000_0000_0000_0000_0000;
  }

  lemma DifficultyFitsHeader(env: Env, path: seq<Block>, b: Block)
    requires |path| > 0 && CheckBlock(env, path, b)
    ensures b.header.difficulty < U128_LIMIT
  {
    hide BodyOk, LinkOk, BlockOk, Blob;
  }

  /**
   * Every chain that consensus accepts ends by height 1535: from height 240 on the difficulty has at least doubled
   * every twelve blocks, whatever the timestamps, and at height 1536 it would not fit the header any more.
   */
  lemma ChainsEndEarly(env: Env, path: seq<Block>)
    requires ValidPath(env, path)
    ensures |path| <= LONGEST_PATH
  {
    hide ValidPath, CheckBlock, Floor;
    if |path| > LONGEST_PATH {
      DifficultyDoubles(env, path, 109, LONGEST_PATH);
      FloorOutgrowsHeader();
      PrefixOfValidPath(env, path, LONGEST_PATH);
      DifficultyFitsHeader(env, path[..LONGEST_PATH], path[LONGEST_PATH]);
    }
  }

  /** So no chain leaves the first phase of the emission: at most 614,000 of the 2.1 billion EDX are ever issued. */
  lemma EmissionEndsEarly(env: Env, path: seq<Block>)
    requires ValidPath(env, path)
    ensures Replay(env, path).issuedPhotons == (|path| - 1) * Reward.PHASE_1_REWARD
    ensures Replay(env, path).issuedPhotons <= 614_000 * EDX_UNIT
  {
    hide ValidPath, LedgerPath, Replay, Reward.IssuedAt;
    ChainsEndEarly(env, path);
    ShapeOfValidPath(env, path);
    PathIsShort(env, path);
    IssuanceFollowsSchedule(env, path);
    Reward.PhaseOne(|path| - 1);
  }
}
