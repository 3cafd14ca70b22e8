/** Key epochs and the median of timestamps: packages/core/src/schedule.ts, packages/core/src/chain.ts. */
module Schedule {
  import opened Prelude
  import opened Difficulty

  const RANDOMX_KEY_EPOCH_BLOCKS := 2048
  const RANDOMX_SEED_DELAY := 64

  function EpochIndexForNextBlock(nextHeight: int): Result<int> {
    if nextHeight < 1 || nextHeight > MAX_SAFE_INTEGER then Err("next block height must be positive")
    else Ok((nextHeight - 1) / RANDOMX_KEY_EPOCH_BLOCKS)
  }

  function SeedHeightForEpoch(epochIndex: int): Result<int> {
    if epochIndex < 0 || epochIndex > MAX_SAFE_INTEGER then Err("invalid epoch index")
    else if epochIndex == 0 then Ok(0)
    else
      var firstHeightInEpoch := epochIndex * RANDOMX_KEY_EPOCH_BLOCKS + 1;
      var seedHeight := firstHeightInEpoch - 1 - RANDOMX_SEED_DELAY;
      Ok(if seedHeight < 0 then 0 else seedHeight)
  }

  function ExpectedSeedHeight(nextHeight: int): Result<int> {
    var epoch :- EpochIndexForNextBlock(nextHeight);
    SeedHeightForEpoch(epoch)
  }

  /**
   * The seed block is always an ancestor, all blocks of an epoch share it, and past the first epoch
   * it is buried under at least the delay.
   */
  lemma SeedIsBuried(nextHeight: int)
    requires 1 <= nextHeight <= MAX_SAFE_INTEGER
    ensures ExpectedSeedHeight(nextHeight).Ok?
    ensures
      var s := ExpectedSeedHeight(nextHeight).value;
      && 0 <= s < nextHeight
      && (nextHeight <= RANDOMX_KEY_EPOCH_BLOCKS ==> s == 0)
      && (nextHeight > RANDOMX_KEY_EPOCH_BLOCKS ==>
        && (s + RANDOMX_SEED_DELAY) % RANDOMX_KEY_EPOCH_BLOCKS == 0
        && RANDOMX_SEED_DELAY < nextHeight - s <= RANDOMX_SEED_DELAY + RANDOMX_KEY_EPOCH_BLOCKS)
  {
  }

  lemma SeedHeightsAreNatural(nextHeight: int)
    requires ExpectedSeedHeight(nextHeight).Ok?
    ensures ExpectedSeedHeight(nextHeight).value >= 0
  {
  }

  // ---- median of timestamps ----

  ghost predicate Sorted(s: seq<int>) {
    forall i, j :: 0 <= i <= j < |s| ==> s[i] <= s[j]
  }

  function Insert(x: int, s: seq<int>): seq<int> {
    if |s| == 0 || x <= s[0] then [x] + s else [s[0]] + Insert(x, s[1..])
  }

  function Sort(s: seq<int>): seq<int> {
    if |s| == 0 then [] else Insert(s[0], Sort(s[1..]))
  }

  function MedianOf(values: seq<int>): int {
    if |values| == 0 then 0 else
      SortLength(values);
      var sorted := Sort(values);
      var middle := |sorted| / 2;
      if |sorted| % 2 == 0 then (sorted[middle - 1] + sorted[middle]) / 2 else sorted[middle]
  }

  lemma {:induction false} InsertLength(x: int, s: seq<int>)
    ensures |Insert(x, s)| == |s| + 1
  {
    if !(|s| == 0 || x <= s[0]) {
      InsertLength(x, s[1..]);
    }
  }

  lemma {:induction false} SortLength(s: seq<int>)
    ensures |Sort(s)| == |s|
  {
    if |s| > 0 {
      SortLength(s[1..]);
      InsertLength(s[0], Sort(s[1..]));
    }
  }

  lemma {:induction false} InsertSorted(x: int, s: seq<int>)
    requires Sorted(s)
    ensures Sorted(Insert(x, s)) && forall y :: y in Insert(x, s) ==> y == x || y in s
  {
    var r := Insert(x, s);
    if |s| == 0 || x <= s[0] {
      assert r == [x] + s;
    } else {
      InsertSorted(x, s[1..]);
      assert forall k :: 0 < k < |r| ==> r[k] in Insert(x, s[1..]);
    }
  }

  lemma {:induction false} SortSorted(s: seq<int>)
    ensures Sorted(Sort(s))
  {
    if |s| > 0 {
      SortSorted(s[1..]);
      InsertSorted(s[0], Sort(s[1..]));
    }
  }

  ghost function CountAtLeast(s: seq<int>, m: int): nat {
    if |s| == 0 then 0 else (if s[0] >= m then 1 else 0) + CountAtLeast(s[1..], m)
  }

  lemma {:induction false} CountInsert(x: int, s: seq<int>, m: int)
    ensures CountAtLeast(Insert(x, s), m) == (if x >= m then 1 else 0) + CountAtLeast(s, m)
  {
    if |s| == 0 || x <= s[0] {
      assert ([x] + s)[1..] == s;
    } else {
      CountInsert(x, s[1..], m);
      assert Insert(x, s)[1..] == Insert(x, s[1..]);
    }
  }

  lemma {:induction false} CountSort(s: seq<int>, m: int)
    ensures CountAtLeast(Sort(s), m) == CountAtLeast(s, m)
  {
    if |s| > 0 {
      CountSort(s[1..], m);
      CountInsert(s[0], Sort(s[1..]), m);
    }
  }

  lemma {:induction false} CountConcat(a: seq<int>, b: seq<int>, m: int)
    ensures CountAtLeast(a + b, m) == CountAtLeast(a, m) + CountAtLeast(b, m)
  {
    if |a| == 0 {
      assert a + b == b;
    } else {
      CountConcat(a[1..], b, m);
      assert (a + b)[1..] == a[1..] + b;
    }
  }

  /** In a sorted list, position `i` holds at least `m` exactly when enough elements do. */
  lemma {:induction false} SortedCount(s: seq<int>, m: int, i: nat)
    requires Sorted(s) && i < |s|
    ensures s[i] >= m <==> CountAtLeast(s, m) >= |s| - i
    ensures CountAtLeast(s, m) <= |s|
  {
    if s[0] >= m {
      AllAtLeast(s, m);
    } else if i > 0 {
      SortedCount(s[1..], m, i - 1);
    } else {
      CountAtMostLength(s[1..], m);
    }
  }

  lemma {:induction false} AllAtLeast(s: seq<int>, m: int)
    requires forall k :: 0 <= k < |s| ==> s[k] >= m
    ensures CountAtLeast(s, m) == |s|
  {
    if |s| > 0 {
      AllAtLeast(s[1..], m);
    }
  }

  lemma {:induction false} CountAtMostLength(s: seq<int>, m: int)
    ensures CountAtLeast(s, m) <= |s|
  {
    if |s| > 0 {
      CountAtMostLength(s[1..], m);
    }
  }

  /** At least the upper half of the values reaches the median. */
  lemma MedianCount(s: seq<int>)
    requires |s| > 0
    ensures CountAtLeast(s, MedianOf(s)) >= |s| - |s| / 2
  {
    var sorted, m := Sort(s), MedianOf(s);
    SortLength(s);
    SortSorted(s);
    CountSort(s, m);
    SortedCount(sorted, m, |s| / 2);
  }

  /** The median reaches every bound that more than half of the values reach. */
  lemma MedianAtLeast(s: seq<int>, m: int)
    requires |s| > 0 && CountAtLeast(s, m) >= |s| / 2 + 1
    ensures MedianOf(s) >= m
  {
    var sorted := Sort(s);
    SortLength(s);
    SortSorted(s);
    CountSort(s, m);
    SortedCount(sorted, m, |s| / 2);
    if |s| % 2 == 0 {
      SortedCount(sorted, m, |s| / 2 - 1);
    }
  }

  const MEDIAN_WINDOW := 11

  /**
   * A timestamp above the median of the last eleven cannot lower that median, neither while the
   * window still fills up nor once it slides.
   */
  lemma MedianStep(timestamps: seq<int>, next: int)
    requires |timestamps| > 0 && next > MedianOf(LastWindow(timestamps, MEDIAN_WINDOW))
    ensures
      MedianOf(LastWindow(timestamps + [next], MEDIAN_WINDOW)) >= MedianOf(LastWindow(timestamps, MEDIAN_WINDOW))
  {
    var w := LastWindow(timestamps, MEDIAN_WINDOW);
    var v := LastWindow(timestamps + [next], MEDIAN_WINDOW);
    var m := MedianOf(w);
    MedianCount(w);
    CountConcat(w, [next], m);
    assert CountAtLeast([next], m) == 1;
    if |timestamps| < MEDIAN_WINDOW {
      assert v == w + [next];
    } else {
      assert v == (w + [next])[1..];
    }
    MedianAtLeast(v, m);
  }
}
