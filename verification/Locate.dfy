/**
 * Where two chains part: the two rounds of `locate` messages of apps/node/src/p2p.ts
 * (serveLocate, locateForkAnchor), on the best chain of the asking node and the tree of the answering one.
 */
module Locate {
  import opened Prelude
  import opened Text
  import opened Types
  import opened History
  import opened Paths
  import opened Chain

  const LOCATE_MAX_HASHES := 64

  function CeilDiv(a: nat, b: nat): (q: nat)
    requires b > 0
    ensures a <= q * b < a + b
  {
    (a + b - 1) / b
  }

  // ---- the answer ----

  function HexOnly(hashes: seq<string>): (r: seq<string>)
    ensures forall k :: 0 <= k < |r| ==> Hex(r[k], 64)
  {
    if |hashes| == 0 then []
    else HexOnly(hashes[..|hashes| - 1]) + if Hex(hashes[|hashes| - 1], 64) then [hashes[|hashes| - 1]] else []
  }

  lemma {:induction false} AllHex(hashes: seq<string>)
    requires forall k :: 0 <= k < |hashes| ==> Hex(hashes[k], 64)
    ensures HexOnly(hashes) == hashes
  {
    if |hashes| > 0 {
      AllHex(hashes[..|hashes| - 1]);
    }
  }

  /** Only the first 64 well-formed hashes are read. */
  function Asked(hashes: seq<string>): seq<string> {
    var hex := HexOnly(hashes);
    if |hex| > LOCATE_MAX_HASHES then hex[..LOCATE_MAX_HASHES] else hex
  }

  /** The position of the first asked hash that the answering node stores, on any branch; -1 if there is none. */
  ghost predicate IsFirstKnown(entries: Tree, asked: seq<string>, index: int) {
    && -1 <= index < |asked|
    && (index >= 0 ==> asked[index] in entries)
    && forall k :: 0 <= k < (if index >= 0 then index else |asked|) ==> asked[k] !in entries
  }

  // ---- the question ----

  /** The heights from `from` down to, but not including, `above`. */
  function DownTo(from: int, above: int, step: nat): (heights: seq<int>)
    requires step > 0
    decreases from - above
  {
    if from <= above then [] else [from] + DownTo(from - step, above, step)
  }

  /** Consecutive heights differ by the step, all lie above the bound, and the next one would not. */
  lemma {:induction false} DownToSpaced(from: int, above: int, step: nat)
    requires step > 0
    ensures
      var t := DownTo(from, above, step);
      && (from > above ==> |t| > 0 && t[0] == from && t[|t| - 1] - step <= above)
      && (forall i :: 0 <= i < |t| ==> above < t[i] <= from)
      && (forall i :: 0 <= i < |t| - 1 ==> t[i + 1] == t[i] - step)
    decreases from - above
  {
    if from > above {
      DownToSpaced(from - step, above, step);
      var t, rest := DownTo(from, above, step), DownTo(from - step, above, step);
      forall i | 0 <= i < |t| - 1 ensures t[i + 1] == t[i] - step {
        assert t[i + 1] == rest[i];
      }
    }
  }

  lemma {:induction false} DownToShort(from: int, above: int, step: nat, n: nat)
    requires step > 0 && from - above <= n * step
    ensures |DownTo(from, above, step)| <= n
    decreases from - above
  {
    if from > above {
      assert n > 0;
      assert (n - 1) * step == n * step - step;
      DownToShort(from - step, above, step, n - 1);
    }
  }

  function SampleStep(height: nat): (step: nat)
    ensures step > 0
  {
    CeilDiv(height + 1, LOCATE_MAX_HASHES)
  }

  /** The heights of the first question: evenly down from the tip, and genesis. */
  function SampleHeights(height: nat): (s: seq<int>)
  {
    var regular := DownTo(height, -1, SampleStep(height));
    if |regular| > 0 && regular[|regular| - 1] != 0 then regular + [0] else regular
  }

  /** Strictly falling heights of the chain, at most one step apart, from the tip to genesis. */
  lemma SamplesSpaced(height: nat)
    ensures
      var s := SampleHeights(height);
      && 0 < |s| <= LOCATE_MAX_HASHES + 1 && s[0] == height && s[|s| - 1] == 0
      && (forall i :: 0 <= i < |s| ==> 0 <= s[i] <= height)
      && (forall i :: 0 <= i < |s| - 1 ==> 0 < s[i] - s[i + 1] <= SampleStep(height))
  {
    hide DownTo, SampleStep;
    StepCovers(height);
    DownToSpaced(height, -1, SampleStep(height));
    DownToShort(height, -1, SampleStep(height), LOCATE_MAX_HASHES);
  }

  /** With this step, 64 samples reach below the genesis block. */
  lemma StepCovers(height: nat)
    ensures height + 1 <= LOCATE_MAX_HASHES * SampleStep(height)
  {
  }

  function HashesAt(path: seq<Block>, heights: seq<int>): (hashes: seq<string>)
    requires forall i :: 0 <= i < |heights| ==> 0 <= heights[i] < |path|
    ensures |hashes| == |heights|
  {
    seq(|heights|, k requires 0 <= k < |heights| => path[heights[k]].hash)
  }

  /** How a peer answers a question; None for a frame that is no answer. */
  type Answers = seq<string> -> Option<int>

  function RefineStep(upper: int, anchor: int): (step: nat)
    requires upper > anchor
    ensures step > 0
  {
    CeilDiv(upper - anchor, LOCATE_MAX_HASHES)
  }

  function RefineHeights(upper: int, anchor: int): (s: seq<int>)
    requires upper > anchor
  {
    DownTo(upper - RefineStep(upper, anchor), anchor, RefineStep(upper, anchor))
  }

  lemma RefineSpaced(upper: int, anchor: int)
    requires upper > anchor
    ensures
      var s, step := RefineHeights(upper, anchor), RefineStep(upper, anchor);
      && |s| < LOCATE_MAX_HASHES
      && (|s| == 0 ==> upper <= anchor + step)
      && (|s| > 0 ==> s[0] + step == upper && s[|s| - 1] <= anchor + step)
      && (forall i :: 0 <= i < |s| ==> anchor < s[i] < upper)
      && (forall i :: 0 <= i < |s| - 1 ==> s[i + 1] == s[i] - step)
  {
    var step := RefineStep(upper, anchor);
    DownToSpaced(upper - step, anchor, step);
    DownToShort(upper - step, anchor, step, LOCATE_MAX_HASHES - 1);
  }

  /** The outcome of the second question, between a known height and an unknown one. */
  function Refined(path: seq<Block>, ask: Answers, upper: int, anchor: int): Option<nat>
    requires 0 <= anchor < upper < |path|
  {
    RefineSpaced(upper, anchor);
    var heights := RefineHeights(upper, anchor);
    if |heights| == 0 then Some(anchor)
    else
      var second := ask(HashesAt(path, heights));
      if second.None? || second.value < 0 then Some(anchor)
      else if second.value < |heights| then Some(heights[second.value])
      else None
  }

  /** The height from which to download; None when the peer knows none of the hashes or answers out of range. */
  function ForkAnchor(path: seq<Block>, ask: Answers): Option<nat>
    requires |path| > 0
  {
    SamplesSpaced(|path| - 1);
    var heights := SampleHeights(|path| - 1);
    var first := ask(HashesAt(path, heights));
    if first.None? || first.value < 0 || first.value >= |heights| then None
    else if first.value > 0 && heights[first.value - 1] - heights[first.value] > 1
    then Refined(path, ask, heights[first.value - 1], heights[first.value])
    else Some(heights[first.value])
  }

  /** Missing and senseless answers: without a first one there is no anchor, without a second the first one's stands. */
  lemma OddAnswers(path: seq<Block>, ask: Answers, upper: nat, anchor: nat)
    requires anchor < upper < |path|
    requires forall hashes :: ask(hashes).None? || ask(hashes).value < 0
    ensures ForkAnchor(path, ask) == None && Refined(path, ask, upper, anchor) == Some(anchor)
  {
    hide SampleHeights, RefineHeights, HashesAt;
    SamplesSpaced(|path| - 1);
  }

  // ---- two trees ----

  /** A hash that both trees store names the same block. */
  ghost predicate SameHashSameBlock(c: Tree, d: Tree) {
    forall h :: h in c && h in d ==> c[h].block == d[h].block
  }

  /** Trees that agree on blocks agree on the whole ancestry of every block they share. */
  lemma {:induction false} SharedPath(env: Env, c: Tree, d: Tree, h: string)
    requires Linked(env, c) && Linked(env, d) && SameHashSameBlock(c, d) && h in c && h in d
    ensures PathOf(env, c, h) == PathOf(env, d, h)
    decreases c[h].block.header.height
  {
    hide GenesisBlock;
    assert LinkedAt(env, c, h) && LinkedAt(env, d, h);
    if h != env.genesisHash {
      SharedPath(env, c, d, c[h].block.header.previousHash);
    }
  }

  /** The blocks of a stored path are stored, each behind its part of the path. */
  lemma {:induction false} PathMembers(env: Env, entries: Tree, h: string, j: nat)
    requires Linked(env, entries) && h in entries && j < |PathOf(env, entries, h)|
    ensures
      var path := PathOf(env, entries, h);
      && path[j].hash in entries && entries[path[j].hash].block == path[j]
      && PathOf(env, entries, path[j].hash) == path[..j + 1]
    decreases entries[h].block.header.height
  {
    hide GenesisBlock;
    assert LinkedAt(env, entries, h);
    var path := PathOf(env, entries, h);
    if j == |path| - 1 {
      assert path[..j + 1] == path;
    } else {
      var parent := entries[h].block.header.previousHash;
      PathMembers(env, entries, parent, j);
      assert path[..j + 1] == PathOf(env, entries, parent)[..j + 1];
    }
  }

  ghost predicate Knows(entries: Tree, path: seq<Block>, k: int)
    requires 0 <= k < |path|
  {
    path[k].hash in entries
  }

  /** The greatest height of the path whose block the tree stores. */
  ghost function HighestKnown(entries: Tree, path: seq<Block>): (k: nat)
    requires |path| > 0 && Knows(entries, path, 0)
    ensures k < |path| && Knows(entries, path, k)
    ensures forall j :: k < j < |path| ==> !Knows(entries, path, j)
  {
    HighestUpTo(entries, path, |path| - 1)
  }

  ghost function HighestUpTo(entries: Tree, path: seq<Block>, top: nat): (k: nat)
    requires top < |path| && Knows(entries, path, 0)
    ensures k <= top && Knows(entries, path, k)
    ensures forall j :: k < j <= top ==> !Knows(entries, path, j)
  {
    if Knows(entries, path, top) then top else HighestUpTo(entries, path, top - 1)
  }

  /** A peer that stores a block of ours stores everything below it. */
  lemma KnownBelow(env: Env, c: ChainState, p: Tree, k: nat, j: nat)
    requires Inv(env, c) && Linked(env, p) && SameHashSameBlock(c.entries, p)
    requires j <= k < |BestPath(env, c)| && Knows(p, BestPath(env, c), k)
    ensures Knows(p, BestPath(env, c), j)
    ensures PathOf(env, p, BestPath(env, c)[k].hash) == BestPath(env, c)[..k + 1]
  {
    hide EntryOk, Linked, PathOf;
    var path := BestPath(env, c);
    PathMembers(env, c.entries, c.bestHash, k);
    SharedPath(env, c.entries, p, path[k].hash);
    PathMembers(env, p, path[k].hash, j);
  }

  lemma GenesisKnown(env: Env, c: ChainState, p: Tree)
    requires Inv(env, c) && Linked(env, p)
    ensures |BestPath(env, c)| > 0 && Knows(p, BestPath(env, c), 0)
  {
    hide Replay, Work, CheckBlock;
    assert EntryOk(env, c.entries, c.bestHash);
    ShapeOfValidPath(env, BestPath(env, c));
  }

  /** The peer answers every question from its tree. */
  ghost predicate AnswersFrom(ask: Answers, p: Tree) {
    forall hashes :: ask(hashes).Some? && IsFirstKnown(p, Asked(hashes), ask(hashes).value)
  }

  /** Every hash of a valid path is well formed. */
  lemma HashesAreHex(env: Env, path: seq<Block>, k: nat)
    requires ValidPath(env, path) && k < |path|
    ensures Hex(path[k].hash, 64)
  {
    hide ValidPath, CheckBlock, LedgerPath;
    if k == 0 {
      ShapeOfValidPath(env, path);
    } else {
      PrefixOfValidPath(env, path, k);
      LinkOfCheck(env, path[..k], path[k]);
    }
  }

  /** What an honest answer says about heights of our best chain: the first asked one that is not above F. */
  lemma AnswerMeaning(env: Env, c: ChainState, p: Tree, heights: seq<int>, index: int)
    requires Inv(env, c) && Linked(env, p) && SameHashSameBlock(c.entries, p)
    requires forall i :: 0 <= i < |heights| ==> 0 <= heights[i] < |BestPath(env, c)|
    requires IsFirstKnown(p, Asked(HashesAt(BestPath(env, c), heights)), index)
    ensures |BestPath(env, c)| > 0 && Knows(p, BestPath(env, c), 0)
    ensures
      var top := HighestKnown(p, BestPath(env, c));
      var n := if |heights| > LOCATE_MAX_HASHES then LOCATE_MAX_HASHES else |heights|;
      && -1 <= index < n
      && (index >= 0 ==> heights[index] <= top)
      && (forall k :: 0 <= k < (if index >= 0 then index else n) ==> heights[k] > top)
  {
    hide Linked, PathOf, EntryOk, ValidPath;
    var path := BestPath(env, c);
    GenesisKnown(env, c, p);
    BestIsValid(env, c);
    var hashes, top := HashesAt(path, heights), HighestKnown(p, path);
    forall k | 0 <= k < |hashes| ensures Hex(hashes[k], 64) && (hashes[k] in p <==> heights[k] <= top) {
      HashesAreHex(env, path, heights[k]);
      if heights[k] <= top {
        KnownBelow(env, c, p, top, heights[k]);
      } else {
        assert !Knows(p, path, heights[k]);
      }
    }
    AllHex(hashes);
  }

  lemma BestIsValid(env: Env, c: ChainState)
    requires Inv(env, c)
    ensures ValidPath(env, BestPath(env, c))
  {
    hide ValidPath, Replay, Work;
    assert EntryOk(env, c.entries, c.bestHash);
  }

  /** The least height that the first question really reaches. */
  function LowestAsked(height: nat): nat {
    if height >= (LOCATE_MAX_HASHES - 1) * SampleStep(height)
    then height - (LOCATE_MAX_HASHES - 1) * SampleStep(height)
    else 0
  }

  lemma {:induction false} DownToAt(from: int, above: int, step: nat, i: nat)
    requires step > 0
    ensures i < |DownTo(from, above, step)| <==> from - i * step > above
    ensures i < |DownTo(from, above, step)| ==> DownTo(from, above, step)[i] == from - i * step
    decreases i
  {
    if i > 0 {
      assert (i - 1) * step == i * step - step;
      if from > above {
        DownToAt(from - step, above, step, i - 1);
      } else {
        assert i * step >= step;
      }
    }
  }

  lemma LowestAskedIsLast(height: nat)
    ensures
      var s := SampleHeights(height);
      var n := if |s| > LOCATE_MAX_HASHES then LOCATE_MAX_HASHES else |s|;
      n > 0 && s[n - 1] == LowestAsked(height)
  {
    var step, last := SampleStep(height), LOCATE_MAX_HASHES - 1;
    SamplesSpaced(height);
    DownToSpaced(height, -1, step);
    DownToShort(height, -1, step, LOCATE_MAX_HASHES);
    DownToAt(height, -1, step, last);
  }

  /** Between a known height and an unknown one the second question closes in to within its step. */
  lemma RefinedBound(env: Env, c: ChainState, p: Tree, ask: Answers, upper: nat, anchor: nat)
    requires Inv(env, c) && Linked(env, p) && SameHashSameBlock(c.entries, p) && AnswersFrom(ask, p)
    requires anchor < upper < |BestPath(env, c)| && Knows(p, BestPath(env, c), 0)
    requires anchor <= HighestKnown(p, BestPath(env, c)) < upper
    ensures
      var path := BestPath(env, c);
      var a := Refined(path, ask, upper, anchor);
      a.Some? && a.value <= HighestKnown(p, path) < a.value + RefineStep(upper, anchor)
  {
    hide Inv, Linked, PathOf, RefineStep, RefineHeights, HashesAt, Asked, IsFirstKnown;
    var path := BestPath(env, c);
    RefineSpaced(upper, anchor);
    var heights := RefineHeights(upper, anchor);
    if |heights| > 0 {
      var answer := ask(HashesAt(path, heights));
      AnswerMeaning(env, c, p, heights, answer.value);
      var j := answer.value;
      if j > 0 {
        assert heights[j - 1 + 1] == heights[j - 1] - RefineStep(upper, anchor);
      }
    }
  }

  lemma {:induction false} Falling(s: seq<int>, i: nat, j: nat)
    requires i <= j < |s| && forall k :: 0 <= k < |s| - 1 ==> s[k + 1] < s[k]
    ensures s[j] <= s[i]
  {
    if i < j {
      Falling(s, i, j - 1);
      assert s[j - 1 + 1] < s[j - 1];
    }
  }

  lemma CeilMonotone(a: nat, b: nat)
    requires 0 < a <= b
    ensures 0 < CeilDiv(a, LOCATE_MAX_HASHES) <= CeilDiv(b, LOCATE_MAX_HASHES)
    ensures b <= LOCATE_MAX_HASHES ==> CeilDiv(b, LOCATE_MAX_HASHES) == 1
  {
  }

  /**
   * With F the greatest height of our best chain that the peer stores: an anchor is found exactly when F
   * is not below the 64th sample; it is known to the peer, at most F, and less than a refined step below F.
   * Up to height 4095 it is F itself.
   */
  lemma ForkAnchorBound(env: Env, c: ChainState, p: Tree, ask: Answers)
    requires Inv(env, c) && Linked(env, p) && SameHashSameBlock(c.entries, p) && AnswersFrom(ask, p)
    ensures |BestPath(env, c)| > 0 && Knows(p, BestPath(env, c), 0)
    ensures
      var path := BestPath(env, c);
      var height, top, a := |path| - 1, HighestKnown(p, path), ForkAnchor(path, ask);
      && (a.Some? <==> top >= LowestAsked(height))
      && (a.Some? ==>
        && a.value <= top < a.value + CeilDiv(SampleStep(height), LOCATE_MAX_HASHES)
        && Knows(p, path, a.value)
        && (height <= 4095 ==> a.value == top))
  {
    hide Inv, Linked, PathOf, SampleHeights, HashesAt, Asked, IsFirstKnown, Refined, LowestAsked, CeilDiv;
    GenesisKnown(env, c, p);
    var path := BestPath(env, c);
    var height, top := |path| - 1, HighestKnown(p, path);
    SamplesSpaced(height);
    LowestAskedIsLast(height);
    var heights := SampleHeights(height);
    var first := ask(HashesAt(path, heights)).value;
    AnswerMeaning(env, c, p, heights, first);
    CeilMonotone(SampleStep(height), SampleStep(height));
    ExactWhenShort(height);
    var n := if |heights| > LOCATE_MAX_HASHES then LOCATE_MAX_HASHES else |heights|;
    if first >= 0 {
      Falling(heights, first, n - 1);
    }
    if first > 0 {
      var upper, anchor := heights[first - 1], heights[first];
      assert heights[first - 1 + 1] == anchor;
      if upper - anchor > 1 {
        RefinedBound(env, c, p, ask, upper, anchor);
        CeilMonotone(upper - anchor, SampleStep(height));
      }
    }
    var a := ForkAnchor(path, ask);
    if a.Some? {
      KnownBelow(env, c, p, top, a.value);
    }
  }

  lemma ExactWhenShort(height: nat)
    ensures height <= 4095 ==> CeilDiv(SampleStep(height), LOCATE_MAX_HASHES) == 1
  {
  }

  /** At height 127 the question stops at height 1: chains that part right after genesis never find each other. */
  lemma GenesisIsCutOff(env: Env, c: ChainState, p: Tree, ask: Answers)
    requires Inv(env, c) && Linked(env, p) && SameHashSameBlock(c.entries, p) && AnswersFrom(ask, p)
    requires |BestPath(env, c)| == 128 && !Knows(p, BestPath(env, c), 1)
    ensures Knows(p, BestPath(env, c), 0) && ForkAnchor(BestPath(env, c), ask) == None
  {
    hide Inv, Linked, PathOf, ForkAnchor, AnswersFrom;
    ForkAnchorBound(env, c, p, ask);
    var top := HighestKnown(p, BestPath(env, c));
    KnownBelow(env, c, p, top, if top > 0 then 1 else 0);
  }
}
