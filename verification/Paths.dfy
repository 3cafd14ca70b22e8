/**
 * What consensus demands of a block on top of a path of ancestors, and what follows for every
 * path it accepts: the checks of packages/core/src/chain.ts as predicates over genesis-to-tip paths.
 */
module Paths {
  import opened Prelude
  import opened Text
  import opened Types
  import opened SigningText
  import opened HeaderCodec
  import opened Difficulty
  import opened Schedule
  import opened State
  import opened Merkle
  import opened History
  import Conservation
  import Reward

  const PROTOCOL_VERSION := 1
  const GENESIS_TIMESTAMP_SECONDS := 1_767_225_600
  const TIMESTAMP_FUTURE_TOLERANCE_MS := 120_000
  const MAX_BLOCK_BODY_BYTES := 2_000_000

  function GenesisBlock(env: Env): Block {
    Block(
      Header(
        PROTOCOL_VERSION, 0, Zeros64(), GENESIS_TIMESTAMP_SECONDS, INITIAL_DIFFICULTY, Zeros64(), env.genesisSeed, ""),
      env.genesisHash, 0, None, [])
  }

  function Last(path: seq<Block>): Block
    requires |path| > 0
  {
    path[|path| - 1]
  }

  function SummaryOf(b: Block): Summary {
    Summary(b.header.height, b.header.timestampSeconds, b.header.difficulty)
  }

  function Summaries(path: seq<Block>): (s: seq<Summary>)
    ensures |s| == |path|
  {
    seq(|path|, k requires 0 <= k < |path| => SummaryOf(path[k]))
  }

  function Timestamps(path: seq<Block>): (s: seq<int>)
    ensures |s| == |path|
  {
    seq(|path|, k requires 0 <= k < |path| => path[k].header.timestampSeconds)
  }

  /** Median of the last eleven timestamps of a path. */
  function MedianTime(path: seq<Block>): int {
    MedianOf(LastWindow(Timestamps(path), MEDIAN_WINDOW))
  }

  lemma WindowOfMap(path: seq<Block>, n: nat)
    ensures Summaries(LastWindow(path, n)) == LastWindow(Summaries(path), n)
    ensures Timestamps(LastWindow(path, n)) == LastWindow(Timestamps(path), n)
  {
  }

  /** The difficulty that the next block on this path must have. */
  ghost function NextDifficulty(path: seq<Block>): Option<int> {
    Next(LastWindow(Summaries(path), LWMA_WINDOW))
  }

  ghost predicate LinkOk(path: seq<Block>, b: Block)
    requires |path| > 0
  {
    var parent, header := Last(path), b.header;
    && header.version == parent.header.version
    && header.height == parent.header.height + 1
    && NextDifficulty(path) == Some(header.difficulty)
    && SeedOk(path, header)
    && header.timestampSeconds > MedianTime(path)
  }

  ghost predicate SeedOk(path: seq<Block>, header: Header) {
    var seedHeight := ExpectedSeedHeight(header.height);
    seedHeight.Ok? && 0 <= seedHeight.value < |path| && header.powSeed == path[seedHeight.value].hash
  }

  /** The block is not too far ahead of the local clock. */
  predicate NotTooEarly(nowMs: int, b: Block) {
    b.header.timestampSeconds * 1000 <= nowMs + TIMESTAMP_FUTURE_TOLERANCE_MS
  }

  function OutputsLength(outputs: seq<Output>): nat {
    if |outputs| == 0 then 0
    else OutputsLength(outputs[..|outputs| - 1]) + 1 + |outputs[|outputs| - 1].address| + 8
  }

  function TransactionsLength(txs: seq<Transaction>): nat {
    if |txs| == 0 then 4
    else
      var tx := txs[|txs| - 1];
      TransactionsLength(txs[..|txs| - 1]) + 4 + |tx.inputs| * 36 + OutputsLength(tx.outputs) + (8 + 66 + 64)
  }

  function TransactionIds(env: Env, txs: seq<Transaction>): seq<HashText> {
    seq(|txs|, k requires 0 <= k < |txs| => TransactionId(env, txs[k]))
  }

  ghost predicate Shaped(env: Env, txs: seq<Transaction>) {
    forall k :: 0 <= k < |txs| ==> ShapeOk(env, txs[k])
  }

  /** The identifiers of a list of transactions; a malformed one has none. */
  method CollectIds(env: Env, txs: seq<Transaction>) returns (r: Result<seq<HashText>>)
    ensures r.Ok? <==> Shaped(env, txs)
    ensures r.Ok? ==> r.value == TransactionIds(env, txs)
  {
    hide ShapeOk, TransactionId;
    var txids: seq<HashText> := [];
    for index := 0 to |txs|
      invariant forall k :: 0 <= k < index ==> ShapeOk(env, txs[k])
      invariant txids == TransactionIds(env, txs[..index])
    {
      var shape := ValidateSignedTransactionShape(env, txs[index]);
      if shape.Err? {
        return Err(shape.error);
      }
      txids := txids + [TransactionId(env, txs[index])];
    }
    assert txs[..|txs|] == txs;
    r := Ok(txids);
  }

  /** Transactions are well shaped and committed to by the header, and so is the payout address. */
  ghost predicate BodyOk(env: Env, b: Block) {
    && Shaped(env, b.transactions)
    && RewardReadable(b.coinbase)
    && MerkleRoot(env, b.header.height, b.coinbase, TransactionIds(env, b.transactions)) == b.header.merkleRoot
    && (b.coinbase.Some? ==>
      |b.coinbase.value.outputs| > 0 && b.coinbase.value.outputs[0].address == b.header.payoutAddress)
  }

  ghost predicate PowOk(env: Env, b: Block) {
    Encodable(b.header, b.nonce) && env.verifyPow(Blob(b.header, b.nonce), b.hash, b.header.difficulty)
  }

  /** Everything but the clock that consensus checks of a new block on top of `path`. */
  ghost predicate CheckBlock(env: Env, path: seq<Block>, b: Block)
    requires |path| > 0
  {
    && Hex(b.hash, 64)
    && TransactionsLength(b.transactions) <= MAX_BLOCK_BODY_BYTES
    && BodyOk(env, b)
    && LinkOk(path, b)
    && PowOk(env, b)
    && BlockOk(env, Replay(env, path), b)
  }

  ghost predicate ValidPath(env: Env, path: seq<Block>) {
    && |path| >= 1
    && if |path| == 1 then path[0] == GenesisBlock(env)
       else ValidPath(env, path[..|path| - 1]) && CheckBlock(env, path[..|path| - 1], Last(path))
  }

  function WorkOf(difficulty: int): (w: nat) {
    var w := WorkForDifficulty(difficulty);
    if w.Ok? && w.value >= 0 then w.value else 0
  }

  ghost function Work(path: seq<Block>): nat {
    if |path| == 0 then 0 else Work(path[..|path| - 1]) + WorkOf(Last(path).header.difficulty)
  }

  // ---- what every accepted path satisfies ----

  lemma {:induction false} PrefixOfValidPath(env: Env, path: seq<Block>, n: nat)
    requires ValidPath(env, path) && 1 <= n <= |path|
    ensures ValidPath(env, path[..n])
    ensures n < |path| ==> CheckBlock(env, path[..n], path[n])
  {
    hide CheckBlock;
    if n == |path| {
      assert path[..n] == path;
    } else if n < |path| - 1 {
      var init := path[..|path| - 1];
      PrefixOfValidPath(env, init, n);
      assert init[..n] == path[..n];
    }
  }

  lemma LinkOfCheck(env: Env, path: seq<Block>, b: Block)
    requires |path| > 0 && CheckBlock(env, path, b)
    ensures LinkOk(path, b) && BlockOk(env, Replay(env, path), b) && Hex(b.hash, 64)
  {
    hide BodyOk, LinkOk, PowOk, BlockOk, Replay;
  }

  /** Heights count the position, the version never changes, and the ledger applies. */
  lemma {:induction false} ShapeOfValidPath(env: Env, path: seq<Block>)
    requires ValidPath(env, path)
    ensures path[0] == GenesisBlock(env) && LedgerPath(env, path)
    ensures forall i :: 0 <= i < |path| ==>
      path[i].header.height == i && path[i].header.version == PROTOCOL_VERSION
  {
    hide CheckBlock, BlockOk, NextDifficulty, SeedOk, MedianTime, Replay;
    if |path| > 1 {
      var init := path[..|path| - 1];
      ShapeOfValidPath(env, init);
      LinkOfCheck(env, init, Last(path));
      assert forall i :: 0 <= i < |init| ==> init[i] == path[i];
    }
  }

  lemma LinkAt(env: Env, path: seq<Block>, i: nat)
    requires ValidPath(env, path) && 1 <= i < |path|
    ensures LinkOk(path[..i], path[i])
  {
    hide ValidPath, LinkOk;
    PrefixOfValidPath(env, path, i);
    LinkOfCheck(env, path[..i], path[i]);
  }

  /** The retarget reads the last 240 blocks of the path; before there are so many, it repeats the parent. */
  lemma DifficultyRule(path: seq<Block>)
    requires |path| > 0
    ensures NextDifficulty(path) == Next(Summaries(path))
    ensures |path| < LWMA_WINDOW ==> NextDifficulty(path) == Some(Last(path).header.difficulty)
  {
    hide Increasing, Raw, Clamp;
    NextReadsWindow(Summaries(path));
  }

  /** Every block up to height 239 has the initial difficulty. */
  lemma {:induction false} InitialDifficulty(env: Env, path: seq<Block>, i: nat)
    requires ValidPath(env, path) && i < |path| && i < LWMA_WINDOW
    ensures path[i].header.difficulty == INITIAL_DIFFICULTY
  {
    hide ValidPath, NextDifficulty, SeedOk, MedianTime, LedgerPath;
    ShapeOfValidPath(env, path);
    if i > 0 {
      InitialDifficulty(env, path, i - 1);
      LinkAt(env, path, i);
      DifficultyRule(path[..i]);
    }
  }

  /** Whatever its timestamps, every chain that gets there has exactly three times that at height 240. */
  lemma FirstRetargetTriples(env: Env, path: seq<Block>)
    requires ValidPath(env, path) && |path| > LWMA_WINDOW
    ensures path[LWMA_WINDOW].header.difficulty == 3 * INITIAL_DIFFICULTY
  {
    hide ValidPath, NextDifficulty, SeedOk, MedianTime, Next;
    var w := path[..LWMA_WINDOW];
    LinkAt(env, path, LWMA_WINDOW);
    DifficultyRule(w);
    forall k | 0 <= k < LWMA_WINDOW ensures Summaries(w)[k].difficulty == INITIAL_DIFFICULTY {
      InitialDifficulty(env, path, k);
    }
    EqualWindowTriples(Summaries(w), INITIAL_DIFFICULTY);
  }

  /** From block to block the difficulty stays within [max(1, d/3), 3d]. */
  lemma {:induction false} DifficultyControlled(env: Env, path: seq<Block>, i: nat)
    requires ValidPath(env, path) && i < |path|
    ensures path[i].header.difficulty >= 1
    ensures i > 0 ==>
      path[i - 1].header.difficulty / 3 <= path[i].header.difficulty <= 3 * path[i - 1].header.difficulty
  {
    hide ValidPath, NextDifficulty, SeedOk, MedianTime, Next;
    if i > 0 {
      DifficultyControlled(env, path, i - 1);
      LinkAt(env, path, i);
      DifficultyRule(path[..i]);
      NextStaysInRange(Summaries(path[..i]));
    } else {
      InitialDifficulty(env, path, 0);
    }
  }

  /** The median time of the last eleven blocks never goes back along an accepted path. */
  lemma {:induction false} MedianNeverFalls(env: Env, path: seq<Block>, i: nat, j: nat)
    requires ValidPath(env, path) && 1 <= i <= j <= |path|
    ensures MedianTime(path[..i]) <= MedianTime(path[..j])
  {
    hide ValidPath, NextDifficulty, SeedOk, MedianOf;
    if i < j {
      MedianNeverFalls(env, path, i, j - 1);
      LinkAt(env, path, j - 1);
      assert Timestamps(path[..j]) == Timestamps(path[..j - 1]) + [path[j - 1].header.timestampSeconds];
      MedianStep(Timestamps(path[..j - 1]), path[j - 1].header.timestampSeconds);
    }
  }

  /** No accepted path outgrows the emission. */
  lemma PathIsShort(env: Env, path: seq<Block>)
    requires ValidPath(env, path)
    ensures 1 <= |path| <= Reward.PHASE_2_MAX_HEIGHT <= MAX_SAFE_INTEGER
  {
    hide CheckBlock, LedgerPath, Reward.IssuedAt, Replay, Reward.RewardForBlock, Reward.Mints;
    ShapeOfValidPath(env, path);
    Conservation.IssuanceFollowsSchedule(env, path);
  }

  /** The seed ancestor that the next block needs exists on every accepted path. */
  lemma SeedAlwaysExists(env: Env, path: seq<Block>)
    requires ValidPath(env, path)
    ensures
      var s := ExpectedSeedHeight(Last(path).header.height + 1);
      s.Ok? && 0 <= s.value < |path| && path[s.value].header.height == s.value
  {
    hide ValidPath, LedgerPath, ExpectedSeedHeight;
    PathIsShort(env, path);
    ShapeOfValidPath(env, path);
    SeedIsBuried(|path|);
  }

  lemma {:induction false} WorkGrows(env: Env, path: seq<Block>)
    requires ValidPath(env, path) && |path| > 1
    ensures Work(path) > Work(path[..|path| - 1])
  {
    hide ValidPath;
    DifficultyControlled(env, path, |path| - 1);
    WorkFalls(path[|path| - 1].header.difficulty, path[|path| - 1].header.difficulty);
  }
}
