/** The block tree with cumulative-work fork choice: packages/core/src/chain.ts. */
module Chain {
  import opened Prelude
  import opened Text
  import opened Types
  import opened SigningText
  import opened HeaderCodec
  import opened Difficulty
  import opened Schedule
  import opened State
  import opened Merkle
  import opened History
  import opened Paths

  datatype ChainEntry = ChainEntry(block: Block, state: Ledger, totalWork: nat)

  type Tree = map<string, ChainEntry>

  datatype ChainState = ChainState(entries: Tree, bestHash: string)

  datatype Verdict = Extended | Fork | Known

  // ---- the tree ----

  /** Entries are filed under their hashes and hang, one height lower each, from the genesis block. */
  ghost predicate Linked(env: Env, entries: Tree) {
    && env.genesisHash in entries && entries[env.genesisHash].block == GenesisBlock(env)
    && forall h :: h in entries ==> LinkedAt(env, entries, h)
  }

  ghost predicate LinkedAt(env: Env, entries: Tree, h: string)
    requires h in entries
  {
    var b := entries[h].block;
    && b.hash == h
    && (h != env.genesisHash ==>
      && b.header.height >= 1 && b.header.previousHash in entries
      && entries[b.header.previousHash].block.header.height == b.header.height - 1)
  }

  /** The blocks from genesis to the block with hash `h`. */
  ghost function PathOf(env: Env, entries: Tree, h: string): (path: seq<Block>)
    requires Linked(env, entries) && h in entries
    ensures |path| == entries[h].block.header.height + 1 && Last(path) == entries[h].block
    decreases entries[h].block.header.height
  {
    assert LinkedAt(env, entries, h);
    var b := entries[h].block;
    if h == env.genesisHash then [b] else PathOf(env, entries, b.header.previousHash) + [b]
  }

  /** An entry holds a valid path, the replay of that path and its accumulated work. */
  ghost predicate EntryOk(env: Env, entries: Tree, h: string)
    requires Linked(env, entries) && h in entries
  {
    var path := PathOf(env, entries, h);
    && ValidPath(env, path)
    && entries[h].state == Replay(env, path)
    && entries[h].totalWork == Work(path)
  }

  ghost predicate Inv(env: Env, c: ChainState) {
    && Linked(env, c.entries)
    && (forall h :: h in c.entries ==> EntryOk(env, c.entries, h))
    && c.bestHash in c.entries
    && (forall h :: h in c.entries ==> c.entries[h].totalWork <= c.entries[c.bestHash].totalWork)
  }

  ghost function BestPath(env: Env, c: ChainState): seq<Block>
    requires Inv(env, c)
  {
    PathOf(env, c.entries, c.bestHash)
  }

  function GenesisEntry(env: Env): ChainEntry {
    ChainEntry(GenesisBlock(env), EMPTY_LEDGER, WorkOf(INITIAL_DIFFICULTY))
  }

  ghost function Genesis(env: Env): ChainState {
    ChainState(map[env.genesisHash := GenesisEntry(env)], env.genesisHash)
  }

  lemma GenesisInv(env: Env)
    ensures Inv(env, Genesis(env))
  {
    var c := Genesis(env);
    assert forall h :: h in c.entries ==> h == env.genesisHash;
    assert Linked(env, c.entries);
    var path := PathOf(env, c.entries, env.genesisHash);
    assert path == [GenesisBlock(env)] && path[..0] == [];
    assert Work(path) == Work(path[..0]) + WorkOf(INITIAL_DIFFICULTY);
  }

  // ---- one step ----

  datatype Step = Step(chain: ChainState, verdict: Option<Verdict>)

  /** The conditions under which a new block enters the tree. */
  ghost predicate Accepts(env: Env, nowMs: int, c: ChainState, b: Block)
    requires Linked(env, c.entries)
  {
    && b.hash !in c.entries
    && b.header.previousHash in c.entries
    && NotTooEarly(nowMs, b)
    && CheckBlock(env, PathOf(env, c.entries, b.header.previousHash), b)
  }

  ghost function EntryFor(env: Env, parent: ChainEntry, b: Block): ChainEntry {
    ChainEntry(b, AfterBlock(env, parent.state, b), parent.totalWork + WorkOf(b.header.difficulty))
  }

  /** A refused block yields no verdict and the same tree. */
  ghost function Add(env: Env, nowMs: int, c: ChainState, b: Block): Step
    requires Inv(env, c)
  {
    if Hex(b.hash, 64) && b.hash in c.entries then Step(c, Some(Known))
    else if !Accepts(env, nowMs, c, b) then Step(c, None)
    else
      var e := EntryFor(env, c.entries[b.header.previousHash], b);
      var entries := c.entries[b.hash := e];
      if e.totalWork > c.entries[c.bestHash].totalWork then Step(ChainState(entries, b.hash), Some(Extended))
      else Step(ChainState(entries, c.bestHash), Some(Fork))
  }

  /** The verdict says whether the block was there before, and whether the tip moved. */
  lemma VerdictMeans(env: Env, nowMs: int, c: ChainState, b: Block)
    requires Inv(env, c)
    ensures
      var step := Add(env, nowMs, c, b);
      step.verdict.Some? ==>
        && b.hash in step.chain.entries
        && (step.verdict.value == Known <==> b.hash in c.entries)
        && (step.verdict.value == Extended <==> step.chain.bestHash != c.bestHash)
        && (step.verdict.value == Extended ==> step.chain.bestHash == b.hash)
        && (step.verdict.value == Fork <==> b.hash !in c.entries && step.chain.bestHash == c.bestHash)
  {
    hide CheckBlock, EntryOk, EntryFor, Linked;
  }

  /** Adding entries below which nothing changes leaves the paths of the old ones alone. */
  lemma {:induction false} PathFrame(env: Env, small: Tree, large: Tree, h: string)
    requires Linked(env, small) && Linked(env, large) && h in small
    requires forall x :: x in small ==> x in large && large[x].block == small[x].block
    ensures PathOf(env, small, h) == PathOf(env, large, h)
    decreases small[h].block.header.height
  {
    assert LinkedAt(env, small, h);
    if h != env.genesisHash {
      PathFrame(env, small, large, small[h].block.header.previousHash);
    }
  }

  lemma ExtensionIsLinked(env: Env, entries: Tree, e: ChainEntry)
    requires Linked(env, entries) && e.block.hash !in entries && e.block.header.previousHash in entries
    requires LinkOk(PathOf(env, entries, e.block.header.previousHash), e.block)
    ensures Linked(env, entries[e.block.hash := e])
    ensures PathOf(env, entries[e.block.hash := e], e.block.hash)
            == PathOf(env, entries, e.block.header.previousHash) + [e.block]
    ensures forall h :: h in entries ==> PathOf(env, entries[e.block.hash := e], h) == PathOf(env, entries, h)
  {
    hide NextDifficulty, SeedOk, MedianTime;
    var parent := e.block.header.previousHash;
    var larger := entries[e.block.hash := e];
    assert entries[parent].block.header.height >= 0 by {
      assert |PathOf(env, entries, parent)| == entries[parent].block.header.height + 1;
    }
    forall h | h in larger ensures LinkedAt(env, larger, h) {
      if h != e.block.hash {
        assert LinkedAt(env, entries, h);
      }
    }
    forall h | h in entries ensures PathOf(env, larger, h) == PathOf(env, entries, h) {
      PathFrame(env, entries, larger, h);
    }
  }

  /** A longer valid path, its state and its work, in terms of the path without its tip. */
  lemma PathGrows(env: Env, path: seq<Block>, b: Block)
    requires ValidPath(env, path) && CheckBlock(env, path, b)
    ensures ValidPath(env, path + [b])
    ensures Replay(env, path + [b]) == AfterBlock(env, Replay(env, path), b)
    ensures Work(path + [b]) == Work(path) + WorkOf(b.header.difficulty)
  {
    hide CheckBlock, AfterBlock, WorkOf, GenesisBlock;
    assert (path + [b])[..|path|] == path;
  }

  lemma NewEntryOk(env: Env, entries: Tree, b: Block, e: ChainEntry)
    requires Linked(env, entries) && b.hash !in entries && b.header.previousHash in entries
    requires EntryOk(env, entries, b.header.previousHash)
    requires CheckBlock(env, PathOf(env, entries, b.header.previousHash), b)
    requires e == EntryFor(env, entries[b.header.previousHash], b)
    ensures Linked(env, entries[b.hash := e]) && EntryOk(env, entries[b.hash := e], b.hash)
    ensures forall h :: h in entries && EntryOk(env, entries, h) ==> EntryOk(env, entries[b.hash := e], h)
  {
    hide CheckBlock, AfterBlock, LinkOk, Linked, GenesisBlock, ValidPath, Replay, Work;
    var path := PathOf(env, entries, b.header.previousHash);
    LinkOfCheck(env, path, b);
    ExtensionIsLinked(env, entries, e);
    PathGrows(env, path, b);
  }

  /** Every step keeps the tree invariant, keeps all entries, and never lowers the best work. */
  lemma AddKeepsInv(env: Env, nowMs: int, c: ChainState, b: Block)
    requires Inv(env, c)
    ensures
      var d := Add(env, nowMs, c, b).chain;
      && Inv(env, d)
      && (forall h :: h in c.entries ==> h in d.entries && d.entries[h] == c.entries[h])
      && c.entries[c.bestHash].totalWork <= d.entries[d.bestHash].totalWork
      && (d.bestHash != c.bestHash ==> c.entries[c.bestHash].totalWork < d.entries[d.bestHash].totalWork)
  {
    hide CheckBlock, EntryOk, EntryFor;
    if !(Hex(b.hash, 64) && b.hash in c.entries) && Accepts(env, nowMs, c, b) {
      var e := EntryFor(env, c.entries[b.header.previousHash], b);
      NewEntryOk(env, c.entries, b, e);
    }
  }

  // ---- runs ----

  /** A block offered to the node, and the clock when it arrives. */
  datatype Offer = Offer(nowMs: int, block: Block)

  ghost function Run(env: Env, feed: seq<Offer>): (c: ChainState)
    ensures Inv(env, c)
  {
    GenesisInv(env);
    if |feed| == 0 then Genesis(env)
    else
      var c := Run(env, feed[..|feed| - 1]);
      var o := feed[|feed| - 1];
      AddKeepsInv(env, o.nowMs, c, o.block);
      Add(env, o.nowMs, c, o.block).chain
  }

  /** Along every run: entries are only added, and the best work never falls. */
  lemma {:induction false} RunsOnlyGrow(env: Env, feed: seq<Offer>, n: nat)
    requires n <= |feed|
    ensures
      var c, d := Run(env, feed[..n]), Run(env, feed);
      && (forall h :: h in c.entries ==> h in d.entries && d.entries[h] == c.entries[h])
      && c.entries[c.bestHash].totalWork <= d.entries[d.bestHash].totalWork
  {
    hide Inv, Add, Linked;
    if n == |feed| {
      assert feed[..n] == feed;
    } else {
      var m := |feed| - 1;
      RunsOnlyGrow(env, feed[..m], n);
      assert feed[..m][..n] == feed[..n];
      AddKeepsInv(env, feed[m].nowMs, Run(env, feed[..m]), feed[m].block);
    }
  }

  // ---- the class ----

  function Reversed<T>(s: seq<T>): (r: seq<T>)
    ensures |r| == |s|
  {
    if |s| == 0 then [] else [s[|s| - 1]] + Reversed(s[..|s| - 1])
  }

  lemma ReversedSnoc<T>(s: seq<T>, x: T)
    ensures Reversed(s + [x]) == [x] + Reversed(s)
  {
    assert (s + [x])[..|s|] == s;
  }

  /** One block of a path: the genesis block, or a block behind the path of its parent. */
  lemma PathStep(env: Env, entries: Tree, h: string)
    requires Linked(env, entries) && h in entries
    ensures
      var b := entries[h].block;
      if b.header.height == 0 then PathOf(env, entries, h) == [b]
      else
        && b.header.height > 0 && b.header.previousHash in entries
        && PathOf(env, entries, h) == PathOf(env, entries, b.header.previousHash) + [b]
  {
    assert LinkedAt(env, entries, h);
  }

  class ConsensusChain {
    const env: Env
    var entries: Tree
    var bestHash: string

    ghost function Snapshot(): ChainState
      reads this
    {
      ChainState(entries, bestHash)
    }

    ghost predicate Valid()
      reads this
    {
      Inv(env, Snapshot())
    }

    constructor (env: Env)
      ensures Valid() && this.env == env && Snapshot() == Genesis(env)
    {
      this.env := env;
      var genesis := GenesisBlock(env);
      var state := new UtxoState();
      entries := map[env.genesisHash :=
        ChainEntry(genesis, Ledger(state.entries, state.issuedPhotons), WorkOf(genesis.header.difficulty))];
      bestHash := env.genesisHash;
      new;
      GenesisInv(env);
    }

    /** The path of a stored block, collected from its tip and turned round. */
    method Ancestry(startHash: string) returns (path: seq<Block>)
      requires Linked(env, entries) && startHash in entries
      ensures path == PathOf(env, entries, startHash)
    {
      hide Linked, PathOf, GenesisBlock;
      var result: seq<Block> := [];
      var hash := startHash;
      while true
        invariant hash in entries
        invariant PathOf(env, entries, startHash) == PathOf(env, entries, hash) + Reversed(result)
        decreases |PathOf(env, entries, hash)|
      {
        PathStep(env, entries, hash);
        var entry := entries[hash];
        ReversedSnoc(result, entry.block);
        if entry.block.header.height == 0 {
          return Reversed(result + [entry.block]);
        }
        result := result + [entry.block];
        hash := entry.block.header.previousHash;
      }
    }

    /** The ancestor of a stored block at a height; above genesis the parent is always stored. */
    method Ancestor(startHash: string, height: nat) returns (r: Result<Block>)
      requires Linked(env, entries) && startHash in entries
      ensures r.Ok? <==> height < |PathOf(env, entries, startHash)|
      ensures r.Ok? ==> r.value == PathOf(env, entries, startHash)[height]
    {
      hide Linked, PathOf, GenesisBlock;
      var block := entries[startHash].block;
      ghost var hash := startHash;
      while block.header.height > height
        invariant hash in entries && block == entries[hash].block
        invariant PathOf(env, entries, hash) <= PathOf(env, entries, startHash)
        invariant height < |PathOf(env, entries, startHash)| ==> height <= block.header.height
        decreases block.header.height
      {
        PathStep(env, entries, hash);
        hash := block.header.previousHash;
        block := entries[block.header.previousHash].block;
      }
      if block.header.height != height {
        return Err("requested ancestor before genesis");
      }
      r := Ok(block);
    }

    method RecentSummaries(startHash: string) returns (s: seq<Summary>)
      requires Linked(env, entries) && startHash in entries
      ensures s == LastWindow(Summaries(PathOf(env, entries, startHash)), LWMA_WINDOW)
    {
      hide Linked, PathOf;
      var path := Ancestry(startHash);
      WindowOfMap(path, LWMA_WINDOW);
      s := Summaries(LastWindow(path, LWMA_WINDOW));
    }

    method ValidateLink(nowMs: int, parent: Block, block: Block) returns (r: Result<()>)
      requires Linked(env, entries) && parent.hash in entries && parent == entries[parent.hash].block
      ensures r.Ok? <==> LinkOk(PathOf(env, entries, parent.hash), block) && NotTooEarly(nowMs, block)
    {
      hide MedianOf, Next, ExpectedSeedHeight, Linked, PathOf, Summaries, Timestamps, LastWindow;
      var header := block.header;
      if header.version != parent.header.version {
        return Err("unsupported version");
      }
      if header.height != parent.header.height + 1 {
        return Err("height is not sequential");
      }
      var summaries := RecentSummaries(parent.hash);
      var expectedDifficulty := NextLwmaDifficulty(summaries);
      if expectedDifficulty.Err? {
        return Err(expectedDifficulty.error);
      }
      if header.difficulty != expectedDifficulty.value {
        return Err("difficulty mismatch");
      }
      var seedHeight := ExpectedSeedHeight(header.height);
      if seedHeight.Err? {
        return Err(seedHeight.error);
      }
      SeedHeightsAreNatural(header.height);
      var seedBlock := Ancestor(parent.hash, seedHeight.value);
      if seedBlock.Err? {
        return Err(seedBlock.error);
      }
      if header.powSeed != seedBlock.value.hash {
        return Err("PoW key epoch mismatch");
      }
      var path := Ancestry(parent.hash);
      var timestamps := Timestamps(LastWindow(path, MEDIAN_WINDOW));
      WindowOfMap(path, MEDIAN_WINDOW);
      if header.timestampSeconds <= MedianOf(timestamps) {
        return Err("timestamp not newer than median");
      }
      if header.timestampSeconds * 1000 > nowMs + TIMESTAMP_FUTURE_TOLERANCE_MS {
        return Err("timestamp too far in future");
      }
      r := Ok(());
    }

    /** Refines `Add`: the verdict, the new tree, and nothing at all when the block is refused. */
    method AddBlock(nowMs: int, block: Block) returns (r: Result<Verdict>)
      requires Valid()
      modifies this
      ensures Valid()
      ensures
        var step := Add(env, nowMs, old(Snapshot()), block);
        && Snapshot() == step.chain
        && (r.Ok? <==> step.verdict.Some?) && (r.Ok? ==> r.value == step.verdict.value)
      ensures r.Ok? ==>
        && (r.value == Known <==> block.hash in old(entries))
        && (r.value == Extended <==> bestHash != old(bestHash))
        && (r.value == Fork <==> block.hash !in old(entries) && bestHash == old(bestHash))
    {
      hide LinkOk, BodyOk, PowOk, BlockOk, AfterBlock, Work, ValidPath, Replay, TransactionsLength, PathOf, Linked;
      hide EntryOk, Hex, NotTooEarly, WorkOf;
      AddKeepsInv(env, nowMs, Snapshot(), block);
      if !Hex(block.hash, 64) {
        return Err("invalid block hash encoding");
      }
      if block.hash in entries {
        return Ok(Known);
      }
      var length := SerializedBlockBodyLength(block);
      if length > MAX_BLOCK_BODY_BYTES {
        return Err("block body exceeds maximum size");
      }
      if block.header.previousHash !in entries {
        return Err("unknown previous block");
      }
      var parentEntry := entries[block.header.previousHash];
      FiledUnderHash(env, entries, block.header.previousHash);
      StateIsReplay(env, Snapshot(), block.header.previousHash);
      var link := ValidateLink(nowMs, parentEntry.block, block);
      if link.Err? {
        return Err(link.error);
      }
      var body := ValidateBody(env, block);
      if body.Err? {
        return Err(body.error);
      }
      var proven := VerifyPow(env, block);
      if !proven {
        return Err("invalid proof of work");
      }
      StatesAreKeyed(env, entries, block.header.previousHash);
      var state := new UtxoState.Copy(parentEntry.state);
      var applied := state.ApplyBlock(env, block);
      if applied.Err? {
        return Err(applied.error);
      }
      var totalWork := parentEntry.totalWork + WorkOf(block.header.difficulty);
      entries := entries[block.hash := ChainEntry(block, Ledger(state.entries, state.issuedPhotons), totalWork)];
      if totalWork > entries[bestHash].totalWork {
        bestHash := block.hash;
        r := Ok(Extended);
      } else {
        r := Ok(Fork);
      }
    }

    /** What a miner needs for a block on the best tip. */
    method NextConsensusData() returns (r: Result<NextData>)
      requires Valid()
      ensures
        var next := NextFor(BestPath(env, Snapshot()));
        (r.Ok? <==> next.Some?) && (r.Ok? ==> r.value == next.value)
    {
      hide Next, ExpectedSeedHeight, ValidPath, Linked, PathOf;
      FiledUnderHash(env, entries, bestHash);
      var parent := entries[bestHash].block;
      var nextHeight := parent.header.height + 1;
      var seedHeight := ExpectedSeedHeight(nextHeight);
      if seedHeight.Err? {
        return Err(seedHeight.error);
      }
      SeedHeightsAreNatural(nextHeight);
      var seedBlock := Ancestor(parent.hash, seedHeight.value);
      if seedBlock.Err? {
        return Err(seedBlock.error);
      }
      var summaries := RecentSummaries(parent.hash);
      var difficulty := NextLwmaDifficulty(summaries);
      if difficulty.Err? {
        return Err(difficulty.error);
      }
      r := Ok(NextData(nextHeight, difficulty.value, seedBlock.value.hash));
    }

    /** The block at a height of the best chain. */
    method ChainAtHeight(height: int) returns (b: Option<Block>)
      requires Valid()
      ensures b == BlockAt(BestPath(env, Snapshot()), height)
    {
      if height < 0 || height > MAX_SAFE_INTEGER {
        return None;
      }
      var path := Ancestry(bestHash);
      b := if height < |path| then Some(path[height]) else None;
    }
  }

  datatype NextData = NextData(height: int, difficulty: int, powSeed: string)

  /** What the next block on a path needs, where the retarget and the schedule provide it. */
  ghost function NextFor(path: seq<Block>): Option<NextData>
    requires |path| > 0
  {
    var height := Last(path).header.height + 1;
    var seed := ExpectedSeedHeight(height);
    if NextDifficulty(path).None? || seed.Err? || !(0 <= seed.value < |path|) then None
    else Some(NextData(height, NextDifficulty(path).value, path[seed.value].hash))
  }

  /** On an accepted path only the retarget can stand in the way of a next block. */
  lemma OnlyRetargetFails(env: Env, path: seq<Block>)
    requires ValidPath(env, path)
    ensures NextFor(path).Some? <==> NextDifficulty(path).Some?
  {
    hide ValidPath, NextDifficulty, ExpectedSeedHeight;
    SeedAlwaysExists(env, path);
  }

  function BlockAt(path: seq<Block>, height: int): Option<Block> {
    if 0 <= height < |path| && height <= MAX_SAFE_INTEGER then Some(path[height]) else None
  }

  lemma StateIsReplay(env: Env, c: ChainState, h: string)
    requires Inv(env, c) && h in c.entries
    ensures c.entries[h].state == Replay(env, PathOf(env, c.entries, h)) && EntryOk(env, c.entries, h)
  {
    hide Linked, PathOf, Replay, ValidPath, Work;
    assert EntryOk(env, c.entries, h);
  }

  lemma FiledUnderHash(env: Env, entries: Tree, h: string)
    requires Linked(env, entries) && h in entries
    ensures entries[h].block.hash == h
  {
    assert LinkedAt(env, entries, h);
  }

  /** Entries of stored states are filed under their own keys. */
  lemma StatesAreKeyed(env: Env, entries: Tree, h: string)
    requires Linked(env, entries) && h in entries && EntryOk(env, entries, h)
    ensures Keyed(entries[h].state.entries)
  {
    ReplayIsKeyed(env, PathOf(env, entries, h));
  }

  lemma {:induction false} ReplayIsKeyed(env: Env, path: seq<Block>)
    ensures Keyed(Replay(env, path).entries)
  {
    hide AfterTransactions, CoinbaseId;
    if |path| > 1 {
      ReplayIsKeyed(env, path[..|path| - 1]);
      var b := path[|path| - 1];
      AfterTransactionsKeyed(env, Replay(env, path[..|path| - 1]).entries, b.transactions, b.header.height);
    }
  }

  method OutputsLengthOf(outputs: seq<Output>) returns (length: nat)
    ensures length == OutputsLength(outputs)
  {
    length := 0;
    for k := 0 to |outputs|
      invariant length == OutputsLength(outputs[..k])
    {
      assert outputs[..k + 1][..k] == outputs[..k];
      length := length + 1 + |outputs[k].address| + 8;
    }
    assert outputs[..|outputs|] == outputs;
  }

  method SerializedBlockBodyLength(b: Block) returns (length: nat)
    ensures length == TransactionsLength(b.transactions)
  {
    length := 4;
    var txs := b.transactions;
    for k := 0 to |txs|
      invariant length == TransactionsLength(txs[..k])
    {
      assert txs[..k + 1][..k] == txs[..k];
      var outputs := OutputsLengthOf(txs[k].outputs);
      length := length + 4 + |txs[k].inputs| * 36 + outputs + (8 + 66 + 64);
    }
    assert txs[..|txs|] == txs;
  }

  method ValidateBody(env: Env, b: Block) returns (r: Result<()>)
    ensures r.Ok? <==> BodyOk(env, b)
  {
    hide Shaped, TransactionIds, MerkleRoot, AmountsParse;
    var txids := CollectIds(env, b.transactions);
    if txids.Err? {
      return Err(txids.error);
    }
    var root := CalculateMerkleRoot(env, b.header.height, b.coinbase, txids.value);
    if root.Err? {
      return Err(root.error);
    }
    if root.value != b.header.merkleRoot {
      return Err("merkle root mismatch");
    }
    if b.coinbase.Some?
       && (|b.coinbase.value.outputs| == 0 || b.coinbase.value.outputs[0].address != b.header.payoutAddress) {
      return Err("payout commitment does not match coinbase");
    }
    r := Ok(());
  }

  method VerifyPow(env: Env, b: Block) returns (ok: bool)
    ensures ok == PowOk(env, b)
  {
    hide Encodable, Blob;
    var blob := SerializeHeader(b.header, b.nonce);
    ok := blob.Ok? && env.verifyPow(blob.value, b.hash, b.header.difficulty);
  }
}
