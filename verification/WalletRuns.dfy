/** Whole runs of the wallet's chain database: appendBlocks and truncate in any order. */
module WalletRuns {
  import opened Prelude
  import opened Types
  import opened SigningText
  import opened History
  import opened WalletTables
  import opened WalletIndex
  import opened WalletRollback
  import opened WalletStore

  // ---- the block table of an indexed path ----

  /** The block table holds the path. */
  ghost predicate TableOf(t: Tables, path: seq<Block>) {
    && (forall h :: h in t.blocks <==> 0 <= h < |path|)
    && forall h :: 0 <= h < |path| ==>
      t.blocks[h] == BlockRow(path[h].hash, path[h].header.previousHash, path[h].header.timestampSeconds,
                              path[h].(transactions := []))
  }

  lemma {:induction false} BlocksOfIndex(env: Env, wallet: set<string>, path: seq<Block>)
    requires HeightsCount(path)
    ensures TableOf(IndexOf(env, wallet, path), path)
  {
    hide IndexBlock;
    if |path| > 0 {
      var init := path[..|path| - 1];
      BlocksOfIndex(env, wallet, init);
      BlocksOf(env, wallet, IndexOf(env, wallet, init), path[|path| - 1]);
    }
  }

  lemma TipOfTable(t: Tables, path: seq<Block>)
    requires TableOf(t, path)
    ensures IsTip(t, |path| - 1)
  {
  }

  // ---- batches ----

  predicate NamesGenesisParent(b: Block) {
    b.header.previousHash == "" || b.header.previousHash == Zeros64()
  }

  /** `b` continues the path: next height, and the hash of the tip as predecessor. */
  ghost predicate Continues(env: Env, path: seq<Block>, b: Block) {
    && b.header.height == |path|
    && (if |path| == 0 then NamesGenesisParent(b)
        else b.header.previousHash == path[|path| - 1].hash && path[|path| - 1].hash != "")
    && (b.coinbase.Some? ==> AmountsParse(b.coinbase.value.outputs))
    && forall k :: 0 <= k < |b.transactions| ==> ShapeOk(env, b.transactions[k])
  }

  ghost predicate ContinuesAll(env: Env, path: seq<Block>, batch: seq<Block>) {
    forall k :: 0 <= k < |batch| ==> Continues(env, path + batch[..k], batch[k])
  }

  /** Heights rise strictly, all above the tip. */
  ghost predicate RisingAbove(batch: seq<Block>, tip: int) {
    && (forall k :: 0 <= k < |batch| ==> batch[k].header.height > tip)
    && forall j, k :: 0 <= j < k < |batch| ==> batch[j].header.height < batch[k].header.height
  }

  lemma {:induction false} InsertSorts(rows: seq<Block>, b: Block)
    requires Ascending(rows)
    ensures Ascending(InsertBlock(rows, b))
    ensures forall x :: x in InsertBlock(rows, b) <==> x in rows || x == b
  {
    if |rows| > 0 && rows[|rows| - 1].header.height > b.header.height {
      var init, last := rows[..|rows| - 1], rows[|rows| - 1];
      InsertSorts(init, b);
      assert rows == init + [last];
      forall x | x in InsertBlock(init, b) ensures x.header.height <= last.header.height {
      }
    }
  }

  lemma {:induction false} SortSorts(blocks: seq<Block>)
    ensures Ascending(SortByHeight(blocks))
    ensures forall x :: x in SortByHeight(blocks) <==> x in blocks
  {
    if |blocks| > 0 {
      var init := blocks[..|blocks| - 1];
      SortSorts(init);
      InsertSorts(SortByHeight(init), blocks[|blocks| - 1]);
      assert blocks == init + [blocks[|blocks| - 1]];
    }
  }

  lemma {:induction false} InHeights(batch: seq<Block>, h: int)
    ensures h in Heights(batch) <==> exists k :: 0 <= k < |batch| && batch[k].header.height == h
  {
    if |batch| > 0 {
      InHeights(batch[..|batch| - 1], h);
    }
  }

  lemma {:induction false} NewOnesAreOld(sorted: seq<Block>, tip: int)
    ensures forall b :: b in NewOnes(sorted, tip) ==> b in sorted
  {
    if |sorted| > 0 {
      var init := sorted[..|sorted| - 1];
      NewOnesAreOld(init, tip);
      assert sorted == init + [sorted[|sorted| - 1]];
    }
  }

  lemma RisingStep(kept: seq<Block>, b: Block, tip: int)
    requires RisingAbove(kept, tip) && b.header.height > tip
    requires forall k :: 0 <= k < |kept| ==> kept[k].header.height < b.header.height
    ensures RisingAbove(kept + [b], tip)
  {
  }

  lemma {:induction false} NewOnesRise(sorted: seq<Block>, tip: int)
    requires Ascending(sorted)
    ensures RisingAbove(NewOnes(sorted, tip), tip)
  {
    hide RisingAbove, Heights;
    if |sorted| > 0 {
      var init, last := sorted[..|sorted| - 1], sorted[|sorted| - 1];
      NewOnesRise(init, tip);
      NewOnesAreOld(init, tip);
      var kept := NewOnes(init, tip);
      InHeights(kept, last.header.height);
      forall k | 0 <= k < |kept| ensures kept[k].header.height <= last.header.height {
        assert kept[k] in init;
      }
      if last.header.height > tip && last.header.height !in Heights(kept) {
        RisingStep(kept, last, tip);
      }
    } else {
      NoneRise(tip);
    }
  }

  lemma NoneRise(tip: int)
    ensures RisingAbove([], tip)
  {
  }

  lemma {:induction false} HashesOfRising(batch: seq<Block>, tip: int)
    requires RisingAbove(batch, tip)
    ensures forall k :: 0 <= k < |batch| ==>
      batch[k].header.height in HashAtHeight(batch) && HashAtHeight(batch)[batch[k].header.height] == batch[k].hash
    ensures forall h :: h in HashAtHeight(batch) ==> exists k :: 0 <= k < |batch| && batch[k].header.height == h
  {
    if |batch| > 0 {
      var init, n := batch[..|batch| - 1], |batch| - 1;
      HashesOfRising(init, tip);
      forall h | h in HashAtHeight(batch) ensures exists k :: 0 <= k < |batch| && batch[k].header.height == h {
        if h in HashAtHeight(init) {
          var k :| 0 <= k < |init| && init[k].header.height == h;
          assert batch[k].header.height == h;
        } else {
          assert batch[n].header.height == h;
        }
      }
      forall k | 0 <= k < |batch|
        ensures batch[k].header.height in HashAtHeight(batch)
          && HashAtHeight(batch)[batch[k].header.height] == batch[k].hash
      {
        assert k < n ==> init[k] == batch[k];
      }
    }
  }

  lemma HashOfBatch(batch: seq<Block>, tip: int, k: nat)
    requires RisingAbove(batch, tip) && k < |batch|
    ensures batch[k].header.height in HashAtHeight(batch)
      && HashAtHeight(batch)[batch[k].header.height] == batch[k].hash
  {
    hide HashAtHeight, RisingAbove;
    HashesOfRising(batch, tip);
  }

  lemma BatchHas(batch: seq<Block>, tip: int, h: int) returns (k: nat)
    requires RisingAbove(batch, tip) && h in HashAtHeight(batch)
    ensures k < |batch| && batch[k].header.height == h && h > tip
  {
    hide HashAtHeight;
    HashesOfRising(batch, tip);
    k :| 0 <= k < |batch| && batch[k].header.height == h;
  }

  /** The hash found one height below the `k`th block, when the heights count on from the path. */
  lemma PrevFound(t: Tables, path: seq<Block>, batch: seq<Block>, k: nat)
    requires TableOf(t, path) && RisingAbove(batch, |path| - 1) && k < |batch|
    requires k > 0 ==> batch[k - 1].header.height == |path| + k - 1
    ensures PrevHashAt(t, HashAtHeight(batch), |path| + k - 1)
      == if k > 0 then Some(batch[k - 1].hash) else if |path| > 0 then Some(path[|path| - 1].hash) else None
  {
    hide HashAtHeight, RisingAbove;
    if k > 0 {
      HashOfBatch(batch, |path| - 1, k - 1);
    } else if |path| - 1 in HashAtHeight(batch) {
      var i := BatchHas(batch, |path| - 1, |path| - 1);
    }
  }

  /** Where the heights of the batch count on from the path, the link check compares with the block below. */
  lemma LinkMeans(env: Env, t: Tables, path: seq<Block>, batch: seq<Block>, k: nat)
    requires TableOf(t, path) && RisingAbove(batch, |path| - 1) && k < |batch|
    requires batch[k].header.height == |path| + k && (k > 0 ==> batch[k - 1].header.height == |path| + k - 1)
    ensures
      (LinksIn(t, HashAtHeight(batch), batch[k]) && Readable(env, batch[k]))
      <==> Continues(env, path + batch[..k], batch[k])
  {
    hide ShapeOk, AmountsParse, HashAtHeight, TableOf, RisingAbove, PrevHashAt;
    PrevFound(t, path, batch, k);
    var below := path + batch[..k];
    assert |below| == |path| + k;
    assert |below| > 0 ==> below[|below| - 1] == if k > 0 then batch[k - 1] else path[|path| - 1];
  }

  lemma LinkedHeight(t: Tables, path: seq<Block>, batch: seq<Block>, k: nat)
    requires TableOf(t, path) && RisingAbove(batch, |path| - 1) && k < |batch|
    requires LinksIn(t, HashAtHeight(batch), batch[k])
    requires k > 0 ==> batch[k - 1].header.height == |path| + k - 1
    ensures batch[k].header.height == |path| + k
  {
    hide HashAtHeight;
    var h := batch[k].header.height;
    if h > 0 && h - 1 in HashAtHeight(batch) {
      var i := BatchHas(batch, |path| - 1, h - 1);
      assert i < k;
    }
  }

  /** Linked batches have no gap. */
  lemma {:induction false} LinkedHeights(t: Tables, path: seq<Block>, batch: seq<Block>, k: nat)
    requires TableOf(t, path) && RisingAbove(batch, |path| - 1) && k < |batch|
    requires forall j :: 0 <= j < |batch| ==> LinksIn(t, HashAtHeight(batch), batch[j])
    ensures batch[k].header.height == |path| + k
  {
    hide HashAtHeight, LinksIn, TableOf, RisingAbove;
    if k > 0 {
      LinkedHeights(t, path, batch, k - 1);
    }
    LinkedHeight(t, path, batch, k);
  }

  /** The link check of a batch accepts exactly the continuations of the chain. */
  lemma AppendableMeans(env: Env, t: Tables, path: seq<Block>, batch: seq<Block>)
    requires TableOf(t, path) && RisingAbove(batch, |path| - 1)
    ensures Appendable(env, t, batch) <==> ContinuesAll(env, path, batch)
  {
    hide LinksIn, Readable, HashAtHeight, TableOf, RisingAbove;
    if Appendable(env, t, batch) {
      forall k | 0 <= k < |batch| ensures Continues(env, path + batch[..k], batch[k]) {
        LinkedHeights(t, path, batch, k);
        if k > 0 {
          LinkedHeights(t, path, batch, k - 1);
        }
        LinkMeans(env, t, path, batch, k);
      }
    }
    if ContinuesAll(env, path, batch) {
      forall k | 0 <= k < |batch| ensures LinksIn(t, HashAtHeight(batch), batch[k]) && Readable(env, batch[k]) {
        assert Continues(env, path + batch[..k], batch[k]);
        assert k > 0 ==> Continues(env, path + batch[..k - 1], batch[k - 1]);
        LinkMeans(env, t, path, batch, k);
      }
    }
  }

  // ---- what a batch takes ----

  /** The first block of a height. */
  function FirstAt(blocks: seq<Block>, h: int): Option<Block> {
    if |blocks| == 0 then None
    else
      var found, last := FirstAt(blocks[..|blocks| - 1], h), blocks[|blocks| - 1];
      if found.None? && last.header.height == h then Some(last) else found
  }

  lemma {:induction false} FirstInserted(rows: seq<Block>, b: Block, h: int)
    ensures FirstAt(InsertBlock(rows, b), h) == FirstAt(rows + [b], h)
  {
    assert (rows + [b])[..|rows|] == rows;
    if |rows| > 0 && rows[|rows| - 1].header.height > b.header.height {
      var init, last := rows[..|rows| - 1], rows[|rows| - 1];
      FirstInserted(init, b, h);
      var inserted := InsertBlock(init, b);
      assert (inserted + [last])[..|inserted|] == inserted;
      assert (init + [b])[..|init|] == init;
    }
  }

  lemma {:induction false} FirstSorted(blocks: seq<Block>, h: int)
    ensures FirstAt(SortByHeight(blocks), h) == FirstAt(blocks, h)
  {
    if |blocks| > 0 {
      var init, last := blocks[..|blocks| - 1], blocks[|blocks| - 1];
      FirstSorted(init, h);
      FirstInserted(SortByHeight(init), last, h);
      var rows := SortByHeight(init);
      assert (rows + [last])[..|rows|] == rows;
    }
  }

  lemma {:induction false} FirstIsThere(blocks: seq<Block>, h: int)
    ensures FirstAt(blocks, h).Some? <==> h in Heights(blocks)
  {
    if |blocks| > 0 {
      FirstIsThere(blocks[..|blocks| - 1], h);
    }
  }

  lemma {:induction false} FirstNew(sorted: seq<Block>, tip: int, h: int)
    ensures FirstAt(NewOnes(sorted, tip), h) == if h > tip then FirstAt(sorted, h) else None
  {
    if |sorted| > 0 {
      var init, last := sorted[..|sorted| - 1], sorted[|sorted| - 1];
      FirstNew(init, tip, h);
      FirstIsThere(NewOnes(init, tip), last.header.height);
      FirstIsThere(NewOnes(init, tip), h);
      var kept := NewOnes(init, tip);
      assert (kept + [last])[..|kept|] == kept;
    }
  }

  /** Of the blocks of a height above the tip a batch takes the first one, and nothing else. */
  lemma BatchTakesFirst(blocks: seq<Block>, tip: int, h: int)
    ensures FirstAt(Batch(blocks, tip), h) == if h > tip then FirstAt(blocks, h) else None
  {
    hide FirstAt, SortByHeight, NewOnes;
    FirstSorted(blocks, h);
    FirstNew(SortByHeight(blocks), tip, h);
  }

  // ---- runs ----

  datatype Op = Append(blocks: seq<Block>) | Truncate(height: int)

  /** What a call does to the chain that the wallet follows. */
  ghost function PathAfter(env: Env, path: seq<Block>, op: Op): seq<Block> {
    match op
    case Append(blocks) =>
      var batch := Batch(blocks, |path| - 1);
      if ContinuesAll(env, path, batch) then path + batch else path
    case Truncate(height) => UpTo(path, height)
  }

  /** What a call does to the tables. */
  ghost function TablesAfter(env: Env, wallet: set<string>, t: Tables, tip: int, op: Op): Tables {
    match op
    case Append(blocks) => AfterAppend(env, wallet, t, tip, blocks)
    case Truncate(height) => Truncated(t, height)
  }

  ghost function RunPath(env: Env, ops: seq<Op>): seq<Block> {
    if |ops| == 0 then [] else PathAfter(env, RunPath(env, ops[..|ops| - 1]), ops[|ops| - 1])
  }

  ghost function RunTables(env: Env, wallet: set<string>, ops: seq<Op>): Tables {
    if |ops| == 0 then NO_TABLES
    else
      TablesAfter(env, wallet, RunTables(env, wallet, ops[..|ops| - 1]), |RunPath(env, ops[..|ops| - 1])| - 1,
        ops[|ops| - 1])
  }

  // ---- the block table follows the chain ----

  lemma BatchRises(path: seq<Block>, blocks: seq<Block>)
    ensures RisingAbove(Batch(blocks, |path| - 1), |path| - 1)
  {
    hide NewOnes, SortByHeight, RisingAbove;
    SortSorts(blocks);
    NewOnesRise(SortByHeight(blocks), |path| - 1);
  }

  lemma TableNext(t: Tables, after: Tables, path: seq<Block>, b: Block)
    requires TableOf(t, path) && HeightsCount(path) && b.header.height == |path|
    requires after.blocks == StoreBlock(t, b).blocks
    ensures TableOf(after, path + [b]) && HeightsCount(path + [b])
  {
  }

  lemma ContinuesInit(env: Env, path: seq<Block>, batch: seq<Block>)
    requires ContinuesAll(env, path, batch) && |batch| > 0
    ensures ContinuesAll(env, path, batch[..|batch| - 1])
    ensures Continues(env, path + batch[..|batch| - 1], batch[|batch| - 1])
  {
    hide Continues;
    var init := batch[..|batch| - 1];
    forall k | 0 <= k < |init| ensures Continues(env, path + init[..k], init[k]) {
      assert init[..k] == batch[..k];
    }
  }

  lemma {:induction false} TableGrows(
    env: Env, wallet: set<string>, t: Tables, path: seq<Block>, batch: seq<Block>)
    requires TableOf(t, path) && HeightsCount(path) && ContinuesAll(env, path, batch)
    ensures TableOf(IndexBlocks(env, wallet, t, batch), path + batch) && HeightsCount(path + batch)
  {
    hide IndexBlock, Readable, TableOf, HeightsCount, ContinuesAll;
    if |batch| == 0 {
      assert path + batch == path;
    } else {
      var init, b := batch[..|batch| - 1], batch[|batch| - 1];
      ContinuesInit(env, path, batch);
      TableGrows(env, wallet, t, path, init);
      BlocksOf(env, wallet, IndexBlocks(env, wallet, t, init), b);
      TableNext(IndexBlocks(env, wallet, t, init), IndexBlocks(env, wallet, t, batch), path + init, b);
      assert path + batch == path + init + [b];
    }
  }

  lemma TableShrinks(t: Tables, path: seq<Block>, height: int)
    requires TableOf(t, path) && HeightsCount(path)
    ensures TableOf(Truncated(t, height), UpTo(path, height)) && HeightsCount(UpTo(path, height))
  {
    hide Erase;
  }

  /** Whatever the calls are, the block table holds the chain that the wallet follows. */
  lemma {:induction false} RunBlocks(env: Env, wallet: set<string>, ops: seq<Op>)
    ensures TableOf(RunTables(env, wallet, ops), RunPath(env, ops)) && HeightsCount(RunPath(env, ops))
    ensures IsTip(RunTables(env, wallet, ops), |RunPath(env, ops)| - 1)
  {
    hide TableOf, HeightsCount, IsTip, Truncated, UpTo, Batch, Appendable, ContinuesAll, IndexBlocks, RisingAbove;
    if |ops| == 0 {
      NothingFollowed();
    } else {
      var init := ops[..|ops| - 1];
      var t, path := RunTables(env, wallet, init), RunPath(env, init);
      RunBlocks(env, wallet, init);
      match ops[|ops| - 1] {
        case Truncate(height) => TableShrinks(t, path, height);
        case Append(blocks) =>
          BatchRises(path, blocks);
          AppendableMeans(env, t, path, Batch(blocks, |path| - 1));
          if ContinuesAll(env, path, Batch(blocks, |path| - 1)) {
            TableGrows(env, wallet, t, path, Batch(blocks, |path| - 1));
          }
      }
    }
    TipOfTable(RunTables(env, wallet, ops), RunPath(env, ops));
  }

  lemma NothingFollowed()
    ensures TableOf(NO_TABLES, []) && HeightsCount([])
  {
  }

  // ---- all tables follow the chain ----

  /** After `n` calls the tables are those of the followed chain, as if it had been indexed from scratch. */
  ghost predicate IndexedAt(env: Env, wallet: set<string>, ops: seq<Op>, n: nat)
    requires n <= |ops|
  {
    RunTables(env, wallet, ops[..n]) == IndexOf(env, wallet, RunPath(env, ops[..n]))
  }

  /** A rollback meets no transaction that spends an output noted as spent below. */
  ghost predicate RollsBackAt(env: Env, wallet: set<string>, ops: seq<Op>, n: nat)
    requires n < |ops|
  {
    match ops[n]
    case Append(_) => true
    case Truncate(height) =>
      var path := RunPath(env, ops[..n]);
      Loose(IndexOf(env, wallet, UpTo(path, height)).outputs, SpentIn(Above(path, height)), {})
  }

  /** No two transactions of the followed chain share an identifier, at any moment. */
  ghost predicate DistinctRun(env: Env, ops: seq<Op>) {
    forall n :: 0 <= n <= |ops| ==> DistinctAt(env, ops, n)
  }

  ghost predicate DistinctAt(env: Env, ops: seq<Op>, n: nat)
    requires n <= |ops|
  {
    FreshBlocks(env, {}, RunPath(env, ops[..n]))
  }

  lemma AppendStep(env: Env, wallet: set<string>, path: seq<Block>, blocks: seq<Block>)
    requires HeightsCount(path)
    ensures
      AfterAppend(env, wallet, IndexOf(env, wallet, path), |path| - 1, blocks)
      == IndexOf(env, wallet, PathAfter(env, path, Append(blocks)))
  {
    hide Batch, Appendable, ContinuesAll, IndexBlocks, IndexOf, RisingAbove;
    BlocksOfIndex(env, wallet, path);
    BatchRises(path, blocks);
    var batch := Batch(blocks, |path| - 1);
    AppendableMeans(env, IndexOf(env, wallet, path), path, batch);
    IndexBlocksOf(env, wallet, path, batch);
  }

  lemma RunStep(env: Env, wallet: set<string>, ops: seq<Op>, n: nat)
    requires n < |ops|
    ensures RunPath(env, ops[..n + 1]) == PathAfter(env, RunPath(env, ops[..n]), ops[n])
    ensures RunTables(env, wallet, ops[..n + 1])
      == TablesAfter(env, wallet, RunTables(env, wallet, ops[..n]), |RunPath(env, ops[..n])| - 1, ops[n])
  {
    hide PathAfter, TablesAfter;
    assert ops[..n + 1][..n] == ops[..n];
  }

  lemma OneCall(env: Env, wallet: set<string>, ops: seq<Op>, n: nat)
    requires n < |ops| && IndexedAt(env, wallet, ops, n) && DistinctAt(env, ops, n)
    ensures IndexedAt(env, wallet, ops, n + 1) <==> RollsBackAt(env, wallet, ops, n)
  {
    hide RunPath, RunTables, IndexOf, Truncated, AfterAppend, FreshBlocks, HeightsCount, TableOf, Loose, UpTo, Above;
    hide SpentIn, IsTip;
    var path := RunPath(env, ops[..n]);
    RunStep(env, wallet, ops, n);
    RunBlocks(env, wallet, ops[..n]);
    match ops[n] {
      case Append(blocks) => AppendStep(env, wallet, path, blocks);
      case Truncate(height) => RollbackUndoesAppend(env, wallet, path, height);
    }
  }

  lemma IndexedAtStart(env: Env, wallet: set<string>, ops: seq<Op>)
    ensures IndexedAt(env, wallet, ops, 0)
  {
    assert ops[..0] == [];
  }

  lemma {:induction false} IndexedUpTo(env: Env, wallet: set<string>, ops: seq<Op>, n: nat)
    requires DistinctRun(env, ops) && n <= |ops|
    requires forall k :: 0 <= k < n ==> RollsBackAt(env, wallet, ops, k)
    ensures IndexedAt(env, wallet, ops, n)
  {
    hide IndexedAt, RollsBackAt, DistinctAt;
    if n == 0 {
      IndexedAtStart(env, wallet, ops);
    } else {
      IndexedUpTo(env, wallet, ops, n - 1);
      assert DistinctAt(env, ops, n - 1);
      OneCall(env, wallet, ops, n - 1);
    }
  }

  /**
   * Over any calls of appendBlocks and truncate that keep identifiers distinct, the tables are at every moment those
   * of the followed chain exactly when no rollback meets a transaction that spends an output noted as spent below.
   */
  lemma RunIndexes(env: Env, wallet: set<string>, ops: seq<Op>)
    requires DistinctRun(env, ops)
    ensures
      (forall n :: 0 <= n <= |ops| ==> IndexedAt(env, wallet, ops, n))
      <==> (forall n :: 0 <= n < |ops| ==> RollsBackAt(env, wallet, ops, n))
  {
    hide IndexedAt, RollsBackAt, DistinctAt;
    if forall n :: 0 <= n < |ops| ==> RollsBackAt(env, wallet, ops, n) {
      forall n | 0 <= n <= |ops| ensures IndexedAt(env, wallet, ops, n) {
        IndexedUpTo(env, wallet, ops, n);
      }
    }
    if forall n :: 0 <= n <= |ops| ==> IndexedAt(env, wallet, ops, n) {
      forall n | 0 <= n < |ops| ensures RollsBackAt(env, wallet, ops, n) {
        assert IndexedAt(env, wallet, ops, n) && IndexedAt(env, wallet, ops, n + 1) && DistinctAt(env, ops, n);
        OneCall(env, wallet, ops, n);
      }
    }
  }

  // ---- chains that consensus applies ----

  /** At every moment of the run the followed chain is one that consensus applies. */
  ghost predicate ValidRun(env: Env, ops: seq<Op>) {
    forall n :: 0 <= n <= |ops| ==> ValidAt(env, ops, n)
  }

  ghost predicate ValidAt(env: Env, ops: seq<Op>, n: nat)
    requires n <= |ops|
  {
    WalletPath(env, RunPath(env, ops[..n]))
  }

  lemma ValidMoment(env: Env, wallet: set<string>, ops: seq<Op>, n: nat)
    requires n <= |ops| && ValidAt(env, ops, n)
    ensures DistinctAt(env, ops, n) && (n < |ops| ==> RollsBackAt(env, wallet, ops, n))
  {
    hide RunPath, IndexOf, Truncated, FreshBlocks, Loose, UpTo, Above, SpentIn, WalletPath;
    var path := RunPath(env, ops[..n]);
    AppliedIsIndexable(env, path);
    if n < |ops| {
      match ops[n]
      case Append(_) =>
      case Truncate(height) =>
        AppliedRollsBack(env, wallet, path, height);
        RollbackUndoesAppend(env, wallet, path, height);
    }
  }

  lemma ValidRunIndexes(env: Env, wallet: set<string>, ops: seq<Op>)
    requires ValidRun(env, ops)
    ensures RunTables(env, wallet, ops) == IndexOf(env, wallet, RunPath(env, ops))
  {
    hide ValidAt, DistinctAt, RollsBackAt, RunPath, RunTables, IndexOf;
    forall n | 0 <= n <= |ops| ensures DistinctAt(env, ops, n) && (n < |ops| ==> RollsBackAt(env, wallet, ops, n)) {
      assert ValidAt(env, ops, n);
      ValidMoment(env, wallet, ops, n);
    }
    IndexedUpTo(env, wallet, ops, |ops|);
    assert ops[..|ops|] == ops;
  }

  /**
   * So on such runs, at every moment and for own and foreign addresses, the balance and the spendable outputs that
   * the wallet reports are those of the consensus state of the chain it follows.
   */
  lemma WalletRefinesConsensus(env: Env, wallet: set<string>, ops: seq<Op>, address: string, currentHeight: int)
    requires ValidRun(env, ops)
    ensures Reports(
      RowsFor(wallet, RunTables(env, wallet, ops), address), Replay(env, RunPath(env, ops)), address, currentHeight)
  {
    hide WalletPath, RunPath, RunTables, IndexOf, RowsFor, Reports, Replay;
    assert ops[..|ops|] == ops;
    assert ValidAt(env, ops, |ops|);
    ValidRunIndexes(env, wallet, ops);
    IndexRefinesState(env, wallet, RunPath(env, ops), address, currentHeight);
  }

  // ---- the linkage check ----

  datatype ChainRow = ChainRow(height: int, hash: string, prevHash: string)

  ghost predicate RowsLinked(rows: seq<ChainRow>, genesisHash: Option<string>) {
    && (forall i :: 0 <= i < |rows| ==> rows[i].height == rows[0].height + i)
    && (forall i :: 0 < i < |rows| ==> rows[i].prevHash == rows[i - 1].hash)
    && (|rows| > 0 && rows[0].height == 0 ==>
      && (rows[0].prevHash == "" || rows[0].prevHash == Zeros64())
      && (genesisHash.Some? && genesisHash.value != "" ==> rows[0].hash == genesisHash.value))
  }

  method ChainLinkageError(rows: seq<ChainRow>, genesisHash: Option<string>) returns (error: Option<string>)
    ensures error.None? <==>
      && (forall i :: 0 <= i < |rows| ==> rows[i].height == rows[0].height + i)
      && (forall i :: 0 < i < |rows| ==> rows[i].prevHash == rows[i - 1].hash)
      && (|rows| > 0 && rows[0].height == 0 ==>
        && (rows[0].prevHash == "" || rows[0].prevHash == Zeros64())
        && (genesisHash.Some? && genesisHash.value != "" ==> rows[0].hash == genesisHash.value))
    ensures error.None? <==> RowsLinked(rows, genesisHash)
  {
    var start := if |rows| > 0 then rows[0].height else 0;
    for i := 0 to |rows|
      invariant RowsLinked(rows[..i], genesisHash)
    {
      var r := rows[i];
      if r.height != start + i {
        return Some("local chain has a gap");
      }
      if i == 0 {
        if r.height == 0 {
          if r.prevHash != "" && r.prevHash != Zeros64() {
            return Some("genesis block has a non-empty prevHash");
          }
          if genesisHash.Some? && genesisHash.value != "" && r.hash != genesisHash.value {
            return Some("genesis hash mismatch");
          }
        }
      } else if r.prevHash != rows[i - 1].hash {
        return Some("prevHash does not link");
      }
    }
    assert rows[..|rows|] == rows;
    error := None;
  }

  function RowsOfPath(path: seq<Block>): (rows: seq<ChainRow>)
    ensures |rows| == |path|
  {
    seq(|path|, k requires 0 <= k < |path| => ChainRow(path[k].header.height, path[k].hash,
      path[k].header.previousHash))
  }

  /** The genesis hash that the store keeps: set by the batches that are taken, never cleared. */
  ghost function RunGenesis(env: Env, wallet: set<string>, ops: seq<Op>): Option<string> {
    if |ops| == 0 then None
    else
      var init := ops[..|ops| - 1];
      match ops[|ops| - 1]
      case Truncate(_) => RunGenesis(env, wallet, init)
      case Append(blocks) =>
        var batch := Batch(blocks, |RunPath(env, init)| - 1);
        if Appendable(env, RunTables(env, wallet, init), batch) then GenesisAfter(RunGenesis(env, wallet, init), batch)
        else RunGenesis(env, wallet, init)
  }

  /** The stored hash is that of the first block of the chain, whenever there is one. */
  ghost predicate NamesGenesis(path: seq<Block>, genesisHash: Option<string>) {
    |path| > 0 ==> genesisHash == Some(path[0].hash)
  }

  /** Whatever the calls are, the followed chain passes the linkage check against the stored genesis hash. */
  lemma {:induction false} RunsLink(env: Env, wallet: set<string>, ops: seq<Op>)
    ensures RowsLinked(RowsOfPath(RunPath(env, ops)), RunGenesis(env, wallet, ops))
    ensures NamesGenesis(RunPath(env, ops), RunGenesis(env, wallet, ops))
  {
    hide Batch, Readable, Appendable, ContinuesAll, TableOf, RisingAbove, HeightsCount, IsTip, RowsLinked, UpTo;
    hide NamesGenesis, GenesisAfter;
    if |ops| > 0 {
      var init := ops[..|ops| - 1];
      var t, path, genesis := RunTables(env, wallet, init), RunPath(env, init), RunGenesis(env, wallet, init);
      RunsLink(env, wallet, init);
      RunBlocks(env, wallet, init);
      match ops[|ops| - 1] {
        case Truncate(height) => PrefixLinks(path, height, genesis);
        case Append(blocks) =>
          var batch := Batch(blocks, |path| - 1);
          BatchRises(path, blocks);
          AppendableMeans(env, t, path, batch);
          if ContinuesAll(env, path, batch) {
            ContinuationsLink(env, path, batch, genesis);
          }
      }
    } else {
      NothingLinks();
    }
  }

  lemma NothingLinks()
    ensures RowsLinked([], None) && NamesGenesis([], None)
  {
  }

  lemma PrefixLinks(path: seq<Block>, height: int, genesis: Option<string>)
    requires RowsLinked(RowsOfPath(path), genesis) && NamesGenesis(path, genesis)
    ensures RowsLinked(RowsOfPath(UpTo(path, height)), genesis) && NamesGenesis(UpTo(path, height), genesis)
  {
    var n := |UpTo(path, height)|;
    assert forall i :: 0 <= i < n ==> RowsOfPath(path[..n])[i] == RowsOfPath(path)[i];
  }

  lemma {:induction false} ContinuationsLink(
    env: Env, path: seq<Block>, batch: seq<Block>, genesis: Option<string>)
    requires RowsLinked(RowsOfPath(path), genesis) && NamesGenesis(path, genesis) && HeightsCount(path)
    requires ContinuesAll(env, path, batch)
    ensures
      var after := GenesisAfter(genesis, batch);
      && RowsLinked(RowsOfPath(path + batch), after) && NamesGenesis(path + batch, after)
      && HeightsCount(path + batch)
    ensures FindGenesis(batch).Some? <==> |path| == 0 && |batch| > 0
  {
    hide Readable, RowsLinked, NamesGenesis, ContinuesAll;
    if |batch| == 0 {
      assert path + batch == path;
    } else {
      var init, last := batch[..|batch| - 1], batch[|batch| - 1];
      ContinuesInit(env, path, batch);
      ContinuationsLink(env, path, init, genesis);
      OneMoreLinks(env, path + init, last, GenesisAfter(genesis, init));
      assert path + init + [last] == path + batch;
    }
  }

  lemma OneMoreLinks(env: Env, path: seq<Block>, b: Block, genesis: Option<string>)
    requires RowsLinked(RowsOfPath(path), genesis) && NamesGenesis(path, genesis) && HeightsCount(path)
    requires Continues(env, path, b)
    ensures
      var after := if |path| == 0 then Some(b.hash) else genesis;
      RowsLinked(RowsOfPath(path + [b]), after) && NamesGenesis(path + [b], after) && HeightsCount(path + [b])
  {
    hide Readable;
    var rows := RowsOfPath(path + [b]);
    assert forall i :: 0 <= i < |path| ==> rows[i] == RowsOfPath(path)[i];
    assert rows[|path|] == ChainRow(|path|, b.hash, b.header.previousHash);
  }

  // ---- the time of the newest block ----

  /** The time that the store keeps: set by batches that are taken and by rollbacks, if positive. */
  ghost function RunTime(env: Env, wallet: set<string>, ops: seq<Op>): Option<int> {
    if |ops| == 0 then None
    else
      var init := ops[..|ops| - 1];
      var time, path := RunTime(env, wallet, init), RunPath(env, init);
      match ops[|ops| - 1]
      case Truncate(height) => NotedTime(time, UpTo(path, height))
      case Append(blocks) =>
        var batch := Batch(blocks, |path| - 1);
        if Appendable(env, RunTables(env, wallet, init), batch) then NotedTime(time, batch) else time
  }

  function NotedTime(time: Option<int>, blocks: seq<Block>): Option<int> {
    if |blocks| == 0 then time else TimeAfter(time, blocks[|blocks| - 1].header.timestampSeconds)
  }

  /** Whatever the calls are, the stored time is that of the last block of the followed chain, if that is positive. */
  lemma {:induction false} RunsTime(env: Env, wallet: set<string>, ops: seq<Op>)
    ensures
      var path := RunPath(env, ops);
      |path| > 0 && path[|path| - 1].header.timestampSeconds > 0 ==>
        RunTime(env, wallet, ops) == Some(path[|path| - 1].header.timestampSeconds)
  {
    hide Batch, Readable, Appendable, ContinuesAll, TableOf, RisingAbove, HeightsCount, IsTip, UpTo;
    if |ops| > 0 {
      var init := ops[..|ops| - 1];
      var t, path := RunTables(env, wallet, init), RunPath(env, init);
      RunsTime(env, wallet, init);
      RunBlocks(env, wallet, init);
      match ops[|ops| - 1] {
        case Truncate(_) =>
        case Append(blocks) =>
          var batch := Batch(blocks, |path| - 1);
          BatchRises(path, blocks);
          AppendableMeans(env, t, path, batch);
          assert |batch| > 0 ==> (path + batch)[|path + batch| - 1] == batch[|batch| - 1];
      }
    }
  }
}
