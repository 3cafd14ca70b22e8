/** The node service: chain, pool, jobs and store behind one set of calls (apps/node/src/service.ts). */
module Service {
  import opened Prelude
  import opened Types
  import opened SigningText
  import opened HeaderCodec
  import opened State
  import opened Merkle
  import opened Paths
  import opened Chain
  import opened Order
  import opened Mempool
  import opened Mining
  import Reward

  /** A row of the block table. */
  datatype Row = Row(block: Block, totalWork: nat)

  type Store = map<string, Row>

  /** The table holds exactly the blocks of the tree. */
  ghost predicate Persists(store: Store, entries: Tree) {
    && store.Keys == entries.Keys
    && forall h :: h in store ==> store[h] == Row(entries[h].block, entries[h].totalWork)
  }

  /** INSERT OR IGNORE. */
  function SaveRow(store: Store, b: Block, totalWork: nat): Store {
    if b.hash in store then store else store[b.hash := Row(b, totalWork)]
  }

  function GenesisStore(env: Env): Store {
    SaveRow(map[], GenesisBlock(env), WorkOf(GenesisBlock(env).header.difficulty))
  }

  ghost predicate HasBlock(store: Store, b: Block) {
    exists h :: h in store && store[h].block == b
  }

  /** The blocks of the table by ascending height; blocks of equal height come in any order. */
  method AllBlocksByHeight(store: Store) returns (rows: seq<Block>)
    ensures forall b :: b in rows ==> HasBlock(store, b)
    ensures forall h :: h in store ==> store[h].block in rows
    ensures Ascending(rows)
  {
    rows := [];
    var rest := store;
    while rest.Keys != {}
      invariant forall h :: h in rest ==> h in store && rest[h] == store[h]
      invariant forall b :: b in rows ==> HasBlock(store, b)
      invariant forall h :: h in store && h !in rest ==> store[h].block in rows
      invariant Ascending(rows)
      decreases |rest|
    {
      var h :| h in rest;
      assert HasBlock(store, rest[h].block);
      rows := InsertByHeight(rest[h].block, rows);
      rest := rest - {h};
    }
  }

  method InsertByHeight(b: Block, rows: seq<Block>) returns (r: seq<Block>)
    requires Ascending(rows)
    ensures Ascending(r) && forall x :: x in r <==> x == b || x in rows
  {
    var i := |rows|;
    while i > 0 && rows[i - 1].header.height > b.header.height
      invariant 0 <= i <= |rows|
      invariant forall k :: i <= k < |rows| ==> rows[k].header.height > b.header.height
    {
      i := i - 1;
    }
    r := rows[..i] + [b] + rows[i..];
  }

  /** The offers that a replay of `rows` makes when its readings of the clock are `clock(0)`, `clock(1)`, .... */
  function OffersOf(rows: seq<Block>, clock: nat -> int): (feed: seq<Offer>)
    ensures |feed| == |rows|
  {
    seq(|rows|, k requires 0 <= k < |rows| => Offer(clock(k), rows[k]))
  }

  /** Every block of the tree is admitted by every reading of the clock. */
  ghost predicate ClockAdmits(entries: Tree, clock: nat -> int) {
    forall h, k: nat :: h in entries ==> NotTooEarly(clock(k), entries[h].block)
  }

  /** Equal entries, and tips of equal work. */
  ghost predicate SameTree(c: ChainState, d: ChainState) {
    && c.entries == d.entries && c.bestHash in c.entries && d.bestHash in d.entries
    && c.entries[c.bestHash].totalWork == d.entries[d.bestHash].totalWork
  }

  /** Whatever tree the table persists, `restored` is that tree. */
  ghost predicate RestoredFrom(env: Env, store: Store, clock: nat -> int, restored: ChainState) {
    forall c: ChainState :: Inv(env, c) && Persists(store, c.entries) && ClockAdmits(c.entries, clock)
      ==> SameTree(restored, c)
  }

  class ChainService {
    const env: Env
    const chain: ConsensusChain
    const mempool: TransactionMempool
    var jobs: map<string, MiningJob>
    var store: Store

    ghost predicate Valid()
      reads this, chain
    {
      && chain.env == env && chain.Valid()
    }

    ghost function State(): Node
      reads this, chain, mempool
    {
      Node(chain.Snapshot(), mempool.items, jobs)
    }

    /** Starts from a store; an empty one first receives the genesis block. */
    constructor (env: Env, initial: Store, clock: nat -> int)
      ensures Valid() && fresh(chain) && fresh(mempool) && this.env == env && jobs == map[] && mempool.items == []
      ensures store == if initial == map[] then GenesisStore(env) else initial
      ensures RestoredFrom(env, store, clock, chain.Snapshot())
    {
      hide Inv, Genesis, RestoredFrom, GenesisStore;
      this.env := env;
      chain := new ConsensusChain(env);
      mempool := new TransactionMempool();
      jobs := map[];
      store := if initial == map[] then GenesisStore(env) else initial;
      new;
      LoadPersistedBlocks(clock);
    }

    /** Replays the stored blocks by height; a row that the chain refuses is skipped. */
    method LoadPersistedBlocks(clock: nat -> int)
      requires Valid() && chain.Snapshot() == Genesis(env)
      modifies chain
      ensures Valid()
      ensures RestoredFrom(env, store, clock, chain.Snapshot())
    {
      hide Inv, Add, Genesis;
      var rows := AllBlocksByHeight(store);
      ghost var feed := OffersOf(rows, clock);
      assert feed[..0] == [];
      for k := 0 to |rows|
        modifies chain
        invariant Valid() && chain.Snapshot() == Run(env, feed[..k])
      {
        assert feed[..k + 1][..k] == feed[..k];
        var added := chain.AddBlock(clock(k), rows[k]);
      }
      assert feed[..|rows|] == feed;
      forall c: ChainState | Inv(env, c) && Persists(store, c.entries) && ClockAdmits(c.entries, clock)
        ensures SameTree(chain.Snapshot(), c)
      {
        TipStored(env, c);
        TipStored(env, chain.Snapshot());
        RowsArePersisted(env, c, store, rows, clock);
        RestartRestoresTree(env, c, feed);
      }
    }

    method AcceptTransaction(tx: Transaction, nowMs: int) returns (r: Result<string>)
      requires Valid()
      modifies mempool
      ensures Valid() && State() == AfterSubmit(env, old(State()), tx, nowMs)
      ensures r.Ok? ==> r.value == TransactionId(env, tx)
      ensures Has(old(mempool.items), TransactionId(env, tx)) && ShapeOk(env, tx) ==> r.Ok?
      ensures r.Ok? <==>
        var n := old(State());
        AfterAccept(env, n.pool, TipEntry(n).state, TipHeight(n), tx, nowMs).Some?
    {
      hide Admissible, ShapeOk;
      var shape := ValidateSignedTransactionShape(env, tx);
      if shape.Err? {
        return Err(shape.error);
      }
      var id := TransactionId(env, tx);
      if Has(mempool.items, id) {
        return Ok(id);
      }
      var tip := chain.entries[chain.bestHash];
      StatesAreKeyed(env, chain.entries, chain.bestHash);
      var state := new UtxoState.Copy(tip.state);
      r := mempool.Accept(env, tx, state, tip.block.header.height, nowMs);
    }

    /** A block that the chain takes or already has is stored, and its transactions leave the pool. */
    method AcceptBlock(block: Block, nowMs: int) returns (r: Result<Verdict>)
      requires Valid()
      modifies this`store, chain, mempool
      ensures Valid() && State() == AfterBlockOffer(env, old(State()), block, nowMs)
      ensures
        var step := Add(env, nowMs, old(chain.Snapshot()), block);
        && (r.Ok? <==> step.verdict.Some? && Shaped(env, block.transactions))
        && (r.Ok? ==> r.value == step.verdict.value)
      ensures old(Persists(store, chain.entries)) ==> Persists(store, chain.entries)
    {
      hide Inv, Accepts, EntryFor, Shaped, TransactionIds;
      AddKeepsInv(env, nowMs, chain.Snapshot(), block);
      var added := chain.AddBlock(nowMs, block);
      if added.Err? {
        return added;
      }
      StoredAfterAdd(env, nowMs, old(chain.Snapshot()), block);
      store := SaveRow(store, block, chain.entries[block.hash].totalWork);
      var committedIds := CollectIds(env, block.transactions);
      if committedIds.Err? {
        return Err(committedIds.error);
      }
      mempool.RemoveCommitted(committedIds.value);
      r := added;
    }

    method CreateJob(payout: string, nowSeconds: int, jobId: string) returns (r: Result<MiningJob>)
      requires Valid()
      modifies this`jobs
      ensures Valid() && State() == AfterCreateJob(env, old(State()), payout, nowSeconds, jobId)
      ensures r.Ok? <==>
        var n := old(State());
        TemplateFor(env, BestPath(env, n.chain), TipEntry(n).state.issuedPhotons, payout, Pending(n), nowSeconds).Some?
      ensures r.Ok? ==> jobs == map[jobId := r.value] && r.value.jobId == jobId
    {
      hide Inv, NextFor, ValidAddress, Reward.RewardForBlock, Encodable, Blob, MerkleRoot, TransactionIds, Shaped;
      hide CoinbaseFor;
      TipStored(env, chain.Snapshot());
      TipFacts(env, chain.Snapshot());
      var valid := ValidateAddress(env, payout);
      if !valid {
        return Err("invalid payout address");
      }
      var next := chain.NextConsensusData();
      if next.Err? {
        return Err(next.error);
      }
      var subsidy := Reward.RewardForBlock(next.value.height, chain.entries[chain.bestHash].state.issuedPhotons);
      if subsidy.Err? {
        return Err(subsidy.error);
      }
      Reward.RewardIsPositive(next.value.height, chain.entries[chain.bestHash].state.issuedPhotons);
      var transactions := Transactions(List(mempool.items, LIST_LIMIT));
      var txids := CollectIds(env, transactions);
      if txids.Err? {
        return Err(txids.error);
      }
      var coinbase := CoinbaseFor(payout, subsidy.value);
      CoinbaseReadable(payout, subsidy.value);
      var root := CalculateMerkleRoot(env, next.value.height, Some(coinbase), txids.value);
      var header := Header(
        PROTOCOL_VERSION, next.value.height, chain.bestHash, nowSeconds, next.value.difficulty, root.value,
          next.value.powSeed, payout);
      var block := Block(header, "", 0, Some(coinbase), transactions);
      var blob := SerializeHeader(block.header, 0);
      if blob.Err? {
        return Err(blob.error);
      }
      var job := MiningJob(jobId, block);
      jobs := map[jobId := job];
      r := Ok(job);
    }

    method SubmitShare(jobId: string, nonceHex: string, hashHex: string, nowMs: int) returns (r: Result<Verdict>)
      requires Valid()
      modifies this`store, chain, mempool
      ensures Valid() && State() == AfterShare(env, old(State()), jobId, nonceHex, hashHex, nowMs)
      ensures
        var n := old(State());
        && (r.Ok? <==>
          && WellFormedShare(n, jobId, nonceHex, hashHex)
          && Add(env, nowMs, n.chain, ShareBlock(n, jobId, nonceHex, hashHex)).verdict.Some?
          && Shaped(env, n.jobs[jobId].block.transactions))
        && (r.Ok? ==> r.value == Add(env, nowMs, n.chain, ShareBlock(n, jobId, nonceHex, hashHex)).verdict.value)
      ensures old(Persists(store, chain.entries)) ==> Persists(store, chain.entries)
    {
      hide Inv, Add, AfterBlockOffer, UnsignedNonce, ToInt32, Persists, Shaped;
      if jobId !in jobs {
        return Err("unknown mining job");
      }
      if !AnyCaseHex(nonceHex, 8) {
        return Err("invalid nonce encoding");
      }
      if !AnyCaseHex(hashHex, 64) {
        return Err("invalid proof-of-work hash");
      }
      var nonce := DecodeNonce(nonceHex);
      var candidate := Candidate(jobs[jobId].block, nonce, LowerCase(hashHex));
      r := AcceptBlock(candidate, nowMs);
    }
  }

  /** What a verdict says about the tree: the block is in it, and at most this block is new. */
  lemma StoredAfterAdd(env: Env, nowMs: int, c: ChainState, b: Block)
    requires Inv(env, c) && Add(env, nowMs, c, b).verdict.Some?
    ensures
      var d := Add(env, nowMs, c, b).chain;
      && b.hash in d.entries
      && (b.hash in c.entries ==> d == c)
      && (b.hash !in c.entries ==> d.entries.Keys == c.entries.Keys + {b.hash} && d.entries[b.hash].block == b)
      && (forall h :: h in c.entries ==> d.entries[h] == c.entries[h])
  {
    hide EntryOk, CheckBlock, AfterBlock;
  }

  lemma RowsArePersisted(env: Env, c: ChainState, store: Store, rows: seq<Block>, clock: nat -> int)
    requires Inv(env, c) && Persists(store, c.entries) && ClockAdmits(c.entries, clock)
    requires forall b :: b in rows ==> HasBlock(store, b)
    requires forall h :: h in store ==> store[h].block in rows
    requires Ascending(rows)
    ensures PersistedRows(env, c, OffersOf(rows, clock))
  {
    hide EntryOk, NotTooEarly;
    var feed := OffersOf(rows, clock);
    forall h | h in c.entries ensures c.entries[h].block.hash == h && OfferedBefore(feed, |feed|, h) {
      FiledUnderHash(env, c.entries, h);
      assert store[h].block in rows;
      var k :| 0 <= k < |rows| && rows[k] == store[h].block;
      assert feed[k].block.hash == h;
    }
    forall k | 0 <= k < |feed|
      ensures feed[k].block.hash in c.entries && feed[k].block == c.entries[feed[k].block.hash].block
      ensures NotTooEarly(feed[k].nowMs, feed[k].block)
    {
      assert rows[k] in rows;
      var h :| h in store && store[h].block == rows[k];
      assert h in c.entries && c.entries[h].block.hash == h;
      assert NotTooEarly(clock(k), c.entries[h].block);
    }
  }
}
