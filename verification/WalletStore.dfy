/** The wallet's chain database: apps/wallet/src/core/walletDatabase.ts (`ChainStore`), before any archival. */
module WalletStore {
  import opened Prelude
  import opened Types
  import opened SigningText
  import opened Sums
  import opened State
  import opened WalletTables
  import opened WalletIndex
  import Amount

  // ---- what appendBlocks takes ----

  /** One step of the stable sort by height. */
  function InsertBlock(rows: seq<Block>, b: Block): seq<Block> {
    if |rows| == 0 || rows[|rows| - 1].header.height <= b.header.height then rows + [b]
    else InsertBlock(rows[..|rows| - 1], b) + [rows[|rows| - 1]]
  }

  function SortByHeight(blocks: seq<Block>): seq<Block> {
    if |blocks| == 0 then [] else InsertBlock(SortByHeight(blocks[..|blocks| - 1]), blocks[|blocks| - 1])
  }

  function Heights(blocks: seq<Block>): set<int> {
    if |blocks| == 0 then {} else Heights(blocks[..|blocks| - 1]) + {blocks[|blocks| - 1].header.height}
  }

  /** The first block of every height above the tip. */
  function NewOnes(sorted: seq<Block>, tip: int): seq<Block> {
    if |sorted| == 0 then []
    else
      var init, b := NewOnes(sorted[..|sorted| - 1], tip), sorted[|sorted| - 1];
      if b.header.height <= tip || b.header.height in Heights(init) then init else init + [b]
  }

  function Batch(blocks: seq<Block>, tip: int): seq<Block> {
    NewOnes(SortByHeight(blocks), tip)
  }

  /** The hashes of the batch by height; a later block overrides an earlier one. */
  function HashAtHeight(batch: seq<Block>): map<int, string> {
    if |batch| == 0 then map[]
    else HashAtHeight(batch[..|batch| - 1])[batch[|batch| - 1].header.height := batch[|batch| - 1].hash]
  }

  function PrevHashAt(t: Tables, hashes: map<int, string>, height: int): Option<string> {
    if height in hashes then Some(hashes[height])
    else if height in t.blocks then Some(t.blocks[height].hash)
    else None
  }

  /** A genesis block has no predecessor; any other names the hash that is found one height below. */
  predicate LinksIn(t: Tables, hashes: map<int, string>, b: Block) {
    if b.header.height == 0 then b.header.previousHash == "" || b.header.previousHash == Zeros64()
    else
      var prev := PrevHashAt(t, hashes, b.header.height - 1);
      prev.Some? && prev.value != "" && prev.value == b.header.previousHash
  }

  /** The reward can be read and the transfers are well shaped. */
  ghost predicate Readable(env: Env, b: Block) {
    && (b.coinbase.Some? ==> AmountsParse(b.coinbase.value.outputs))
    && forall k :: 0 <= k < |b.transactions| ==> ShapeOk(env, b.transactions[k])
  }

  ghost predicate Appendable(env: Env, t: Tables, batch: seq<Block>) {
    forall k :: 0 <= k < |batch| ==> LinksIn(t, HashAtHeight(batch), batch[k]) && Readable(env, batch[k])
  }

  ghost function IndexBlocks(env: Env, wallet: set<string>, t: Tables, batch: seq<Block>): Tables {
    if |batch| == 0 then t
    else IndexBlock(env, wallet, IndexBlocks(env, wallet, t, batch[..|batch| - 1]), batch[|batch| - 1])
  }

  /** `tip` is the greatest height of the block table; -1 when it is empty. */
  ghost predicate IsTip(t: Tables, tip: int) {
    && (tip in t.blocks || (tip == -1 && forall h :: h !in t.blocks))
    && forall h :: h in t.blocks ==> h <= tip
  }

  /** All or nothing: a batch that does not link or cannot be read leaves the tables as they were. */
  ghost function AfterAppend(env: Env, wallet: set<string>, t: Tables, tip: int, blocks: seq<Block>): Tables {
    var batch := Batch(blocks, tip);
    if Appendable(env, t, batch) then IndexBlocks(env, wallet, t, batch) else t
  }

  /** The first block of height zero. */
  function FindGenesis(batch: seq<Block>): Option<Block> {
    if |batch| == 0 then None
    else
      var found, last := FindGenesis(batch[..|batch| - 1]), batch[|batch| - 1];
      if found.None? && last.header.height == 0 then Some(last) else found
  }

  /** The stored genesis hash after a batch. */
  function GenesisAfter(genesisHash: Option<string>, batch: seq<Block>): Option<string> {
    var found := FindGenesis(batch);
    if found.Some? then Some(found.value.hash) else genesisHash
  }

  /** The stored time of the newest block; only positive times are stored. */
  function TimeAfter(lastBlockTime: Option<int>, timestampSeconds: int): Option<int> {
    if timestampSeconds > 0 then Some(timestampSeconds) else lastBlockTime
  }

  predicate OutputsReadable(outputs: seq<IndexedOutput>) {
    forall k :: 0 <= k < |outputs| ==> Amount.Parse(outputs[k].amount).Some?
  }

  /** A transaction that touches no own address leaves the own view alone. */
  lemma {:induction false} NotOwn(wallet: set<string>, table: OutputTable, tx: IndexedTx)
    requires !OwnAffected(wallet, tx)
    ensures Indexed(Own(wallet), table, tx) == table
  {
    MarksNothing(wallet, table, tx, |tx.inputs|);
    PutsNothing(wallet, table, tx, |tx.outputs|);
  }

  lemma {:induction false} MarksNothing(wallet: set<string>, table: OutputTable, tx: IndexedTx, n: nat)
    requires !OwnAffected(wallet, tx) && n <= |tx.inputs|
    ensures MarkSpent(Own(wallet), table, tx.txid, tx.inputs, n) == table
  {
    if n > 0 {
      MarksNothing(wallet, table, tx, n - 1);
    }
  }

  lemma {:induction false} PutsNothing(wallet: set<string>, table: OutputTable, tx: IndexedTx, n: nat)
    requires !OwnAffected(wallet, tx) && n <= |tx.outputs|
    ensures PutOutputs(Own(wallet), table, tx, n) == table
  {
    if n > 0 {
      PutsNothing(wallet, table, tx, n - 1);
    }
  }

  class ChainStore {
    const env: Env
    const walletAddresses: set<string>
    var tables: Tables
    var genesisHash: Option<string>
    var lastBlockTime: Option<int>

    constructor (env: Env, walletAddresses: set<string>)
      ensures this.env == env && this.walletAddresses == walletAddresses && tables == NO_TABLES
      ensures genesisHash == None && lastBlockTime == None
    {
      this.env, this.walletAddresses := env, walletAddresses;
      tables, genesisHash, lastBlockTime := NO_TABLES, None, None;
    }

    method LocalHeight() returns (tip: int)
      ensures IsTip(tables, tip)
    {
      tip := -1;
      var first, rest := true, tables.blocks;
      while rest.Items != {}
        modifies {}
        invariant forall h :: h in rest ==> h in tables.blocks && rest[h] == tables.blocks[h]
        invariant if first then tip == -1 && rest == tables.blocks else tip in tables.blocks
        invariant forall h :: h in tables.blocks && h !in rest ==> h <= tip
        decreases |rest|
      {
        var item :| item in rest.Items;
        tip := if first || item.0 > tip then item.0 else tip;
        first, rest := false, rest - {item.0};
      }
    }

    /** Notes the inputs as references and, in the full index, as spends. */
    method PutInputRows(tx: IndexedTx)
      modifies this`tables
      ensures tables == old(tables).(
        inputs := PutInputs(old(tables).inputs, tx, |tx.inputs|),
        outputs := MarkSpent(Full, old(tables).outputs, tx.txid, tx.inputs, |tx.inputs|))
    {
      ghost var t := tables;
      for inIdx := 0 to |tx.inputs|
        invariant tables == t.(
          inputs := PutInputs(t.inputs, tx, inIdx), outputs := MarkSpent(Full, t.outputs, tx.txid, tx.inputs, inIdx))
      {
        var prev := tx.inputs[inIdx].prev;
        tables := tables.(inputs := tables.inputs[Outpoint(tx.txid, inIdx) := prev]);
        if prev in tables.outputs {
          var row := tables.outputs[prev];
          tables := tables.(outputs := tables.outputs[prev := row.(spent := Some(Spender(tx.txid, inIdx)))]);
        }
      }
    }

    /** Files the outputs; an amount that cannot be read stops it. */
    method PutOutputRows(tx: IndexedTx) returns (r: Result<()>)
      modifies this`tables
      ensures r.Ok? <==> OutputsReadable(tx.outputs)
      ensures r.Ok? ==> tables == old(tables).(outputs := PutOutputs(Full, old(tables).outputs, tx, |tx.outputs|))
    {
      hide Photons, Amount.Parse;
      ghost var t := tables;
      for outIndex := 0 to |tx.outputs|
        invariant forall k :: 0 <= k < outIndex ==> Amount.Parse(tx.outputs[k].amount).Some?
        invariant tables == t.(outputs := PutOutputs(Full, t.outputs, tx, outIndex))
      {
        var output := tx.outputs[outIndex];
        if Amount.Parse(output.amount).None? {
          return Err("invalid EDX amount");
        }
        tables := tables.(outputs := Upserted(tables.outputs, Outpoint(tx.txid, outIndex), RowOf(tx, output)));
      }
      r := Ok(());
    }

    /** Maps every address of the transaction to it, once. */
    method PutAddressRows(tx: IndexedTx)
      modifies this`tables
      ensures tables == old(tables).(addressTxs := PutAddresses(old(tables).addressTxs, tx, |Addresses(tx)|))
    {
      hide Addresses;
      ghost var t := tables;
      var addrSeen: set<string> := {};
      for k := 0 to |Addresses(tx)|
        invariant tables == t.(addressTxs := PutAddresses(t.addressTxs, tx, k))
        invariant forall a :: a in addrSeen ==> (a, tx.txid) in tables.addressTxs
      {
        var address := Addresses(tx)[k];
        if address != "" && address !in addrSeen {
          addrSeen := addrSeen + {address};
          if (address, tx.txid) !in tables.addressTxs {
            var row := AddressRow(tx.height, tx.createdAt);
            tables := tables.(addressTxs := tables.addressTxs[(address, tx.txid) := row]);
          }
        }
      }
    }

    /** Keeps the own view: the transaction, the own outputs it spends, the own outputs it creates. */
    method PutOwnRows(tx: IndexedTx)
      modifies this`tables
      ensures tables == old(tables).(
        ownTxs :=
          if OwnAffected(walletAddresses, tx) then old(tables).ownTxs[tx.txid := TxRowOf(tx)] else old(tables).ownTxs,
        ownUtxos := Indexed(Own(walletAddresses), old(tables).ownUtxos, tx))
    {
      hide Photons;
      ghost var t, view := tables, Own(walletAddresses);
      if !OwnAffected(walletAddresses, tx) {
        NotOwn(walletAddresses, tables.ownUtxos, tx);
        return;
      }
      hide OwnAffected;
      tables := tables.(ownTxs := tables.ownTxs[tx.txid := TxRowOf(tx)]);
      for inIdx := 0 to |tx.inputs|
        invariant tables == t.(
          ownTxs := t.ownTxs[tx.txid := TxRowOf(tx)],
          ownUtxos := MarkSpent(view, t.ownUtxos, tx.txid, tx.inputs, inIdx))
      {
        var input := tx.inputs[inIdx];
        if input.address in walletAddresses && input.prev in tables.ownUtxos
          && tables.ownUtxos[input.prev].spent.None? {
          var row := tables.ownUtxos[input.prev];
          tables := tables.(ownUtxos := tables.ownUtxos[input.prev := row.(spent := Some(Spender(tx.txid, inIdx)))]);
        }
      }
      ghost var marked := tables.ownUtxos;
      for outIndex := 0 to |tx.outputs|
        invariant tables == t.(
          ownTxs := t.ownTxs[tx.txid := TxRowOf(tx)], ownUtxos := PutOutputs(view, marked, tx, outIndex))
      {
        var output := tx.outputs[outIndex];
        if output.address in walletAddresses {
          tables := tables.(ownUtxos := Upserted(tables.ownUtxos, Outpoint(tx.txid, outIndex), RowOf(tx, output)));
        }
      }
    }

    method UpsertTxIndex(tx: IndexedTx) returns (r: Result<()>)
      modifies this`tables
      ensures r.Ok? <==> OutputsReadable(tx.outputs)
      ensures r.Ok? ==> tables == IndexTx(walletAddresses, old(tables), tx)
    {
      hide Amount.Parse, MarkSpent, PutOutputs, PutInputs, PutAddresses, OwnAffected, Addresses;
      tables := tables.(transactions := tables.transactions[tx.txid := TxRowOf(tx)]);
      PutInputRows(tx);
      r := PutOutputRows(tx);
      if r.Err? {
        return;
      }
      PutAddressRows(tx);
      PutOwnRows(tx);
    }

    /** The mining reward of a block. */
    method IndexReward(b: Block) returns (r: Result<()>)
      modifies this`tables
      ensures r.Ok? <==> (b.coinbase.Some? ==> AmountsParse(b.coinbase.value.outputs))
      ensures r.Ok? ==> tables == IndexCoinbase(env, walletAddresses, old(tables), b)
    {
      hide Amount.Parse, IndexTx, MiningTx;
      r := Ok(());
      if HasMining(b) {
        ReadableMining(env, b);
        r := UpsertTxIndex(MiningTx(env, b, b.coinbase.value));
      }
    }

    /** One transfer, its inputs looked up in what is indexed by then. */
    method IndexTransfer(b: Block, transaction: Transaction) returns (r: Result<()>)
      modifies this`tables
      ensures r.Ok? <==> ShapeOk(env, transaction)
      ensures r.Ok? ==>
        tables == IndexTx(walletAddresses, old(tables), TransferTx(env, old(tables).outputs, b, transaction))
    {
      hide IndexTx, TransactionId, TransferFrom, OutputsReadable, AmountsParse, ShapeOk;
      var shape := ValidateSignedTransactionShape(env, transaction);
      if shape.Err? {
        return Err(shape.error);
      }
      var txid := TransactionId(env, transaction);
      var senderAddress := AddressFromPublicKey(env, transaction.pubkey);
      ShapedAmountsParse(env, transaction);
      ReadableTransfer(tables.outputs, b, transaction, txid, senderAddress);
      r := UpsertTxIndex(TransferFrom(tables.outputs, b, transaction, txid, senderAddress));
    }

    /** The transfers of a block in their order. */
    method IndexTransfers(b: Block) returns (r: Result<()>)
      modifies this`tables
      ensures r.Ok? <==> forall k :: 0 <= k < |b.transactions| ==> ShapeOk(env, b.transactions[k])
      ensures r.Ok? ==> tables == IndexTransactions(env, walletAddresses, old(tables), b, |b.transactions|)
    {
      hide IndexTx, TransferTx, ShapeOk;
      ghost var t := tables;
      for k := 0 to |b.transactions|
        invariant tables == IndexTransactions(env, walletAddresses, t, b, k)
        invariant forall j :: 0 <= j < k ==> ShapeOk(env, b.transactions[j])
      {
        r := IndexTransfer(b, b.transactions[k]);
        if r.Err? {
          return;
        }
      }
      r := Ok(());
    }

    method IndexTransactionsOf(b: Block) returns (r: Result<()>)
      modifies this`tables
      ensures r.Ok? <==> Readable(env, b)
      ensures r.Ok? ==>
        tables == IndexTransactions(
          env, walletAddresses, IndexCoinbase(env, walletAddresses, old(tables), b), b, |b.transactions|)
    {
      hide AmountsParse, IndexTransactions, IndexCoinbase, ShapeOk;
      r := IndexReward(b);
      if r.Ok? {
        r := IndexTransfers(b);
      }
    }

    /** Links, stores and indexes the batch block by block; on failure the tables are left half done. */
    method StoreBatch(batch: seq<Block>, hashes: map<int, string>) returns (r: Result<()>)
      requires hashes == HashAtHeight(batch)
      modifies this`tables
      ensures r.Ok? <==> Appendable(env, old(tables), batch)
      ensures r.Ok? ==> tables == IndexBlocks(env, walletAddresses, old(tables), batch)
    {
      hide Readable, IndexBlock, LinksIn, HashAtHeight, IndexTransactions, IndexCoinbase, StoreBlock;
      ghost var saved := tables;
      for k := 0 to |batch|
        invariant tables == IndexBlocks(env, walletAddresses, saved, batch[..k])
        invariant forall j :: 0 <= j < k ==> LinksIn(saved, hashes, batch[j]) && Readable(env, batch[j])
      {
        assert batch[..k + 1][..k] == batch[..k] && batch[..k + 1][k] == batch[k];
        SameLinks(env, walletAddresses, saved, batch, k, batch[k]);
        if !LinksIn(tables, hashes, batch[k]) {
          return Err("block does not link to its predecessor");
        }
        IndexedNext(env, walletAddresses, saved, batch[..k + 1]);
        tables := StoreBlock(tables, batch[k]);
        var indexed := IndexTransactionsOf(batch[k]);
        if indexed.Err? {
          return Err(indexed.error);
        }
      }
      assert batch[..|batch|] == batch;
      r := Ok(());
    }

    /**
     * Takes the blocks above the tip, once per height; the whole batch links and is indexed, or nothing changes.
     */
    method AppendBlocks(blocks: seq<Block>) returns (r: Result<nat>)
      modifies this
      ensures forall tip :: IsTip(old(tables), tip) ==>
        && tables == AfterAppend(env, walletAddresses, old(tables), tip, blocks)
        && (r.Ok? <==> Appendable(env, old(tables), Batch(blocks, tip)))
        && (r.Ok? ==> r.value == |Batch(blocks, tip)|)
        && genesisHash == (if r.Ok? then GenesisAfter(old(genesisHash), Batch(blocks, tip)) else old(genesisHash))
        && (r.Ok? && |Batch(blocks, tip)| > 0 ==>
          var top := Batch(blocks, tip)[|Batch(blocks, tip)| - 1];
          lastBlockTime
          == if top.header.timestampSeconds > 0 then Some(top.header.timestampSeconds) else old(lastBlockTime))
        && (r.Err? || |Batch(blocks, tip)| == 0 ==> lastBlockTime == old(lastBlockTime))
    {
      hide IndexBlock, SortByHeight, LinksIn, Readable, HashAtHeight, NewOnes;
      var tip := LocalHeight();
      OneTip(tables, tip);
      var batch := CollectBatch(SortByHeight(blocks), tip);
      if |batch| == 0 {
        return Ok(0);
      }
      var hashes := CollectHashes(batch);
      var saved := tables;
      var stored := StoreBatch(batch, hashes);
      if stored.Err? {
        tables := saved;
        return Err(stored.error);
      }
      NoteTip(batch);
      r := Ok(|batch|);
    }

    /** Genesis hash and time of the newest block, for the meta table. */
    method NoteTip(batch: seq<Block>)
      requires |batch| > 0
      modifies this`genesisHash, this`lastBlockTime
      ensures genesisHash == GenesisAfter(old(genesisHash), batch)
      ensures lastBlockTime == TimeAfter(old(lastBlockTime), batch[|batch| - 1].header.timestampSeconds)
    {
      var genesis: Option<Block> := None;
      for k := 0 to |batch|
        modifies {}
        invariant genesis == FindGenesis(batch[..k])
      {
        assert batch[..k + 1][..k] == batch[..k];
        if genesis.None? && batch[k].header.height == 0 {
          genesis := Some(batch[k]);
        }
      }
      assert batch[..|batch|] == batch;
      if genesis.Some? {
        genesisHash := Some(genesis.value.hash);
      }
      var ts := batch[|batch| - 1].header.timestampSeconds;
      if ts > 0 {
        lastBlockTime := Some(ts);
      }
    }

    /** Clears the spends by the victims, then deletes their rows one victim at a time. */
    method EraseVictims(victims: set<string>)
      modifies this`tables
      ensures tables.(transactions := tables.transactions - victims) == Erase(old(tables), victims)
      ensures tables.transactions == old(tables).transactions && tables.blocks == old(tables).blocks
    {
      hide Erase, Released, Cleared;
      ghost var t := tables;
      tables := tables.(
        outputs := map k | k in tables.outputs :: Cleared(tables.outputs[k], victims),
        ownUtxos := map k | k in tables.ownUtxos :: Cleared(tables.ownUtxos[k], victims));
      NoneErased(t, tables, victims);
      var rest := victims;
      while rest != {}
        modifies this`tables
        invariant rest <= victims && HalfErased(t, tables, victims, victims - rest)
        decreases |rest|
      {
        var v :| v in rest;
        HalfErasedStep(t, tables, victims, victims - rest, v);
        tables := WithoutRows(tables, v);
        assert victims - (rest - {v}) == victims - rest + {v};
        rest := rest - {v};
      }
      assert victims - {} == victims;
      AllErased(t, tables, victims);
    }

    /** Rolls back everything above a height and tells how many blocks went. */
    method Truncate(height: int) returns (removed: int)
      modifies this`tables, this`lastBlockTime
      ensures tables == Truncated(old(tables), height)
      ensures removed == |old(tables).blocks| - |tables.blocks|
      ensures forall tip :: IsTip(tables, tip) ==>
        lastBlockTime == (if tip in tables.blocks && tables.blocks[tip].timestampSeconds > 0
          then Some(tables.blocks[tip].timestampSeconds) else old(lastBlockTime))
    {
      hide Erase;
      var victims := Victims(tables, height);
      ghost var t := tables;
      EraseVictims(victims);
      tables := tables.(
        transactions := map x | x in tables.transactions
          && tables.transactions[x].height <= height :: tables.transactions[x]);
      assert tables.transactions == t.transactions - victims;
      var before := |tables.blocks|;
      ErasedBlocks(t, victims);
      tables := tables.(blocks := map h | h in tables.blocks && h <= height :: tables.blocks[h]);
      removed := before - |tables.blocks|;
      var tip := LocalHeight();
      OneTip(tables, tip);
      if tip in tables.blocks && tables.blocks[tip].timestampSeconds > 0 {
        lastBlockTime := Some(tables.blocks[tip].timestampSeconds);
      }
    }

    /** The rows that answer for an address. */
    method SelectRows(address: string) returns (rows: OutputTable)
      ensures rows == RowsFor(walletAddresses, tables, address)
      ensures address in walletAddresses ==> forall k :: k in rows <==>
        k in tables.ownUtxos && tables.ownUtxos[k].address == address && tables.ownUtxos[k].spent.None?
      ensures address !in walletAddresses ==> forall k :: k in rows <==>
        && k in tables.outputs && tables.outputs[k].address == address && tables.outputs[k].spent.None?
        && forall x :: x in tables.inputs && tables.inputs[x] == k ==> (address, x.txid) !in tables.addressTxs
    {
      if address in walletAddresses {
        rows := map k | k in tables.ownUtxos && tables.ownUtxos[k].address == address
          && tables.ownUtxos[k].spent.None? :: tables.ownUtxos[k];
      } else {
        var spentRefs := set x | x in tables.inputs && (address, x.txid) in tables.addressTxs :: tables.inputs[x];
        rows := map k |
          k in tables.outputs && tables.outputs[k].address == address && tables.outputs[k].spent.None?
            && k !in spentRefs :: tables.outputs[k];
      }
    }

    method AddressBalance(address: string) returns (total: nat)
      ensures total == Sum(RowAmounts(RowsFor(walletAddresses, tables, address)))
    {
      hide RowsFor;
      var rest := SelectRows(address);
      total := 0;
      ghost var rows := rest;
      while rest.Keys != {}
        invariant total + Sum(RowAmounts(rest)) == Sum(RowAmounts(rows))
        decreases |rest|
      {
        var k :| k in rest;
        SumRemove(RowAmounts(rest), k);
        assert RowAmounts(rest - {k}) == RowAmounts(rest) - {k};
        total := total + rest[k].amount;
        rest := rest - {k};
      }
      assert RowAmounts(rest) == map[];
    }

    /** The mature rows of an address, oldest first and then by output position. */
    method AddressUtxos(address: string, currentHeight: int) returns (result: seq<Utxo>)
      ensures
        var rows := RowsFor(walletAddresses, tables, address);
        forall u :: u in result <==> u.key in rows && rows[u.key] == u.row && IsMature(u.row, currentHeight)
      ensures forall j, k :: 0 <= j < k < |result| ==>
        var a, b := result[j], result[k];
        && a != b
        && (a.row.createdAt < b.row.createdAt || (a.row.createdAt == b.row.createdAt && a.key.index <= b.key.index))
    {
      hide RowsFor;
      var rest := SelectRows(address);
      ghost var rows := rest;
      result := [];
      while rest.Keys != {}
        invariant forall k :: k in rest ==> k in rows && rest[k] == rows[k]
        invariant forall u :: u in result <==>
          u.key in rows && u.key !in rest && rows[u.key] == u.row && IsMature(u.row, currentHeight)
        invariant forall j, k :: 0 <= j < k < |result| ==> result[j] != result[k] && Before(result[j], result[k])
        decreases |rest|
      {
        var k :| k in rest;
        if IsMature(rest[k], currentHeight) {
          result := InsertUtxo(Utxo(k, rest[k]), result);
        }
        rest := rest - {k};
      }
    }
  }

  datatype Utxo = Utxo(key: Outpoint, row: OutputRow)

  /** Older outputs first; among those of one block, by position. */
  predicate Before(a: Utxo, b: Utxo) {
    a.row.createdAt < b.row.createdAt || (a.row.createdAt == b.row.createdAt && a.key.index <= b.key.index)
  }

  method InsertUtxo(u: Utxo, sorted: seq<Utxo>) returns (r: seq<Utxo>)
    requires u !in sorted
    requires forall j, k :: 0 <= j < k < |sorted| ==> sorted[j] != sorted[k] && Before(sorted[j], sorted[k])
    ensures forall x :: x in r <==> x == u || x in sorted
    ensures forall j, k :: 0 <= j < k < |r| ==> r[j] != r[k] && Before(r[j], r[k])
  {
    var i := |sorted|;
    while i > 0 && !Before(sorted[i - 1], u)
      invariant 0 <= i <= |sorted|
      invariant forall k :: i <= k < |sorted| ==> Before(u, sorted[k])
    {
      i := i - 1;
    }
    r := sorted[..i] + [u] + sorted[i..];
  }

  method CollectBatch(sorted: seq<Block>, tip: int) returns (batch: seq<Block>)
    ensures batch == NewOnes(sorted, tip)
  {
    batch := [];
    var seen: set<int> := {};
    for k := 0 to |sorted|
      invariant batch == NewOnes(sorted[..k], tip) && seen == Heights(batch)
    {
      assert sorted[..k + 1][..k] == sorted[..k];
      var b := sorted[k];
      if b.header.height > tip && b.header.height !in seen {
        assert (batch + [b])[..|batch|] == batch;
        seen := seen + {b.header.height};
        batch := batch + [b];
      }
    }
    assert sorted[..|sorted|] == sorted;
  }

  method CollectHashes(batch: seq<Block>) returns (hashes: map<int, string>)
    ensures hashes == HashAtHeight(batch)
  {
    hashes := map[];
    for k := 0 to |batch|
      invariant hashes == HashAtHeight(batch[..k])
    {
      assert batch[..k + 1][..k] == batch[..k];
      hashes := hashes[batch[k].header.height := batch[k].hash];
    }
    assert batch[..|batch|] == batch;
  }

  /** Blocks that were stored meanwhile are all in the batch, so a link reads the same before and after. */
  lemma SameLinks(env: Env, wallet: set<string>, t: Tables, batch: seq<Block>, k: nat, b: Block)
    requires k <= |batch|
    ensures LinksIn(IndexBlocks(env, wallet, t, batch[..k]), HashAtHeight(batch), b)
      <==> LinksIn(t, HashAtHeight(batch), b)
  {
    hide IndexBlocks;
    BlocksKept(env, wallet, t, batch[..k], b.header.height - 1);
    HashesGrow(batch, k);
  }

  lemma {:induction false} HashesGrow(batch: seq<Block>, k: nat)
    requires k <= |batch|
    ensures HashAtHeight(batch[..k]).Keys <= HashAtHeight(batch).Keys
  {
    if k == |batch| {
      assert batch[..k] == batch;
    } else {
      HashesGrow(batch[..|batch| - 1], k);
      assert batch[..|batch| - 1][..k] == batch[..k];
    }
  }

  lemma {:induction false} BlocksKept(env: Env, wallet: set<string>, t: Tables, batch: seq<Block>, h: int)
    ensures
      var after := IndexBlocks(env, wallet, t, batch);
      h !in HashAtHeight(batch) ==>
        && (h in after.blocks <==> h in t.blocks)
        && (h in t.blocks ==> after.blocks[h] == t.blocks[h])
  {
    hide IndexBlock;
    if |batch| > 0 {
      BlocksKept(env, wallet, t, batch[..|batch| - 1], h);
      BlocksOf(env, wallet, IndexBlocks(env, wallet, t, batch[..|batch| - 1]), batch[|batch| - 1]);
    }
  }

  /** Of the block table, indexing a block changes only its own row. */
  lemma BlocksOf(env: Env, wallet: set<string>, t: Tables, b: Block)
    ensures IndexBlock(env, wallet, t, b).blocks == StoreBlock(t, b).blocks
  {
    hide IndexTransactions, CoinbaseId, IndexTx, MiningTx;
    if HasMining(b) {
      TransactionKeepsBlocks(wallet, StoreBlock(t, b), MiningTx(env, b, b.coinbase.value));
    }
    TransactionsKeepBlocks(env, wallet, IndexCoinbase(env, wallet, StoreBlock(t, b), b), b, |b.transactions|);
  }

  lemma {:induction false} TransactionsKeepBlocks(env: Env, wallet: set<string>, t: Tables, b: Block, n: nat)
    requires n <= |b.transactions|
    ensures IndexTransactions(env, wallet, t, b, n).blocks == t.blocks
  {
    hide TransferTx, IndexTx;
    if n > 0 {
      TransactionsKeepBlocks(env, wallet, t, b, n - 1);
      var before := IndexTransactions(env, wallet, t, b, n - 1);
      TransactionKeepsBlocks(wallet, before, TransferTx(env, before.outputs, b, b.transactions[n - 1]));
    }
  }

  lemma TransactionKeepsBlocks(wallet: set<string>, t: Tables, tx: IndexedTx)
    ensures IndexTx(wallet, t, tx).blocks == t.blocks
  {
  }

  lemma IndexedNext(env: Env, wallet: set<string>, t: Tables, batch: seq<Block>)
    requires |batch| > 0
    ensures
      var before, b := IndexBlocks(env, wallet, t, batch[..|batch| - 1]), batch[|batch| - 1];
      IndexBlocks(env, wallet, t, batch)
      == IndexTransactions(env, wallet, IndexCoinbase(env, wallet, StoreBlock(before, b), b), b, |b.transactions|)
  {
    hide IndexTransactions, IndexCoinbase;
  }

  // ---- rolling back, victim by victim ----

  /** The five deletions of one rolled-back transaction. */
  function WithoutRows(t: Tables, v: string): Tables {
    t.(outputs := map k | k in t.outputs && k.txid != v :: t.outputs[k],
       addressTxs := map k | k in t.addressTxs && k.1 != v :: t.addressTxs[k],
       ownUtxos := map k | k in t.ownUtxos && k.txid != v :: t.ownUtxos[k],
       ownTxs := t.ownTxs - {v},
       inputs := map k | k in t.inputs && k.txid != v :: t.inputs[k])
  }

  function Partly(table: OutputTable, victims: set<string>, done: set<string>): OutputTable {
    map k | k in table && k.txid !in done :: Cleared(table[k], victims)
  }

  /** All spends by victims are cleared, and the rows of some of them are gone. */
  ghost predicate HalfErased(t: Tables, now: Tables, victims: set<string>, done: set<string>) {
    && now.blocks == t.blocks && now.transactions == t.transactions
    && now.outputs == Partly(t.outputs, victims, done) && now.ownUtxos == Partly(t.ownUtxos, victims, done)
    && now.inputs == (map k | k in t.inputs && k.txid !in done :: t.inputs[k])
    && now.addressTxs == (map k | k in t.addressTxs && k.1 !in done :: t.addressTxs[k])
    && now.ownTxs == t.ownTxs - done
  }

  lemma PartlyStep(table: OutputTable, victims: set<string>, done: set<string>, v: string)
    ensures (map k | k in Partly(table, victims, done) && k.txid != v :: Partly(table, victims, done)[k])
      == Partly(table, victims, done + {v})
  {
    hide Cleared;
  }

  lemma HalfErasedStep(t: Tables, now: Tables, victims: set<string>, done: set<string>, v: string)
    requires HalfErased(t, now, victims, done)
    ensures HalfErased(t, WithoutRows(now, v), victims, done + {v})
  {
    hide Partly;
    PartlyStep(t.outputs, victims, done, v);
    PartlyStep(t.ownUtxos, victims, done, v);
    var next := WithoutRows(now, v);
    assert next.inputs == (map k | k in t.inputs && k.txid !in done + {v} :: t.inputs[k]);
    assert next.addressTxs == (map k | k in t.addressTxs && k.1 !in done + {v} :: t.addressTxs[k]);
    assert next.ownTxs == t.ownTxs - (done + {v});
  }

  lemma NoneErased(t: Tables, now: Tables, victims: set<string>)
    requires now == t.(
      outputs := map k | k in t.outputs :: Cleared(t.outputs[k], victims),
      ownUtxos := map k | k in t.ownUtxos :: Cleared(t.ownUtxos[k], victims))
    ensures HalfErased(t, now, victims, victims - victims)
  {
    hide Cleared;
    assert victims - victims == {};
    assert now.outputs == Partly(t.outputs, victims, {});
    assert now.ownUtxos == Partly(t.ownUtxos, victims, {});
    assert now.ownTxs == t.ownTxs - {};
  }

  lemma AllErased(t: Tables, now: Tables, victims: set<string>)
    requires HalfErased(t, now, victims, victims)
    ensures now.(transactions := now.transactions - victims) == Erase(t, victims)
  {
    hide Cleared;
    assert Partly(t.outputs, victims, victims) == Released(t.outputs, victims);
    assert Partly(t.ownUtxos, victims, victims) == Released(t.ownUtxos, victims);
  }

  lemma ErasedBlocks(t: Tables, victims: set<string>)
    ensures Erase(t, victims).blocks == t.blocks
  {
  }

  lemma OneTip(t: Tables, tip: int)
    requires IsTip(t, tip)
    ensures forall other :: IsTip(t, other) ==> other == tip
  {
  }

  lemma ReadableMining(env: Env, b: Block)
    requires HasMining(b)
    ensures OutputsReadable(MiningTx(env, b, b.coinbase.value).outputs) <==> AmountsParse(b.coinbase.value.outputs)
  {
    hide Amount.Parse, CoinbaseId;
    var outputs := MiningTx(env, b, b.coinbase.value).outputs;
    assert forall k :: 0 <= k < |outputs| ==> outputs[k].amount == b.coinbase.value.outputs[k].amount;
  }

  lemma ShapedAmountsParse(env: Env, tx: Transaction)
    requires ShapeOk(env, tx)
    ensures AmountsParse(tx.outputs)
  {
    hide ValidAddress, Amount.Parse;
  }

  lemma ReadableTransfer(outputs: OutputTable, b: Block, tx: Transaction, txid: string, senderAddress: string)
    ensures OutputsReadable(TransferFrom(outputs, b, tx, txid, senderAddress).outputs) <==> AmountsParse(tx.outputs)
  {
    hide Amount.Parse;
    var rows := TransferFrom(outputs, b, tx, txid, senderAddress).outputs;
    assert forall k :: 0 <= k < |rows| ==> rows[k].amount == tx.outputs[k].amount;
  }
}
