/**
 * How the wallet's index files the transactions of an applied chain: height, kind, fee and time of each, its outputs
 * and inputs, and the addresses under which it is found.
 */
module WalletFiling {
  import opened Prelude
  import opened Types
  import opened SigningText
  import opened State
  import opened History
  import opened Branches
  import opened WalletTables
  import opened WalletIndex
  import opened WalletRuns

  // ---- what is filed ----

  ghost predicate OutputsFiled(table: OutputTable, txid: string, rows: seq<OutputRow>) {
    && (forall k :: Outpoint(txid, k) in table <==> 0 <= k < |rows|)
    && forall k :: 0 <= k < |rows| ==> SameButSpent(table[Outpoint(txid, k)], rows[k])
  }

  ghost predicate InputsFiled(table: map<Outpoint, Outpoint>, txid: string, inputs: seq<Outpoint>) {
    && (forall k :: Outpoint(txid, k) in table <==> 0 <= k < |inputs|)
    && forall k :: 0 <= k < |inputs| ==> table[Outpoint(txid, k)] == inputs[k]
  }

  ghost predicate AddressesFiled(
    table: map<(string, string), AddressRow>, txid: string, row: AddressRow, addresses: set<string>)
  {
    && (forall a :: (a, txid) in table <==> a in addresses && a != "")
    && forall a :: a in addresses && a != "" ==> table[(a, txid)] == row
  }

  ghost predicate OwnFiled(
    table: map<string, TxRow>, txid: string, row: TxRow, wallet: set<string>, addresses: set<string>)
  {
    && (txid in table <==> exists a :: a in addresses && a in wallet)
    && (txid in table ==> table[txid] == row)
  }

  ghost predicate FiledAs(
    wallet: set<string>, t: Tables, txid: string, row: TxRow, outputs: seq<OutputRow>, inputs: seq<Outpoint>,
    addresses: set<string>)
  {
    && txid in t.transactions && t.transactions[txid] == row
    && OutputsFiled(t.outputs, txid, outputs)
    && InputsFiled(t.inputs, txid, inputs)
    && AddressesFiled(t.addressTxs, txid, AddressRow(row.height, row.createdAt), addresses)
    && OwnFiled(t.ownTxs, txid, row, wallet, addresses)
  }

  /** The rows of a transfer: outputs to the sender are change, and it is found under sender and recipients. */
  ghost function TransferRows(env: Env, b: Block, tx: Transaction): seq<OutputRow> {
    seq(|tx.outputs|, k requires 0 <= k < |tx.outputs| =>
      var o := tx.outputs[k];
      OutputRow(o.address, Photons(o.amount), o.address == AddressOf(env, tx.pubkey), b.header.height, None, None,
                b.header.timestampSeconds))
  }

  ghost predicate TransferFiled(env: Env, wallet: set<string>, t: Tables, b: Block, tx: Transaction) {
    FiledAs(wallet, t, TransactionId(env, tx), TxRow(b.header.height, Transfer, tx.fee, b.header.timestampSeconds),
            TransferRows(env, b, tx), tx.inputs,
            {AddressOf(env, tx.pubkey)} + set k | 0 <= k < |tx.outputs| :: tx.outputs[k].address)
  }

  /** The row of a reward: it pays no fee and can be spent six blocks later. */
  ghost predicate RewardFiled(env: Env, wallet: set<string>, t: Tables, b: Block, coinbase: Coinbase) {
    && |coinbase.outputs| == 1
    && var o := coinbase.outputs[0];
    var row := OutputRow(o.address, Photons(o.amount), false, b.header.height, None, Some(b.header.height + 6),
                         b.header.timestampSeconds);
    FiledAs(wallet, t, CoinbaseId(env, b.header.height, coinbase),
            TxRow(b.header.height, Mining, "0", b.header.timestampSeconds), [row], [], {o.address})
  }

  ghost predicate BlockFiled(env: Env, wallet: set<string>, t: Tables, b: Block) {
    && (b.coinbase.Some? ==> RewardFiled(env, wallet, t, b, b.coinbase.value))
    && forall j :: 0 <= j < |b.transactions| ==> TransferFiled(env, wallet, t, b, b.transactions[j])
  }

  // ---- filing one transaction ----

  function RowsOf(tx: IndexedTx): seq<OutputRow> {
    seq(|tx.outputs|, k requires 0 <= k < |tx.outputs| => RowOf(tx, tx.outputs[k]))
  }

  ghost function PrevsOf(tx: IndexedTx): seq<Outpoint> {
    seq(|tx.inputs|, k requires 0 <= k < |tx.inputs| => tx.inputs[k].prev)
  }

  ghost function AddressSet(tx: IndexedTx): set<string> {
    (set k | 0 <= k < |tx.inputs| :: tx.inputs[k].address) + (set k | 0 <= k < |tx.outputs| :: tx.outputs[k].address)
  }

  lemma OutputsAreFiled(table: OutputTable, tx: IndexedTx)
    requires Unfiled(table, tx.txid)
    ensures OutputsFiled(Indexed(Full, table, tx), tx.txid, RowsOf(tx))
  {
    hide RowOf, MarkSpent, Indexed;
    IndexedAdds(Full, table, tx);
    MarkSpentAt(Full, table, tx.txid, tx.inputs, |tx.inputs|);
    var rows, t := NewRows(Full, tx, |tx.outputs|), Indexed(Full, table, tx);
    forall k ensures Outpoint(tx.txid, k) in t <==> 0 <= k < |RowsOf(tx)| {
      assert Outpoint(tx.txid, k) in t <==> Outpoint(tx.txid, k) in rows;
    }
    forall k | 0 <= k < |RowsOf(tx)| ensures SameButSpent(t[Outpoint(tx.txid, k)], RowsOf(tx)[k]) {
      assert t[Outpoint(tx.txid, k)] == rows[Outpoint(tx.txid, k)];
    }
  }

  lemma {:induction false} InputsAreFiled(table: map<Outpoint, Outpoint>, tx: IndexedTx, n: nat)
    requires n <= |tx.inputs| && forall x :: x in table ==> x.txid != tx.txid
    ensures InputsFiled(PutInputs(table, tx, n), tx.txid, PrevsOf(tx)[..n])
  {
    if n > 0 {
      InputsAreFiled(table, tx, n - 1);
    }
  }

  lemma {:induction false} AddressesAreFiled(table: map<(string, string), AddressRow>, tx: IndexedTx, n: nat)
    requires n <= |Addresses(tx)| && forall x :: x in table ==> x.1 != tx.txid
    ensures AddressesFiled(
      PutAddresses(table, tx, n), tx.txid, AddressRow(tx.height, tx.createdAt), set k | 0 <= k < n :: Addresses(tx)[k])
  {
    hide Addresses;
    if n > 0 {
      AddressesAreFiled(table, tx, n - 1);
      var before, after := set k | 0 <= k < n - 1 :: Addresses(tx)[k], set k | 0 <= k < n :: Addresses(tx)[k];
      assert after == before + {Addresses(tx)[n - 1]};
    }
  }

  lemma AllAddresses(tx: IndexedTx)
    ensures (set k | 0 <= k < |Addresses(tx)| :: Addresses(tx)[k]) == AddressSet(tx)
  {
    var all, n := (set k | 0 <= k < |Addresses(tx)| :: Addresses(tx)[k]), |tx.inputs|;
    forall a | a in AddressSet(tx) ensures a in all {
      if a in (set k | 0 <= k < |tx.inputs| :: tx.inputs[k].address) {
        var k :| 0 <= k < n && tx.inputs[k].address == a;
        assert Addresses(tx)[k] == a;
      } else {
        var k :| 0 <= k < |tx.outputs| && tx.outputs[k].address == a;
        assert Addresses(tx)[n + k] == a;
      }
    }
  }

  lemma TransactionIsFiled(wallet: set<string>, t: Tables, tx: IndexedTx, ids: set<string>)
    requires Within(t, ids) && tx.txid !in ids
    ensures FiledAs(wallet, IndexTx(wallet, t, tx), tx.txid, TxRowOf(tx), RowsOf(tx), PrevsOf(tx), AddressSet(tx))
  {
    hide Indexed, PutInputs, PutAddresses, Addresses, RowsOf;
    UnfiledOutside(t.outputs, ids, tx.txid);
    OutputsAreFiled(t.outputs, tx);
    InputsAreFiled(t.inputs, tx, |tx.inputs|);
    assert PrevsOf(tx)[..|tx.inputs|] == PrevsOf(tx);
    AddressesAreFiled(t.addressTxs, tx, |Addresses(tx)|);
    AllAddresses(tx);
  }

  // ---- what is filed stays ----

  /** The rows of the transactions `ids` are those of before. */
  ghost predicate KeepsTxs(table: map<string, TxRow>, after: map<string, TxRow>, ids: set<string>) {
    forall x :: x in ids ==> (x in table <==> x in after) && (x in table ==> table[x] == after[x])
  }

  ghost predicate KeepsOutputs(table: OutputTable, after: OutputTable, ids: set<string>) {
    forall k: Outpoint :: k.txid in ids ==>
      (k in table <==> k in after) && (k in table ==> SameButSpent(after[k], table[k]))
  }

  ghost predicate KeepsInputs(table: map<Outpoint, Outpoint>, after: map<Outpoint, Outpoint>, ids: set<string>) {
    forall k: Outpoint :: k.txid in ids ==> (k in table <==> k in after) && (k in table ==> table[k] == after[k])
  }

  ghost predicate KeepsAddresses(
    table: map<(string, string), AddressRow>, after: map<(string, string), AddressRow>, ids: set<string>)
  {
    forall k: (string, string) :: k.1 in ids ==> (k in table <==> k in after) && (k in table ==> table[k] == after[k])
  }

  ghost predicate Keeps(t: Tables, after: Tables, ids: set<string>) {
    && KeepsTxs(t.transactions, after.transactions, ids) && KeepsTxs(t.ownTxs, after.ownTxs, ids)
    && KeepsOutputs(t.outputs, after.outputs, ids)
    && KeepsInputs(t.inputs, after.inputs, ids)
    && KeepsAddresses(t.addressTxs, after.addressTxs, ids)
  }

  lemma FiledStays(
    wallet: set<string>, t: Tables, after: Tables, ids: set<string>, txid: string, row: TxRow, outputs: seq<OutputRow>,
    inputs: seq<Outpoint>, addresses: set<string>)
    requires Keeps(t, after, ids) && txid in ids && FiledAs(wallet, t, txid, row, outputs, inputs, addresses)
    ensures FiledAs(wallet, after, txid, row, outputs, inputs, addresses)
  {
  }

  lemma KeepsTwice(t: Tables, mid: Tables, after: Tables, ids: set<string>, more: set<string>)
    requires Keeps(t, mid, ids) && Keeps(mid, after, more) && ids <= more
    ensures Keeps(t, after, ids)
  {
  }

  lemma IndexedKeeps(table: OutputTable, tx: IndexedTx, ids: set<string>)
    requires Unfiled(table, tx.txid) && tx.txid !in ids
    ensures KeepsOutputs(table, Indexed(Full, table, tx), ids)
  {
    hide Indexed, MarkSpent, NewRows;
    IndexedAdds(Full, table, tx);
    MarkSpentAt(Full, table, tx.txid, tx.inputs, |tx.inputs|);
    NewRowsKeys(Full, tx, |tx.outputs|);
  }

  lemma PutInputsKeeps(table: map<Outpoint, Outpoint>, tx: IndexedTx, ids: set<string>)
    requires tx.txid !in ids
    ensures KeepsInputs(table, PutInputs(table, tx, |tx.inputs|), ids)
  {
    hide PutInputs;
    PutInputsAt(table, tx, |tx.inputs|);
  }

  lemma PutAddressesKeeps(table: map<(string, string), AddressRow>, tx: IndexedTx, ids: set<string>)
    requires tx.txid !in ids
    ensures KeepsAddresses(table, PutAddresses(table, tx, |Addresses(tx)|), ids)
  {
    hide PutAddresses, Addresses;
    PutAddressesAt(table, tx, |Addresses(tx)|);
  }

  lemma IndexTxKeeps(wallet: set<string>, t: Tables, tx: IndexedTx, ids: set<string>)
    requires Within(t, ids) && tx.txid !in ids
    ensures Keeps(t, IndexTx(wallet, t, tx), ids)
  {
    hide Indexed, PutInputs, PutAddresses, Addresses, OwnAffected, KeepsOutputs, KeepsInputs, KeepsAddresses;
    UnfiledOutside(t.outputs, ids, tx.txid);
    IndexedKeeps(t.outputs, tx, ids);
    PutInputsKeeps(t.inputs, tx, ids);
    PutAddressesKeeps(t.addressTxs, tx, ids);
  }

  // ---- the transactions of a block ----

  /** Every input of the transactions is filed as an output of the sender. */
  ghost predicate SentByOwner(env: Env, table: OutputTable, txs: seq<Transaction>) {
    forall j :: 0 <= j < |txs| ==> InputsOwned(env, table, txs[j])
  }

  ghost predicate InputsOwned(env: Env, table: OutputTable, tx: Transaction) {
    && |tx.inputs| > 0
    && forall k :: 0 <= k < |tx.inputs| ==>
      tx.inputs[k] in table && table[tx.inputs[k]].address == AddressOf(env, tx.pubkey)
  }

  lemma TransferIsFiled(env: Env, wallet: set<string>, t: Tables, ids: set<string>, b: Block, tx: Transaction)
    requires Within(t, ids) && TransactionId(env, tx) !in ids && InputsOwned(env, t.outputs, tx)
    ensures TransferFiled(env, wallet, IndexTx(wallet, t, TransferTx(env, t.outputs, b, tx)), b, tx)
  {
    hide Within, IndexTx, TransactionId, FiledAs, Photons, AddressOf;
    var itx := TransferTx(env, t.outputs, b, tx);
    TransactionIsFiled(wallet, t, itx, ids);
    assert RowsOf(itx) == TransferRows(env, b, tx);
    assert PrevsOf(itx) == tx.inputs;
    var sender := AddressOf(env, tx.pubkey);
    assert AddressSet(itx) == {sender} + set k | 0 <= k < |tx.outputs| :: tx.outputs[k].address by {
      assert forall k :: 0 <= k < |itx.inputs| ==> itx.inputs[k].address == sender;
      assert itx.inputs[0].address in AddressSet(itx);
      assert forall k :: 0 <= k < |tx.outputs| ==> itx.outputs[k].address == tx.outputs[k].address;
    }
  }

  lemma OwnedInputs(env: Env, table: OutputTable, tx: Transaction)
    requires InputsOwned(env, table, tx)
    ensures InputSet(tx.inputs) <= table.Keys
  {
  }

  lemma AllFiled(t: Tables, ids: set<string>, entries: Entries, wallet: set<string>)
    requires Agrees(wallet, t, ids, entries)
    ensures Within(t, ids) && forall k :: k in t.outputs ==> k.txid in ids
  {
  }

  lemma StaysOwned(env: Env, t: Tables, after: Tables, ids: set<string>, tx: Transaction)
    requires InputsOwned(env, t.outputs, tx) && Keeps(t, after, ids)
    requires forall k :: k in t.outputs ==> k.txid in ids
    ensures InputsOwned(env, after.outputs, tx)
  {
    hide AddressOf;
  }

  lemma TransferStaysFiled(
    env: Env, wallet: set<string>, t: Tables, after: Tables, ids: set<string>, b: Block, tx: Transaction)
    requires TransferFiled(env, wallet, t, b, tx) && Keeps(t, after, ids) && TransactionId(env, tx) in ids
    ensures TransferFiled(env, wallet, after, b, tx)
  {
    hide Keeps, FiledAs, TransactionId, AddressOf, Photons;
    FiledStays(wallet, t, after, ids, TransactionId(env, tx),
      TxRow(b.header.height, Transfer, tx.fee, b.header.timestampSeconds), TransferRows(env, b, tx), tx.inputs,
      {AddressOf(env, tx.pubkey)} + set k | 0 <= k < |tx.outputs| :: tx.outputs[k].address);
  }

  lemma KeepsItself(t: Tables, ids: set<string>)
    ensures Keeps(t, t, ids)
  {
  }

  /** The first `n` transfers of the block are filed. */
  ghost predicate FirstFiled(env: Env, wallet: set<string>, t: Tables, b: Block, n: nat)
    requires n <= |b.transactions|
  {
    forall j :: 0 <= j < n ==> TransferFiled(env, wallet, t, b, b.transactions[j])
  }

  lemma OneMoreFiled(env: Env, wallet: set<string>, before: Tables, ids: set<string>, b: Block, m: nat)
    requires m < |b.transactions| && Within(before, ids) && TransactionId(env, b.transactions[m]) !in ids
    requires IdsOf(env, b.transactions[..m]) <= ids
    requires InputsOwned(env, before.outputs, b.transactions[m]) && FirstFiled(env, wallet, before, b, m)
    ensures
      var after := IndexTx(wallet, before, TransferTx(env, before.outputs, b, b.transactions[m]));
      FirstFiled(env, wallet, after, b, m + 1) && Keeps(before, after, ids)
  {
    hide TransactionId, IndexTx, IdsOf, Keeps, Within, TransferFiled, InputsOwned, TransferTx;
    var txs := b.transactions;
    var after := IndexTx(wallet, before, TransferTx(env, before.outputs, b, txs[m]));
    TransferHasId(env, before.outputs, b, txs[m]);
    TransferIsFiled(env, wallet, before, ids, b, txs[m]);
    IndexTxKeeps(wallet, before, TransferTx(env, before.outputs, b, txs[m]), ids);
    forall j | 0 <= j < m ensures TransferFiled(env, wallet, after, b, txs[j]) {
      assert txs[..m][j] == txs[j];
      MemberOf(env, txs[..m], j);
      TransferStaysFiled(env, wallet, before, after, ids, b, txs[j]);
    }
  }

  lemma AllOwned(env: Env, table: OutputTable, txs: seq<Transaction>)
    requires SentByOwner(env, table, txs)
    ensures forall i :: 0 <= i < |txs| ==> InputSet(txs[i].inputs) <= table.Keys
  {
    hide InputsOwned, InputSet;
    forall i | 0 <= i < |txs| ensures InputSet(txs[i].inputs) <= table.Keys {
      OwnedInputs(env, table, txs[i]);
    }
  }

  /** Before the `m`th transfer of the block its identifier is new. */
  lemma NewAt(env: Env, wallet: set<string>, t: Tables, ids: set<string>, entries: Entries, b: Block, m: nat)
    requires m < |b.transactions| && Agrees(wallet, t, ids, entries)
    requires DistinctIds(env, b.transactions) && IdsOf(env, b.transactions) !! ids
    requires SentByOwner(env, t.outputs, b.transactions)
    ensures
      var more := ids + IdsOf(env, b.transactions[..m]);
      Within(IndexTransactions(env, wallet, t, b, m), more) && TransactionId(env, b.transactions[m]) !in more
  {
    hide TransactionId, Agrees, InputSet, IdsOf, DistinctIds, Within, AfterTransactions, SentByOwner;
    hide IndexTransactions;
    var txs := b.transactions;
    AllOwned(env, t.outputs, txs);
    TransfersAgree(env, wallet, t, ids, entries, b, m);
    AllFiled(IndexTransactions(env, wallet, t, b, m), ids + IdsOf(env, txs[..m]),
             AfterTransactions(env, entries, txs[..m], b.header.height), wallet);
    MemberOf(env, txs, m);
    IdNotBefore(env, txs, m);
  }

  lemma {:induction false} TransfersAreFiled(
    env: Env, wallet: set<string>, t: Tables, ids: set<string>, entries: Entries, b: Block, n: nat)
    requires n <= |b.transactions| && Agrees(wallet, t, ids, entries)
    requires DistinctIds(env, b.transactions) && IdsOf(env, b.transactions) !! ids
    requires SentByOwner(env, t.outputs, b.transactions)
    ensures
      var after := IndexTransactions(env, wallet, t, b, n);
      Keeps(t, after, ids) && FirstFiled(env, wallet, after, b, n)
  {
    hide TransactionId, Agrees, IndexTx, InputSet, IdsOf, DistinctIds, Keeps, Within, InputsOwned, AfterTransactions;
    hide TransferTx, TransferFiled;
    if n == 0 {
      KeepsItself(t, ids);
    } else {
      hide FirstFiled;
      var txs, m := b.transactions, n - 1;
      TransfersAreFiled(env, wallet, t, ids, entries, b, m);
      NewAt(env, wallet, t, ids, entries, b, m);
      var before, more := IndexTransactions(env, wallet, t, b, m), ids + IdsOf(env, txs[..m]);
      AllFiled(t, ids, entries, wallet);
      StaysOwned(env, t, before, ids, txs[m]);
      OneMoreFiled(env, wallet, before, more, b, m);
      KeepsTwice(t, before, IndexTransactions(env, wallet, t, b, n), ids, more);
    }
  }

  lemma TransferHasId(env: Env, outputs: OutputTable, b: Block, tx: Transaction)
    ensures TransferTx(env, outputs, b, tx).txid == TransactionId(env, tx)
  {
  }

  // ---- the blocks of a chain ----

  /** The owners of what the last block consumes signed for it, and the index knows them. */
  lemma LastIsOwned(env: Env, wallet: set<string>, t: Tables, path: seq<Block>)
    requires WalletPath(env, path) && |path| > 1
    requires Agrees(wallet, t, Ids(env, path[..|path| - 1]), Replay(env, path[..|path| - 1]).entries)
    ensures SentByOwner(env, t.outputs, path[|path| - 1].transactions)
  {
    hide LedgerPath, NoCollisions, Replay, Within, OwnMirrors, InputsSpent, ShapeOk, AddressOf;
    var entries, b := Replay(env, path[..|path| - 1]).entries, path[|path| - 1];
    forall j | 0 <= j < |b.transactions| ensures InputsOwned(env, t.outputs, b.transactions[j]) {
      var tx := b.transactions[j];
      LastInputs(env, path, j);
      forall k | 0 <= k < |tx.inputs|
        ensures tx.inputs[k] in t.outputs && t.outputs[tx.inputs[k]].address == AddressOf(env, tx.pubkey)
      {
        assert RowFits(t.outputs[tx.inputs[k]], entries[tx.inputs[k]]);
      }
    }
  }

  lemma LastInputs(env: Env, path: seq<Block>, j: nat)
    requires LedgerPath(env, path) && |path| > 1 && j < |path[|path| - 1].transactions|
    ensures
      var tx, entries := path[|path| - 1].transactions[j], Replay(env, path[..|path| - 1]).entries;
      && |tx.inputs| > 0
      && forall k :: 0 <= k < |tx.inputs| ==>
        tx.inputs[k] in entries && entries[tx.inputs[k]].address == AddressOf(env, tx.pubkey)
  {
    hide CoinbaseOk, Replay, ShapeOk, AddressOf, InputSum, Consumed;
    LastTransaction(env, path, j);
    var entries := Replay(env, path[..|path| - 1]).entries;
    assert TransactionOk(env, entries, path[|path| - 1].header.height, path[|path| - 1].transactions[j]);
    var tx := path[|path| - 1].transactions[j];
    forall k | 0 <= k < |tx.inputs|
      ensures tx.inputs[k] in entries && entries[tx.inputs[k]].address == AddressOf(env, tx.pubkey)
    {
      assert InputOk(entries, AddressOf(env, tx.pubkey), path[|path| - 1].header.height, tx.inputs[k]);
    }
  }

  lemma RewardIsFiled(env: Env, wallet: set<string>, t: Tables, ids: set<string>, b: Block)
    requires Within(t, ids) && b.coinbase.Some? && |b.coinbase.value.outputs| == 1
    requires CoinbaseId(env, b.header.height, b.coinbase.value) !in ids
    ensures
      var after := IndexCoinbase(env, wallet, t, b);
      RewardFiled(env, wallet, after, b, b.coinbase.value) && Keeps(t, after, ids)
  {
    hide Within, IndexTx, CoinbaseId, FiledAs, Photons, Keeps;
    var coinbase := b.coinbase.value;
    var tx, o := MiningTx(env, b, coinbase), coinbase.outputs[0];
    TransactionIsFiled(wallet, t, tx, ids);
    IndexTxKeeps(wallet, t, tx, ids);
    var row := OutputRow(o.address, Photons(o.amount), false, b.header.height, None, Some(b.header.height + 6),
                         b.header.timestampSeconds);
    assert RowsOf(tx) == [row];
    assert PrevsOf(tx) == [];
    assert AddressSet(tx) == {o.address} by {
      assert tx.outputs[0].address == o.address;
    }
  }

  lemma RewardStaysFiled(
    env: Env, wallet: set<string>, t: Tables, after: Tables, ids: set<string>, b: Block, coinbase: Coinbase)
    requires RewardFiled(env, wallet, t, b, coinbase) && Keeps(t, after, ids)
    requires CoinbaseId(env, b.header.height, coinbase) in ids
    ensures RewardFiled(env, wallet, after, b, coinbase)
  {
    hide Keeps, FiledAs, CoinbaseId, Photons;
    var o := coinbase.outputs[0];
    var row := OutputRow(o.address, Photons(o.amount), false, b.header.height, None, Some(b.header.height + 6),
                         b.header.timestampSeconds);
    FiledStays(wallet, t, after, ids, CoinbaseId(env, b.header.height, coinbase),
      TxRow(b.header.height, Mining, "0", b.header.timestampSeconds), [row], [], {o.address});
  }

  lemma BlockStaysFiled(env: Env, wallet: set<string>, t: Tables, after: Tables, ids: set<string>, b: Block)
    requires BlockFiled(env, wallet, t, b) && Keeps(t, after, ids) && BlockIds(env, b) <= ids
    ensures BlockFiled(env, wallet, after, b)
  {
    hide Keeps, TransferFiled, RewardFiled, IdsOf, CoinbaseId, TransactionId;
    if b.coinbase.Some? {
      RewardStaysFiled(env, wallet, t, after, ids, b, b.coinbase.value);
    }
    forall j | 0 <= j < |b.transactions| ensures TransferFiled(env, wallet, after, b, b.transactions[j]) {
      MemberOf(env, b.transactions, j);
      TransferStaysFiled(env, wallet, t, after, ids, b, b.transactions[j]);
    }
  }

  lemma StoreKeeps(t: Tables, b: Block, ids: set<string>)
    ensures Keeps(t, StoreBlock(t, b), ids)
  {
  }

  lemma LastIsFiled(env: Env, wallet: set<string>, t: Tables, path: seq<Block>)
    requires WalletPath(env, path) && |path| > 1
    requires Agrees(wallet, t, Ids(env, path[..|path| - 1]), Replay(env, path[..|path| - 1]).entries)
    ensures
      var after := IndexBlock(env, wallet, t, path[|path| - 1]);
      BlockFiled(env, wallet, after, path[|path| - 1]) && Keeps(t, after, Ids(env, path[..|path| - 1]))
  {
    hide WalletPath, CoinbaseId, DistinctIds, IdsOf, InputSet, SpentBy, AfterTransactions, TransactionId, Replay, Ids;
    hide Within, Mirrors, OwnMirrors, InputsSpent, IndexTransactions, IndexCoinbase, Keeps, RewardFiled, TransferFiled;
    hide SentByOwner;
    var init, b := path[..|path| - 1], path[|path| - 1];
    NextBlockFacts(env, path);
    LastIsOwned(env, wallet, t, path);
    var ids, entries := Ids(env, init), Replay(env, init).entries;
    var e := CoinbaseEntry(env, b.header.height, b.coinbase.value);
    var stored := StoreBlock(t, b);
    StoredAgrees(wallet, t, ids, entries, b);
    StoreKeeps(t, b, ids);
    MiningAgrees(env, wallet, stored, ids, entries, b);
    RewardIsFiled(env, wallet, stored, ids, b);
    var mined := IndexCoinbase(env, wallet, stored, b);
    var more := ids + {e.txid};
    KeepsTwice(t, stored, mined, ids, ids);
    OwnedAfterReward(env, t, mined, ids, b.transactions, wallet, entries);
    TransfersAreFiled(env, wallet, mined, more, entries[Outpoint(e.txid, 0) := e], b, |b.transactions|);
    var after := IndexTransactions(env, wallet, mined, b, |b.transactions|);
    KeepsTwice(t, mined, after, ids, more);
    RewardStaysFiled(env, wallet, mined, after, more, b, b.coinbase.value);
  }

  lemma OwnedAfterReward(
    env: Env, t: Tables, mined: Tables, ids: set<string>, txs: seq<Transaction>, wallet: set<string>, entries: Entries)
    requires Agrees(wallet, t, ids, entries) && Keeps(t, mined, ids) && SentByOwner(env, t.outputs, txs)
    ensures SentByOwner(env, mined.outputs, txs)
  {
    hide Agrees, Keeps, Within, InputsOwned;
    AllFiled(t, ids, entries, wallet);
    forall j | 0 <= j < |txs| ensures InputsOwned(env, mined.outputs, txs[j]) {
      StaysOwned(env, t, mined, ids, txs[j]);
    }
  }

  lemma {:induction false} IdsCoverBlocks(env: Env, path: seq<Block>, i: nat)
    requires 1 <= i < |path|
    ensures BlockIds(env, path[i]) <= Ids(env, path)
  {
    hide BlockIds;
    if i < |path| - 1 {
      IdsCoverBlocks(env, path[..|path| - 1], i);
    }
  }

  /**
   * On every applied chain the index holds every reward and every transfer of every block with the height and time of
   * its block, with its outputs and inputs, and under exactly the addresses of its sender and its outputs.
   */
  lemma {:induction false} ChainIsFiled(env: Env, wallet: set<string>, path: seq<Block>, i: nat)
    requires WalletPath(env, path) && i < |path|
    ensures BlockFiled(env, wallet, IndexOf(env, wallet, path), path[i])
  {
    hide LedgerPath, NoCollisions, Agrees, IndexBlock, Replay, Ids, BlockIds, TransferFiled, RewardFiled, Keeps;
    if i > 0 {
      var init := path[..|path| - 1];
      WalletPathPrefix(env, path, |path| - 1);
      IndexAgrees(env, wallet, init);
      LastIsFiled(env, wallet, IndexOf(env, wallet, init), path);
      if i < |path| - 1 {
        ChainIsFiled(env, wallet, init, i);
        IdsCoverBlocks(env, init, i);
        BlockStaysFiled(env, wallet, IndexOf(env, wallet, init), IndexOf(env, wallet, path), Ids(env, init), path[i]);
      }
    }
  }

  // ---- what the wallet reports ----

  /** The row of an unspent output carries height and time of the block that created it. */
  ghost predicate DatedByBlock(path: seq<Block>, row: OutputRow) {
    && 1 <= row.height < |path|
    && row.createdAt == path[row.height].header.timestampSeconds
  }

  lemma RowIsDated(env: Env, wallet: set<string>, path: seq<Block>, k: Outpoint)
    requires WalletPath(env, path) && |path| > 0 && k in Replay(env, path).entries
    ensures k in IndexOf(env, wallet, path).outputs && DatedByBlock(path, IndexOf(env, wallet, path).outputs[k])
  {
    hide LedgerPath, NoCollisions, IndexOf, Replay, Ids, Within, OwnMirrors, InputsSpent, Photons, AddressOf, ShapeOk;
    hide TransactionId, CoinbaseId, ValidAddress, InputsFiled, AddressesFiled, OwnFiled;
    IndexAgrees(env, wallet, path);
    var i, j := EntryOrigin(env, path, k);
    ChainIsFiled(env, wallet, path, i);
    var t, b := IndexOf(env, wallet, path), path[i];
    if j != -1 {
      assert TransferFiled(env, wallet, t, b, b.transactions[j]);
    }
    assert k in t.outputs;
  }

  /**
   * After every run of the wallet on applied chains, all of the above holds of its tables, and the rows it reports for
   * an address carry the time of the block that created the output: `AddressUtxos`, sorted by it, is oldest first.
   */
  lemma RunIsFiled(env: Env, wallet: set<string>, ops: seq<Op>, address: string)
    requires ValidRun(env, ops)
    ensures
      var path, t := RunPath(env, ops), RunTables(env, wallet, ops);
      && (forall i :: 0 <= i < |path| ==> BlockFiled(env, wallet, t, path[i]))
      && forall k :: k in RowsFor(wallet, t, address) ==> DatedByBlock(path, RowsFor(wallet, t, address)[k])
  {
    hide WalletPath, RunPath, RunTables, IndexOf, Replay, BlockFiled, Ids, Within, Mirrors, InputsSpent, DatedByBlock;
    hide RowsFor;
    assert ops[..|ops|] == ops;
    assert ValidAt(env, ops, |ops|);
    ValidRunIndexes(env, wallet, ops);
    var path, t := RunPath(env, ops), RunTables(env, wallet, ops);
    forall i | 0 <= i < |path| ensures BlockFiled(env, wallet, t, path[i]) {
      ChainIsFiled(env, wallet, path, i);
    }
    IndexAgrees(env, wallet, path);
    RowsAreEntries(wallet, t, Ids(env, path), Replay(env, path).entries, address);
    forall k | k in RowsFor(wallet, t, address) ensures DatedByBlock(path, RowsFor(wallet, t, address)[k]) {
      if |path| == 0 {
        NothingAtStart(env, path);
      } else {
        RowIsDated(env, wallet, path, k);
        SameDate(wallet, t, path, k, address);
      }
    }
  }

  lemma SameDate(wallet: set<string>, t: Tables, path: seq<Block>, k: Outpoint, address: string)
    requires OwnMirrors(t.ownUtxos, t.outputs, wallet) && k in RowsFor(wallet, t, address)
    requires k in t.outputs && DatedByBlock(path, t.outputs[k])
    ensures DatedByBlock(path, RowsFor(wallet, t, address)[k])
  {
  }
}
