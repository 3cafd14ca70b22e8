/**
 * The tables of the wallet's chain index and what indexing and rolling back do to them:
 * apps/wallet/src/core/walletDatabase.ts (upsertTxIndex, indexBlock, truncate). Keys of a map are the
 * primary keys of its table; nothing is archived and nothing is pending.
 */
module WalletTables {
  import opened Prelude
  import opened Types
  import opened SigningText
  import opened State

  datatype BlockRow = BlockRow(hash: string, previousHash: string, timestampSeconds: int, slim: Block)

  datatype Kind = Mining | Transfer

  datatype TxRow = TxRow(height: int, kind: Kind, fee: string, createdAt: int)

  /** Which transaction consumed an output, and with which of its inputs. */
  datatype Spender = Spender(txid: string, idx: nat)

  datatype OutputRow = OutputRow(
    address: string, amount: nat, isChange: bool, height: int, spent: Option<Spender>,
    matureAtHeight: Option<int>, createdAt: int)

  datatype AddressRow = AddressRow(height: int, createdAt: int)

  type OutputTable = map<Outpoint, OutputRow>

  datatype Tables = Tables(
    blocks: map<int, BlockRow>,
    transactions: map<string, TxRow>,
    outputs: OutputTable,
    inputs: map<Outpoint, Outpoint>,
    addressTxs: map<(string, string), AddressRow>,
    ownTxs: map<string, TxRow>,
    ownUtxos: OutputTable)

  const NO_TABLES := Tables(map[], map[], map[], map[], map[], map[], map[])

  /** An input together with the address found for it in the index; empty when there is none. */
  datatype IndexedInput = IndexedInput(prev: Outpoint, address: string)

  datatype IndexedOutput = IndexedOutput(address: string, amount: string, isChange: bool)

  datatype IndexedTx = IndexedTx(
    txid: string, kind: Kind, fee: string, createdAt: int, height: int,
    inputs: seq<IndexedInput>, outputs: seq<IndexedOutput>)

  // ---- indexing one transaction ----

  /** The full output index, or the resident view of the wallet's own addresses. */
  datatype View = Full | Own(addresses: set<string>) {
    predicate Shows(address: string) {
      Full? || address in addresses
    }
  }

  /** The full index notes the last spender of an output, the own view the first. */
  function MarkSpent(view: View, table: OutputTable, txid: string, inputs: seq<IndexedInput>, n: nat): OutputTable
    requires n <= |inputs|
  {
    if n == 0 then table
    else
      var t, i := MarkSpent(view, table, txid, inputs, n - 1), inputs[n - 1];
      if i.prev in t && view.Shows(i.address) && (view.Full? || t[i.prev].spent.None?)
      then t[i.prev := t[i.prev].(spent := Some(Spender(txid, n - 1)))]
      else t
  }

  function RowOf(tx: IndexedTx, o: IndexedOutput): OutputRow {
    OutputRow(o.address, Photons(o.amount), o.isChange, tx.height, None,
              if tx.kind.Mining? then Some(tx.height + COINBASE_MATURITY) else None, tx.createdAt)
  }

  /** Insert, or update all but the columns that say who spent the output. */
  function Upserted(table: OutputTable, k: Outpoint, row: OutputRow): OutputTable {
    table[k := if k in table then row.(spent := table[k].spent) else row]
  }

  function PutOutputs(view: View, table: OutputTable, tx: IndexedTx, n: nat): OutputTable
    requires n <= |tx.outputs|
  {
    if n == 0 then table
    else
      var t, o := PutOutputs(view, table, tx, n - 1), tx.outputs[n - 1];
      if view.Shows(o.address) then Upserted(t, Outpoint(tx.txid, n - 1), RowOf(tx, o)) else t
  }

  function Indexed(view: View, table: OutputTable, tx: IndexedTx): OutputTable {
    PutOutputs(view, MarkSpent(view, table, tx.txid, tx.inputs, |tx.inputs|), tx, |tx.outputs|)
  }

  function PutInputs(table: map<Outpoint, Outpoint>, tx: IndexedTx, n: nat): map<Outpoint, Outpoint>
    requires n <= |tx.inputs|
  {
    if n == 0 then table else PutInputs(table, tx, n - 1)[Outpoint(tx.txid, n - 1) := tx.inputs[n - 1].prev]
  }

  /** The addresses of inputs and outputs, in this order. */
  function Addresses(tx: IndexedTx): seq<string> {
    seq(|tx.inputs|, k requires 0 <= k < |tx.inputs| => tx.inputs[k].address)
    + seq(|tx.outputs|, k requires 0 <= k < |tx.outputs| => tx.outputs[k].address)
  }

  function PutAddresses(table: map<(string, string), AddressRow>, tx: IndexedTx, n: nat): map<(string, string),
    AddressRow>
    requires n <= |Addresses(tx)|
  {
    if n == 0 then table
    else
      var t, a := PutAddresses(table, tx, n - 1), Addresses(tx)[n - 1];
      if a == "" || (a, tx.txid) in t then t else t[(a, tx.txid) := AddressRow(tx.height, tx.createdAt)]
  }

  predicate OwnAffected(wallet: set<string>, tx: IndexedTx) {
    || (exists k :: 0 <= k < |tx.inputs| && tx.inputs[k].address in wallet)
    || (exists k :: 0 <= k < |tx.outputs| && tx.outputs[k].address in wallet)
  }

  function TxRowOf(tx: IndexedTx): TxRow {
    TxRow(tx.height, tx.kind, tx.fee, tx.createdAt)
  }

  function IndexTx(wallet: set<string>, t: Tables, tx: IndexedTx): Tables {
    Tables(
      t.blocks,
      t.transactions[tx.txid := TxRowOf(tx)],
      Indexed(Full, t.outputs, tx),
      PutInputs(t.inputs, tx, |tx.inputs|),
      PutAddresses(t.addressTxs, tx, |Addresses(tx)|),
      if OwnAffected(wallet, tx) then t.ownTxs[tx.txid := TxRowOf(tx)] else t.ownTxs,
      Indexed(Own(wallet), t.ownUtxos, tx))
  }

  // ---- indexing one block ----

  function MiningTx(env: Env, b: Block, coinbase: Coinbase): IndexedTx {
    IndexedTx(
      CoinbaseId(env, b.header.height, coinbase), Mining, "0", b.header.timestampSeconds, b.header.height, [],
      seq(|coinbase.outputs|, k requires 0 <= k < |coinbase.outputs| =>
        IndexedOutput(coinbase.outputs[k].address, coinbase.outputs[k].amount, false)))
  }

  function Found(outputs: OutputTable, k: Outpoint): string {
    if k in outputs then outputs[k].address else ""
  }

  function TransferFrom(
    outputs: OutputTable, b: Block, tx: Transaction, txid: string, senderAddress: string): IndexedTx
  {
    IndexedTx(
      txid, Transfer, tx.fee, b.header.timestampSeconds, b.header.height,
      seq(|tx.inputs|, k requires 0 <= k < |tx.inputs| => IndexedInput(tx.inputs[k], Found(outputs, tx.inputs[k]))),
      seq(|tx.outputs|, k requires 0 <= k < |tx.outputs| =>
        IndexedOutput(tx.outputs[k].address, tx.outputs[k].amount, tx.outputs[k].address == senderAddress)))
  }

  ghost function TransferTx(env: Env, outputs: OutputTable, b: Block, tx: Transaction): IndexedTx {
    TransferFrom(outputs, b, tx, TransactionId(env, tx), AddressOf(env, tx.pubkey))
  }

  ghost function IndexTransactions(env: Env, wallet: set<string>, t: Tables, b: Block, n: nat): Tables
    requires n <= |b.transactions|
  {
    if n == 0 then t
    else
      var before := IndexTransactions(env, wallet, t, b, n - 1);
      IndexTx(wallet, before, TransferTx(env, before.outputs, b, b.transactions[n - 1]))
  }

  function StoreBlock(t: Tables, b: Block): Tables {
    t.(blocks := t.blocks[b.header.height :=
      BlockRow(b.hash, b.header.previousHash, b.header.timestampSeconds, b.(transactions := []))])
  }

  function HasMining(b: Block): bool {
    b.coinbase.Some? && |b.coinbase.value.outputs| > 0
  }

  function IndexCoinbase(env: Env, wallet: set<string>, t: Tables, b: Block): Tables {
    if HasMining(b) then IndexTx(wallet, t, MiningTx(env, b, b.coinbase.value)) else t
  }

  /** The mining reward first, then the transfers in their order. */
  ghost function IndexBlock(env: Env, wallet: set<string>, t: Tables, b: Block): Tables {
    IndexTransactions(env, wallet, IndexCoinbase(env, wallet, StoreBlock(t, b), b), b, |b.transactions|)
  }

  ghost function IndexOf(env: Env, wallet: set<string>, path: seq<Block>): Tables {
    if |path| == 0 then NO_TABLES
    else IndexBlock(env, wallet, IndexOf(env, wallet, path[..|path| - 1]), path[|path| - 1])
  }

  // ---- rolling back ----

  function Cleared(row: OutputRow, victims: set<string>): OutputRow {
    if row.spent.Some? && row.spent.value.txid in victims then row.(spent := None) else row
  }

  function Released(table: OutputTable, victims: set<string>): OutputTable {
    map k | k in table && k.txid !in victims :: Cleared(table[k], victims)
  }

  /** Everything but the blocks, without the transactions of `victims`. */
  function Erase(t: Tables, victims: set<string>): Tables {
    Tables(
      t.blocks,
      t.transactions - victims,
      Released(t.outputs, victims),
      map k | k in t.inputs && k.txid !in victims :: t.inputs[k],
      map k | k in t.addressTxs && k.1 !in victims :: t.addressTxs[k],
      t.ownTxs - victims,
      Released(t.ownUtxos, victims))
  }

  function Victims(t: Tables, height: int): set<string> {
    set x | x in t.transactions && t.transactions[x].height > height
  }

  function Truncated(t: Tables, height: int): Tables {
    Erase(t, Victims(t, height)).(blocks := map h | h in t.blocks && h <= height :: t.blocks[h])
  }
}
