/** Rolling the wallet's index back undoes indexing: truncate against appendBlocks, whole runs of both. */
module WalletRollback {
  import opened Types
  import opened SigningText
  import opened State
  import opened History
  import opened WalletTables
  import opened WalletIndex
  import opened WalletStore

  // ---- erasing ----

  lemma ReleasedTwice(table: OutputTable, v: set<string>, w: set<string>)
    ensures Released(Released(table, v), w) == Released(table, v + w)
  {
  }

  /** Erasing in two steps is erasing at once. */
  lemma EraseTwice(t: Tables, v: set<string>, w: set<string>)
    ensures Erase(Erase(t, v), w) == Erase(t, v + w)
  {
    hide Released;
    ReleasedTwice(t.outputs, v, w);
    ReleasedTwice(t.ownUtxos, v, w);
    var a, b := Erase(Erase(t, v), w), Erase(t, v + w);
    assert a.transactions == b.transactions && a.ownTxs == b.ownTxs;
    assert a.inputs == b.inputs;
    assert a.addressTxs == b.addressTxs;
  }

  lemma EraseNothing(t: Tables)
    ensures Erase(t, {}) == t
  {
    assert Released(t.outputs, {}) == t.outputs && Released(t.ownUtxos, {}) == t.ownUtxos;
  }

  /** None of these outputs is noted as spent by anyone but `victims`. */
  ghost predicate Loose(table: OutputTable, consumed: set<Outpoint>, victims: set<string>) {
    forall k :: k in table && k in consumed && table[k].spent.Some? ==> table[k].spent.value.txid in victims
  }

  /** The own view notes only the first spender, so there nothing is overwritten. */
  lemma UndoIndexed(view: View, table: OutputTable, tx: IndexedTx, ids: set<string>, victims: set<string>)
    requires TableWithin(table, ids) && tx.txid !in ids
    requires view.Full? ==> Loose(table, Prevs(tx.inputs, |tx.inputs|), victims)
    ensures Released(Indexed(view, table, tx), victims + {tx.txid}) == Released(table, victims)
  {
    hide MarkSpent, RowOf, Indexed, Prevs, NewRows;
    var v := victims + {tx.txid};
    IndexedAdds(view, table, tx);
    MarkSpentAt(view, table, tx.txid, tx.inputs, |tx.inputs|);
    OwnMarksFirst(view, table, tx.txid, tx.inputs, |tx.inputs|);
    NewRowsKeys(view, tx, |tx.outputs|);
    var marked := MarkSpent(view, table, tx.txid, tx.inputs, |tx.inputs|);
    forall k | k in table ensures Cleared(marked[k], v) == Cleared(table[k], victims) {
      ClearedAlike(marked[k], table[k], victims, tx.txid);
    }
    ReleasedUnion(marked, NewRows(view, tx, |tx.outputs|), table, v, victims, tx.txid);
  }

  lemma {:induction false} OwnMarksFirst(
    view: View, table: OutputTable, txid: string, inputs: seq<IndexedInput>, n: nat)
    requires n <= |inputs|
    ensures
      var t := MarkSpent(view, table, txid, inputs, n);
      t.Keys == table.Keys && (view.Own? ==> forall k :: k in table && table[k].spent.Some? ==> t[k] == table[k])
  {
    if n > 0 {
      OwnMarksFirst(view, table, txid, inputs, n - 1);
    }
  }

  lemma ClearedAlike(marked: OutputRow, row: OutputRow, victims: set<string>, txid: string)
    requires SameButSpent(marked, row)
    requires row.spent.Some? ==> row.spent.value.txid != txid
    requires marked == row || (marked.spent.Some? && marked.spent.value.txid == txid
      && (row.spent.Some? ==> row.spent.value.txid in victims))
    ensures Cleared(marked, victims + {txid}) == Cleared(row, victims)
  {
  }

  lemma ReleasedUnion(
    marked: OutputTable, rows: OutputTable, table: OutputTable, v: set<string>, victims: set<string>, txid: string)
    requires marked.Keys == table.Keys && v == victims + {txid}
    requires forall k :: k in rows ==> k.txid == txid
    requires forall k :: k in table ==> k.txid != txid && Cleared(marked[k], v) == Cleared(table[k], victims)
    ensures Released(marked + rows, v) == Released(table, victims)
  {
    hide Cleared;
  }

  lemma UndoInputs(t: Tables, tx: IndexedTx, ids: set<string>, victims: set<string>)
    requires Within(t, ids) && tx.txid !in ids
    ensures
      var after := PutInputs(t.inputs, tx, |tx.inputs|);
      (map k | k in after && k.txid !in victims + {tx.txid} :: after[k])
      == (map k | k in t.inputs && k.txid !in victims :: t.inputs[k])
  {
    hide PutInputs, TableWithin;
    PutInputsAt(t.inputs, tx, |tx.inputs|);
  }

  lemma UndoAddresses(t: Tables, tx: IndexedTx, ids: set<string>, victims: set<string>)
    requires Within(t, ids) && tx.txid !in ids
    ensures
      var after := PutAddresses(t.addressTxs, tx, |Addresses(tx)|);
      (map k | k in after && k.1 !in victims + {tx.txid} :: after[k])
      == (map k | k in t.addressTxs && k.1 !in victims :: t.addressTxs[k])
  {
    hide PutAddresses, TableWithin, Addresses;
    PutAddressesAt(t.addressTxs, tx, |Addresses(tx)|);
  }

  lemma UndoRows(rows: map<string, TxRow>, x: string, row: TxRow, victims: set<string>)
    requires x !in rows
    ensures rows[x := row] - (victims + {x}) == rows - victims
    ensures rows - (victims + {x}) == rows - victims
  {
  }

  /** Erasing a transaction together with earlier victims leaves what erasing these alone leaves. */
  lemma UndoTx(wallet: set<string>, t: Tables, tx: IndexedTx, ids: set<string>, victims: set<string>)
    requires Within(t, ids) && tx.txid !in ids
    requires Loose(t.outputs, Prevs(tx.inputs, |tx.inputs|), victims)
    ensures Erase(IndexTx(wallet, t, tx), victims + {tx.txid}) == Erase(t, victims)
  {
    hide Indexed, PutInputs, PutAddresses, Addresses, OwnAffected, Released, TableWithin, Loose, Prevs;
    UndoIndexed(Full, t.outputs, tx, ids, victims);
    UndoIndexed(Own(wallet), t.ownUtxos, tx, ids, victims);
    UndoInputs(t, tx, ids, victims);
    UndoAddresses(t, tx, ids, victims);
    UndoRows(t.transactions, tx.txid, TxRowOf(tx), victims);
    UndoRows(t.ownTxs, tx.txid, TxRowOf(tx), victims);
  }

  lemma LooseKept(table: OutputTable, tx: IndexedTx, consumed: set<Outpoint>, victims: set<string>)
    requires Loose(table, consumed, victims) && Unfiled(table, tx.txid)
    ensures Loose(Indexed(Full, table, tx), consumed, victims + {tx.txid})
  {
    hide MarkSpent, Indexed;
    IndexedAdds(Full, table, tx);
    MarkSpentAt(Full, table, tx.txid, tx.inputs, |tx.inputs|);
    NewRowsUnspent(Full, tx, |tx.outputs|);
    hide NewRows;
  }

  lemma LooseFewer(table: OutputTable, consumed: set<Outpoint>, fewer: set<Outpoint>, victims: set<string>)
    requires Loose(table, consumed, victims) && fewer <= consumed
    ensures Loose(table, fewer, victims)
  {
  }

  // ---- what indexing some transactions on top of `t` does to the tables ----

  /** Erasing the transactions that were added gives back `t`, but for the blocks. */
  ghost predicate Undoable(t: Tables, after: Tables, done: set<string>, consumed: set<Outpoint>) {
    Loose(after.outputs, consumed, done) && Erase(after, done) == t.(blocks := after.blocks)
  }

  /** Every output of `t` that was consumed is noted as spent by one of the transactions that were added. */
  ghost predicate Overwritten(t: Tables, after: Tables, done: set<string>, used: set<Outpoint>) {
    && t.outputs.Keys <= after.outputs.Keys
    && forall k :: k in t.outputs && k in used ==>
      after.outputs[k].spent.Some? && after.outputs[k].spent.value.txid in done
  }

  /** The transactions that were added, and only these, lie above `top`. */
  ghost predicate AddedAbove(t: Tables, after: Tables, done: set<string>, top: int) {
    && after.transactions.Keys == t.transactions.Keys + done
    && (forall x :: x in done ==> after.transactions[x].height > top)
    && (forall x :: x in t.transactions && x !in done ==> after.transactions[x] == t.transactions[x])
  }

  /**
   * `after` is `t` with the transactions `done` added, which lie above `top` and consume the outputs `used`;
   * `consumed` is what these and those that still follow consume.
   */
  ghost predicate Progress(
    t: Tables, after: Tables, top: int, done: set<string>, used: set<Outpoint>, consumed: set<Outpoint>)
  {
    && Within(t, t.transactions.Keys) && done !! t.transactions.Keys && used <= consumed
    && Within(after, t.transactions.Keys + done)
    && (Loose(t.outputs, consumed, {}) ==> Undoable(t, after, done, consumed))
    && Overwritten(t, after, done, used)
    && AddedAbove(t, after, done, top)
  }

  lemma NoProgress(t: Tables, top: int, consumed: set<Outpoint>)
    requires Within(t, t.transactions.Keys)
    ensures Progress(t, t, top, {}, {}, consumed)
  {
    hide Within, Loose;
    EraseNothing(t);
    assert t.transactions.Keys + {} == t.transactions.Keys;
  }

  lemma UndoableStep(
    wallet: set<string>, t: Tables, after: Tables, tx: IndexedTx, ids: set<string>, done: set<string>,
    consumed: set<Outpoint>)
    requires Undoable(t, after, done, consumed) && Within(after, ids) && tx.txid !in ids
    requires Prevs(tx.inputs, |tx.inputs|) <= consumed
    ensures Undoable(t, IndexTx(wallet, after, tx), done + {tx.txid}, consumed)
  {
    hide Indexed, PutInputs, PutAddresses, Addresses, OwnAffected, Erase, TableWithin, Loose, Prevs;
    LooseFewer(after.outputs, consumed, Prevs(tx.inputs, |tx.inputs|), done);
    UndoTx(wallet, after, tx, ids, done);
    UnfiledOutside(after.outputs, ids, tx.txid);
    LooseKept(after.outputs, tx, consumed, done);
  }

  lemma {:induction false} LastSpender(table: OutputTable, txid: string, inputs: seq<IndexedInput>, n: nat)
    requires n <= |inputs|
    ensures
      var t := MarkSpent(Full, table, txid, inputs, n);
      && t.Keys == table.Keys
      && forall k :: k in table && k in Prevs(inputs, n) ==> t[k].spent.Some? && t[k].spent.value.txid == txid
  {
    if n > 0 {
      LastSpender(table, txid, inputs, n - 1);
      assert forall k :: k in Prevs(inputs, n) ==> k in Prevs(inputs, n - 1) || k == inputs[n - 1].prev;
    }
  }

  lemma OverwrittenStep(
    wallet: set<string>, t: Tables, after: Tables, tx: IndexedTx, ids: set<string>, done: set<string>,
    used: set<Outpoint>)
    requires Overwritten(t, after, done, used) && Within(after, ids) && tx.txid !in ids
    ensures
      Overwritten(t, IndexTx(wallet, after, tx), done + {tx.txid}, used + Prevs(tx.inputs, |tx.inputs|))
  {
    hide MarkSpent, Indexed, PutInputs, PutAddresses, Addresses, OwnAffected, TableWithin, Prevs, NewRows;
    UnfiledOutside(after.outputs, ids, tx.txid);
    IndexedAdds(Full, after.outputs, tx);
    MarkSpentAt(Full, after.outputs, tx.txid, tx.inputs, |tx.inputs|);
    LastSpender(after.outputs, tx.txid, tx.inputs, |tx.inputs|);
    NewRowsKeys(Full, tx, |tx.outputs|);
  }

  lemma AddedStep(
    wallet: set<string>, t: Tables, after: Tables, tx: IndexedTx, done: set<string>, top: int)
    requires AddedAbove(t, after, done, top) && tx.height > top && tx.txid !in t.transactions.Keys + done
    ensures AddedAbove(t, IndexTx(wallet, after, tx), done + {tx.txid}, top)
  {
    hide Indexed, PutInputs, PutAddresses, Addresses, OwnAffected;
  }

  /** One more transaction, with an identifier that is new. */
  lemma ProgressStep(
    wallet: set<string>, t: Tables, after: Tables, tx: IndexedTx, top: int, done: set<string>, used: set<Outpoint>,
    consumed: set<Outpoint>)
    requires Progress(t, after, top, done, used, consumed)
    requires tx.txid !in t.transactions.Keys + done && tx.height > top
    requires Prevs(tx.inputs, |tx.inputs|) <= consumed
    ensures
      Progress(t, IndexTx(wallet, after, tx), top, done + {tx.txid}, used + Prevs(tx.inputs, |tx.inputs|), consumed)
  {
    hide IndexTx, Undoable, Overwritten, AddedAbove, Loose, Prevs, Within;
    var ids := t.transactions.Keys + done;
    IndexTxWithin(wallet, after, tx, ids);
    assert ids + {tx.txid} == t.transactions.Keys + (done + {tx.txid});
    OverwrittenStep(wallet, t, after, tx, ids, done, used);
    AddedStep(wallet, t, after, tx, done, top);
    if Loose(t.outputs, consumed, {}) {
      UndoableStep(wallet, t, after, tx, ids, done, consumed);
    }
  }

  // ---- one block ----

  /** The identifiers that a block brings into the index. */
  ghost function Brought(env: Env, b: Block): set<string> {
    (if HasMining(b) then {CoinbaseId(env, b.header.height, b.coinbase.value)} else {}) + IdsOf(env, b.transactions)
  }

  /** The identifiers of the block are distinct, and none is in `ids`. */
  ghost predicate FreshBlock(env: Env, ids: set<string>, b: Block) {
    && Brought(env, b) !! ids && DistinctIds(env, b.transactions)
    && (HasMining(b) ==> CoinbaseId(env, b.header.height, b.coinbase.value) !in IdsOf(env, b.transactions))
  }

  lemma ProgressStored(
    t: Tables, after: Tables, b: Block, top: int, done: set<string>, used: set<Outpoint>, consumed: set<Outpoint>)
    requires Progress(t, after, top, done, used, consumed)
    ensures Progress(t, StoreBlock(after, b), top, done, used, consumed)
  {
    hide Loose, TableWithin;
    BlocksAside(after, done, StoreBlock(after, b).blocks);
  }

  lemma MiningProgress(
    env: Env, wallet: set<string>, t: Tables, after: Tables, b: Block, top: int, done: set<string>,
    used: set<Outpoint>, consumed: set<Outpoint>)
    requires Progress(t, after, top, done, used, consumed) && b.header.height > top
    requires HasMining(b) ==>
      CoinbaseId(env, b.header.height, b.coinbase.value) !in t.transactions.Keys + done
    ensures
      var brought := if HasMining(b) then {CoinbaseId(env, b.header.height, b.coinbase.value)} else {};
      Progress(t, IndexCoinbase(env, wallet, after, b), top, done + brought, used, consumed)
  {
    hide Progress, IndexTx, CoinbaseId;
    if HasMining(b) {
      var itx := MiningTx(env, b, b.coinbase.value);
      assert Prevs(itx.inputs, |itx.inputs|) == {};
      ProgressStep(wallet, t, after, itx, top, done, used, consumed);
      assert used + {} == used;
    } else {
      assert done + {} == done;
    }
  }

  lemma {:induction false} TransfersProgress(
    env: Env, wallet: set<string>, t: Tables, after: Tables, b: Block, n: nat, top: int, done: set<string>,
    used: set<Outpoint>, consumed: set<Outpoint>)
    requires n <= |b.transactions| && Progress(t, after, top, done, used, consumed) && b.header.height > top
    requires DistinctIds(env, b.transactions) && IdsOf(env, b.transactions) !! t.transactions.Keys + done
    requires SpentBy(b.transactions) <= consumed
    ensures
      Progress(t, IndexTransactions(env, wallet, after, b, n), top, done + IdsOf(env, b.transactions[..n]),
        used + SpentBy(b.transactions[..n]), consumed)
  {
    hide TransactionId, Progress, IndexTx, InputSet, DistinctIds, TransferTx, PayloadsOf;
    if n > 0 {
      var init, last := b.transactions[..n - 1], b.transactions[n - 1];
      assert b.transactions[..n][..n - 1] == init;
      TransfersProgress(env, wallet, t, after, b, n - 1, top, done, used, consumed);
      MemberOf(env, b.transactions, n - 1);
      IdNotBefore(env, b.transactions, n - 1);
      var before := IndexTransactions(env, wallet, after, b, n - 1);
      TransferFields(env, before.outputs, b, last);
      ProgressStep(wallet, t, before, TransferTx(env, before.outputs, b, last), top, done + IdsOf(env, init),
        used + SpentBy(init), consumed);
      assert done + IdsOf(env, init) + {TransactionId(env, last)} == done + IdsOf(env, b.transactions[..n]);
      assert used + SpentBy(init) + InputSet(last.inputs) == used + SpentBy(b.transactions[..n]);
    } else {
      assert done + {} == done && used + {} == used;
    }
  }

  lemma TransferFields(env: Env, outputs: OutputTable, b: Block, tx: Transaction)
    ensures
      var itx := TransferTx(env, outputs, b, tx);
      && itx.txid == TransactionId(env, tx) && itx.height == b.header.height && |itx.inputs| == |tx.inputs|
      && Prevs(itx.inputs, |itx.inputs|) == InputSet(tx.inputs)
  {
    hide TransactionId, InputSet, Prevs;
    TransferPrevs(env, outputs, b, tx);
  }

  lemma BlockProgress(
    env: Env, wallet: set<string>, t: Tables, after: Tables, b: Block, top: int, done: set<string>,
    used: set<Outpoint>, consumed: set<Outpoint>)
    requires Progress(t, after, top, done, used, consumed) && b.header.height > top
    requires FreshBlock(env, t.transactions.Keys + done, b) && SpentBy(b.transactions) <= consumed
    ensures
      Progress(t, IndexBlock(env, wallet, after, b), top, done + Brought(env, b), used + SpentBy(b.transactions),
        consumed)
  {
    hide Progress, CoinbaseId, IdsOf, SpentBy, DistinctIds, IndexTransactions, IndexCoinbase, StoreBlock;
    var brought := if HasMining(b) then {CoinbaseId(env, b.header.height, b.coinbase.value)} else {};
    var stored := StoreBlock(after, b);
    ProgressStored(t, after, b, top, done, used, consumed);
    MiningProgress(env, wallet, t, stored, b, top, done, used, consumed);
    var mined := IndexCoinbase(env, wallet, stored, b);
    TransfersProgress(env, wallet, t, mined, b, |b.transactions|, top, done + brought, used, consumed);
    assert b.transactions[..|b.transactions|] == b.transactions;
    assert done + brought + IdsOf(env, b.transactions) == done + Brought(env, b);
  }

  // ---- a batch of blocks ----

  ghost function BroughtBy(env: Env, blocks: seq<Block>): set<string> {
    if |blocks| == 0 then {} else BroughtBy(env, blocks[..|blocks| - 1]) + Brought(env, blocks[|blocks| - 1])
  }

  ghost function SpentIn(blocks: seq<Block>): set<Outpoint> {
    if |blocks| == 0 then {} else SpentIn(blocks[..|blocks| - 1]) + SpentBy(blocks[|blocks| - 1].transactions)
  }

  /** All identifiers that the blocks bring are distinct, and none is in `ids`. */
  ghost predicate FreshBlocks(env: Env, ids: set<string>, blocks: seq<Block>) {
    |blocks| > 0 ==>
      && FreshBlocks(env, ids, blocks[..|blocks| - 1])
      && FreshBlock(env, ids + BroughtBy(env, blocks[..|blocks| - 1]), blocks[|blocks| - 1])
  }

  /** Blocks and transactions lie at or below `top`. */
  ghost predicate Below(t: Tables, top: int) {
    && (forall h :: h in t.blocks ==> h <= top)
    && (forall x :: x in t.transactions ==> t.transactions[x].height <= top)
  }

  ghost predicate AllAbove(blocks: seq<Block>, top: int) {
    forall k :: 0 <= k < |blocks| ==> blocks[k].header.height > top
  }

  lemma {:induction false} BatchProgress(
    env: Env, wallet: set<string>, t: Tables, batch: seq<Block>, top: int, consumed: set<Outpoint>)
    requires Within(t, t.transactions.Keys) && AllAbove(batch, top)
    requires FreshBlocks(env, t.transactions.Keys, batch) && SpentIn(batch) <= consumed
    ensures
      Progress(t, IndexBlocks(env, wallet, t, batch), top, BroughtBy(env, batch), SpentIn(batch), consumed)
  {
    hide Progress, FreshBlock, Brought, SpentBy, IndexBlock, Within;
    if |batch| == 0 {
      NoProgress(t, top, consumed);
    } else {
      var init, b := batch[..|batch| - 1], batch[|batch| - 1];
      BatchProgress(env, wallet, t, init, top, consumed);
      BlockProgress(env, wallet, t, IndexBlocks(env, wallet, t, init), b, top, BroughtBy(env, init), SpentIn(init),
        consumed);
    }
  }

  lemma {:induction false} BlocksOfBatch(env: Env, wallet: set<string>, t: Tables, batch: seq<Block>, top: int)
    requires AllAbove(batch, top)
    ensures forall h :: h <= top ==> (h in IndexBlocks(env, wallet, t, batch).blocks <==> h in t.blocks)
    ensures forall h :: h <= top && h in t.blocks ==> IndexBlocks(env, wallet, t, batch).blocks[h] == t.blocks[h]
  {
    hide IndexBlock;
    if |batch| > 0 {
      var init, b := batch[..|batch| - 1], batch[|batch| - 1];
      BlocksOfBatch(env, wallet, t, init, top);
      BlocksOf(env, wallet, IndexBlocks(env, wallet, t, init), b);
    }
  }

  lemma VictimsAreDone(t: Tables, after: Tables, done: set<string>, top: int)
    requires AddedAbove(t, after, done, top) && done !! t.transactions.Keys && Below(t, top)
    ensures Victims(after, top) == done
  {
    forall x | x in t.transactions.Keys + done ensures x in Victims(after, top) <==> x in done {
      assert x in after.transactions;
    }
  }

  /** What rolling back to `top` then leaves: the old blocks, and everything else with `done` erased. */
  lemma TruncatedIs(t: Tables, after: Tables, done: set<string>, top: int)
    requires Victims(after, top) == done && Below(t, top)
    requires forall h :: h <= top ==> (h in after.blocks <==> h in t.blocks)
    requires forall h :: h <= top && h in t.blocks ==> after.blocks[h] == t.blocks[h]
    ensures Truncated(after, top) == Erase(after, done).(blocks := t.blocks)
  {
    hide Erase, Victims;
    var kept := map h | h in after.blocks && h <= top :: after.blocks[h];
    assert forall h :: h in kept <==> h in t.blocks;
    assert kept == t.blocks;
  }

  /** A spender noted in `t` that was overwritten does not come back. */
  lemma OverwrittenIsLost(t: Tables, after: Tables, done: set<string>, used: set<Outpoint>)
    requires Overwritten(t, after, done, used) && Within(t, t.transactions.Keys) && done !! t.transactions.Keys
    requires Released(after.outputs, done) == t.outputs
    ensures Loose(t.outputs, used, {})
  {
    forall k | k in t.outputs && k in used ensures t.outputs[k].spent.None? {
      assert t.outputs[k] == Cleared(after.outputs[k], done);
    }
  }

  /**
   * Rolling back to the height from which a batch of blocks was appended restores every table exactly when no
   * transaction of the batch consumes an output that the index already notes as spent. The tables may hold anything,
   * and the blocks need only have new identifiers and heights above.
   */
  lemma RollbackUndoesBatch(env: Env, wallet: set<string>, t: Tables, top: int, batch: seq<Block>)
    requires Within(t, t.transactions.Keys) && Below(t, top) && AllAbove(batch, top)
    requires FreshBlocks(env, t.transactions.Keys, batch)
    ensures Truncated(IndexBlocks(env, wallet, t, batch), top) == t <==> Loose(t.outputs, SpentIn(batch), {})
  {
    hide Within, Below, AllAbove, FreshBlocks, BroughtBy, SpentIn, IndexBlocks, Loose, Truncated, Erase, AddedAbove;
    hide Overwritten, Victims;
    var after, done := IndexBlocks(env, wallet, t, batch), BroughtBy(env, batch);
    BatchProgress(env, wallet, t, batch, top, SpentIn(batch));
    BlocksOfBatch(env, wallet, t, batch, top);
    VictimsAreDone(t, after, done, top);
    TruncatedIs(t, after, done, top);
    if Truncated(after, top) == t {
      ErasedOutputs(after, done);
      OverwrittenIsLost(t, after, done, SpentIn(batch));
    }
  }

  lemma ErasedOutputs(t: Tables, v: set<string>)
    ensures Erase(t, v).outputs == Released(t.outputs, v)
  {
    hide Released;
  }

  /** The same for a single block. */
  lemma RollbackUndoesBlock(env: Env, wallet: set<string>, t: Tables, top: int, b: Block)
    requires Within(t, t.transactions.Keys) && Below(t, top) && b.header.height > top
    requires FreshBlock(env, t.transactions.Keys, b)
    ensures Truncated(IndexBlock(env, wallet, t, b), top) == t <==> Loose(t.outputs, SpentBy(b.transactions), {})
  {
    hide Within, Below, FreshBlock, SpentBy, IndexBlock, Loose, Truncated, Brought;
    var batch := [b];
    assert batch[..0] == [] && batch[0] == b;
    assert IndexBlocks(env, wallet, t, batch) == IndexBlock(env, wallet, IndexBlocks(env, wallet, t, []), b);
    assert SpentIn(batch) == SpentBy(b.transactions);
    assert FreshBlocks(env, t.transactions.Keys, batch) by {
      assert t.transactions.Keys + BroughtBy(env, []) == t.transactions.Keys;
    }
    RollbackUndoesBatch(env, wallet, t, top, batch);
  }

  // ---- rollback in general ----

  /** A deeper rollback may go by way of a shallower one. */
  lemma TruncateTwice(t: Tables, high: int, low: int)
    requires low <= high
    ensures Truncated(Truncated(t, high), low) == Truncated(t, low)
  {
    hide Erase;
    var v, w := Victims(t, high), Victims(t, low);
    var once := Truncated(t, high);
    ErasedParts(t, v);
    assert Victims(once, low) == w - v;
    EraseTwice(t, v, w - v);
    assert v + (w - v) == w;
    BlocksAside(Erase(t, v), w - v, once.blocks);
    ErasedParts(Erase(t, v), w - v);
    ErasedParts(t, w);
    assert Truncated(once, low).blocks == Truncated(t, low).blocks;
  }

  lemma ErasedParts(t: Tables, v: set<string>)
    ensures Erase(t, v).blocks == t.blocks && Erase(t, v).transactions == t.transactions - v
  {
  }

  lemma BlocksAside(t: Tables, v: set<string>, blocks: map<int, BlockRow>)
    ensures Erase(t.(blocks := blocks), v) == Erase(t, v).(blocks := blocks)
  {
  }

  /** The blocks up to a height; none below zero. */
  function UpTo(path: seq<Block>, height: int): seq<Block> {
    path[..CountUpTo(path, height)]
  }

  /** The blocks above a height. */
  function Above(path: seq<Block>, height: int): seq<Block> {
    path[CountUpTo(path, height)..]
  }

  function CountUpTo(path: seq<Block>, height: int): (n: nat)
    ensures n <= |path|
  {
    if height < 0 then 0 else if height + 1 < |path| then height + 1 else |path|
  }

  ghost predicate HeightsCount(path: seq<Block>) {
    forall i :: 0 <= i < |path| ==> path[i].header.height == i
  }

  /** Blocks with the heights of their positions, all of whose identifiers are distinct. */
  ghost predicate IndexablePath(env: Env, path: seq<Block>) {
    HeightsCount(path) && FreshBlocks(env, {}, path)
  }

  lemma {:induction false} IndexBlocksOf(env: Env, wallet: set<string>, path: seq<Block>, batch: seq<Block>)
    ensures IndexBlocks(env, wallet, IndexOf(env, wallet, path), batch) == IndexOf(env, wallet, path + batch)
  {
    hide IndexBlock;
    if |batch| == 0 {
      assert path + batch == path;
    } else {
      var init := batch[..|batch| - 1];
      IndexBlocksOf(env, wallet, path, init);
      assert (path + batch)[..|path + batch| - 1] == path + init;
    }
  }

  lemma {:induction false} FreshInParts(env: Env, path: seq<Block>, batch: seq<Block>)
    ensures BroughtBy(env, path + batch) == BroughtBy(env, path) + BroughtBy(env, batch)
    ensures FreshBlocks(env, {}, path + batch) ==>
      FreshBlocks(env, {}, path) && FreshBlocks(env, BroughtBy(env, path), batch)
  {
    hide FreshBlock, Brought;
    if |batch| == 0 {
      assert path + batch == path;
    } else {
      var init := batch[..|batch| - 1];
      FreshInParts(env, path, init);
      assert (path + batch)[..|path + batch| - 1] == path + init;
      assert {} + BroughtBy(env, path + init) == BroughtBy(env, path) + BroughtBy(env, init);
    }
  }

  /** The rows of an index belong to the identifiers that its blocks brought. */
  lemma WithinOfIndex(env: Env, wallet: set<string>, path: seq<Block>)
    requires IndexablePath(env, path)
    ensures
      var t := IndexOf(env, wallet, path);
      t.transactions.Keys == BroughtBy(env, path) && Within(t, t.transactions.Keys)
  {
    hide Within, FreshBlocks, BroughtBy, SpentIn, IndexBlocks, Loose, Undoable, Overwritten;
    assert [] + path == path;
    assert IndexOf(env, wallet, []) == NO_TABLES;
    IndexBlocksOf(env, wallet, [], path);
    NothingWithin();
    BatchProgress(env, wallet, NO_TABLES, path, -1, SpentIn(path));
    assert {} + BroughtBy(env, path) == BroughtBy(env, path);
  }

  lemma NothingWithin()
    ensures NO_TABLES.transactions.Keys == {} && Within(NO_TABLES, {})
  {
  }

  lemma BelowTx(wallet: set<string>, t: Tables, tx: IndexedTx, top: int)
    requires Below(t, top) && tx.height <= top
    ensures Below(IndexTx(wallet, t, tx), top)
  {
    hide Indexed, PutInputs, PutAddresses, Addresses, OwnAffected;
  }

  lemma {:induction false} BelowTransfers(env: Env, wallet: set<string>, t: Tables, b: Block, n: nat, top: int)
    requires n <= |b.transactions| && Below(t, top) && b.header.height <= top
    ensures Below(IndexTransactions(env, wallet, t, b, n), top)
  {
    hide Below, IndexTx, TransferTx;
    if n > 0 {
      BelowTransfers(env, wallet, t, b, n - 1, top);
      var before := IndexTransactions(env, wallet, t, b, n - 1);
      TransferFields(env, before.outputs, b, b.transactions[n - 1]);
      BelowTx(wallet, before, TransferTx(env, before.outputs, b, b.transactions[n - 1]), top);
    }
  }

  lemma BelowBlock(env: Env, wallet: set<string>, t: Tables, b: Block, top: int)
    requires Below(t, top) && b.header.height <= top
    ensures Below(IndexBlock(env, wallet, t, b), top)
  {
    hide IndexTx, CoinbaseId, IndexTransactions;
    var stored := StoreBlock(t, b);
    assert Below(stored, top);
    if HasMining(b) {
      BelowTx(wallet, stored, MiningTx(env, b, b.coinbase.value), top);
    }
    BelowTransfers(env, wallet, IndexCoinbase(env, wallet, stored, b), b, |b.transactions|, top);
  }

  lemma {:induction false} BelowTip(env: Env, wallet: set<string>, path: seq<Block>, top: int)
    requires HeightsCount(path) && top >= |path| - 1
    ensures Below(IndexOf(env, wallet, path), top)
  {
    hide Below, IndexBlock;
    if |path| == 0 {
      NothingBelow(top);
    } else {
      BelowTip(env, wallet, path[..|path| - 1], top);
      BelowBlock(env, wallet, IndexOf(env, wallet, path[..|path| - 1]), path[|path| - 1], top);
    }
  }

  lemma NothingBelow(top: int)
    ensures Below(NO_TABLES, top)
  {
  }

  /**
   * Rolling the index of a chain back to a height gives the index of the chain up to there exactly when no
   * transaction above spends an output that the index up to there notes as spent.
   */
  lemma RollbackUndoesAppend(env: Env, wallet: set<string>, path: seq<Block>, height: int)
    requires IndexablePath(env, path)
    ensures
      Truncated(IndexOf(env, wallet, path), height) == IndexOf(env, wallet, UpTo(path, height))
      <==> Loose(IndexOf(env, wallet, UpTo(path, height)).outputs, SpentIn(Above(path, height)), {})
  {
    hide Within, Below, FreshBlocks, BroughtBy, SpentIn, IndexBlocks, Loose, Truncated, IndexOf;
    var low, batch := UpTo(path, height), Above(path, height);
    assert low + batch == path;
    FreshInParts(env, low, batch);
    WithinOfIndex(env, wallet, low);
    BelowTip(env, wallet, low, if height < -1 then -1 else height);
    NothingBelow(height);
    assert Below(IndexOf(env, wallet, low), height) by {
      if height < -1 {
        NothingIndexed(env, wallet);
      }
    }
    IndexBlocksOf(env, wallet, low, batch);
    RollbackUndoesBatch(env, wallet, IndexOf(env, wallet, low), height, batch);
  }

  lemma NothingIndexed(env: Env, wallet: set<string>)
    ensures IndexOf(env, wallet, []) == NO_TABLES
  {
  }

  // ---- chains that consensus applies ----

  lemma ConsumedAreLoose(wallet: set<string>, t: Tables, ids: set<string>, entries: Entries, consumed: set<Outpoint>)
    requires Agrees(wallet, t, ids, entries) && consumed <= entries.Keys
    ensures Loose(t.outputs, consumed, {})
  {
    hide Within;
  }

  /** What an applied block brings is what it files outputs under. */
  lemma BroughtIsFiled(env: Env, path: seq<Block>)
    requires WalletPath(env, path) && |path| > 1
    ensures
      var b := path[|path| - 1];
      Brought(env, b) == BlockIds(env, b) && FreshBlock(env, Ids(env, path[..|path| - 1]), b)
  {
    hide WalletPath, CoinbaseId, DistinctIds, IdsOf, InputSet, Replay, Ids;
    NextBlockFacts(env, path);
  }

  lemma FirstBringsNothing(env: Env, b: Block)
    requires b.coinbase.None? && b.transactions == []
    ensures Brought(env, b) == {} && FreshBlock(env, {}, b)
  {
  }

  lemma {:induction false} AppliedIsIndexable(env: Env, path: seq<Block>)
    requires WalletPath(env, path)
    ensures IndexablePath(env, path) && BroughtBy(env, path) == Ids(env, path)
  {
    hide LedgerPath, NoCollisions, Brought, FreshBlock, BlockIds;
    if |path| > 1 {
      var init := path[..|path| - 1];
      WalletPathPrefix(env, path, |path| - 1);
      AppliedIsIndexable(env, init);
      BroughtIsFiled(env, path);
      assert {} + BroughtBy(env, init) == Ids(env, init);
    } else if |path| == 1 {
      assert path[..0] == [];
      FirstBringsNothing(env, path[0]);
      assert BroughtBy(env, []) == {} && FreshBlocks(env, {}, []);
      assert {} + BroughtBy(env, []) == {};
    }
  }

  lemma NextSpendsUnspent(env: Env, wallet: set<string>, path: seq<Block>)
    requires WalletPath(env, path) && |path| > 1
    ensures Loose(IndexOf(env, wallet, path[..|path| - 1]).outputs, SpentBy(path[|path| - 1].transactions), {})
  {
    hide *;
    var init, b := path[..|path| - 1], path[|path| - 1];
    WalletPathPrefix(env, path, |path| - 1);
    IndexAgrees(env, wallet, init);
    NextBlockFacts(env, path);
    SpentByWithin(b.transactions, Replay(env, init).entries.Keys);
    ConsumedAreLoose(wallet, IndexOf(env, wallet, init), Ids(env, init), Replay(env, init).entries,
      SpentBy(b.transactions));
  }

  lemma LastUndone(env: Env, wallet: set<string>, path: seq<Block>)
    requires WalletPath(env, path) && |path| > 1
    ensures Truncated(IndexOf(env, wallet, path), |path| - 2) == IndexOf(env, wallet, path[..|path| - 1])
  {
    hide IndexBlock, WalletPath, Truncated, Loose, SpentBy, Below, Within, FreshBlocks, Ids, FreshBlock;
    hide BroughtBy;
    var init, b := path[..|path| - 1], path[|path| - 1];
    WalletPathPrefix(env, path, |path| - 1);
    AppliedIsIndexable(env, init);
    AppliedIsIndexable(env, path);
    WithinOfIndex(env, wallet, init);
    BelowTip(env, wallet, init, |path| - 2);
    BroughtIsFiled(env, path);
    NextSpendsUnspent(env, wallet, path);
    RollbackUndoesBlock(env, wallet, IndexOf(env, wallet, init), |path| - 2, b);
  }

  /** On a chain that consensus applies, rollback to any height undoes append in every table. */
  lemma {:induction false} AppliedRollsBack(env: Env, wallet: set<string>, path: seq<Block>, height: int)
    requires WalletPath(env, path)
    ensures Truncated(IndexOf(env, wallet, path), height) == IndexOf(env, wallet, UpTo(path, height))
  {
    hide IndexBlock, WalletPath, Truncated, IndexOf, IndexablePath, Loose;
    AppliedIsIndexable(env, path);
    if |path| > 1 && height < |path| - 1 {
      var init := path[..|path| - 1];
      WalletPathPrefix(env, path, |path| - 1);
      LastUndone(env, wallet, path);
      TruncateTwice(IndexOf(env, wallet, path), |path| - 2, height);
      AppliedRollsBack(env, wallet, init, height);
      assert UpTo(init, height) == UpTo(path, height);
    } else {
      FewAreLoose(env, wallet, path, height);
      RollbackUndoesAppend(env, wallet, path, height);
    }
  }

  lemma FewAreLoose(env: Env, wallet: set<string>, path: seq<Block>, height: int)
    requires WalletPath(env, path) && (|path| <= 1 || height >= |path| - 1)
    ensures Loose(IndexOf(env, wallet, UpTo(path, height)).outputs, SpentIn(Above(path, height)), {})
  {
    hide LedgerPath, NoCollisions, IndexBlock;
    if |path| <= 1 {
      NothingIndexed(env, wallet);
    }
    var above := Above(path, height);
    if |above| == 1 {
      assert above[..0] == [] && UpTo(path, height) == [];
    }
  }
}
