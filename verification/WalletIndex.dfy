/** The wallet's index agrees with the unspent-output state of consensus on every applied chain. */
module WalletIndex {
  import opened Prelude
  import opened Types
  import opened SigningText
  import opened State
  import opened History
  import opened WalletTables

  ghost function Prevs(inputs: seq<IndexedInput>, n: nat): set<Outpoint>
    requires n <= |inputs|
  {
    set k | 0 <= k < n :: inputs[k].prev
  }

  // ---- one table ----

  /** `row` is `other`, except perhaps for who spent it. */
  predicate SameButSpent(row: OutputRow, other: OutputRow) {
    row.(spent := None) == other.(spent := None)
  }

  /** Marking changes only who spent the consumed outputs. */
  lemma {:induction false} MarkSpentAt(view: View, table: OutputTable, txid: string, inputs: seq<IndexedInput>, n: nat)
    requires n <= |inputs|
    ensures
      var t := MarkSpent(view, table, txid, inputs, n);
      && t.Keys == table.Keys
      && (forall k :: k in table ==> SameButSpent(t[k], table[k]))
      && (forall k :: k in table ==> t[k] == table[k] || (t[k].spent.Some? && t[k].spent.value.txid == txid))
      && (forall k :: k in table && k !in Prevs(inputs, n) ==> t[k] == table[k])
      && (forall k :: k in table && table[k].spent.Some? ==> t[k].spent.Some?)
  {
    if n > 0 {
      MarkSpentAt(view, table, txid, inputs, n - 1);
      assert inputs[n - 1].prev in Prevs(inputs, n);
    }
  }

  /** A consumed output that the view shows is spent afterwards. */
  lemma {:induction false} MarkedIsSpent(
    view: View, table: OutputTable, txid: string, inputs: seq<IndexedInput>, n: nat, i: nat)
    requires i < n <= |inputs| && inputs[i].prev in table && view.Shows(inputs[i].address)
    ensures inputs[i].prev in MarkSpent(view, table, txid, inputs, n)
    ensures MarkSpent(view, table, txid, inputs, n)[inputs[i].prev].spent.Some?
  {
    MarkSpentAt(view, table, txid, inputs, n);
    if i < n - 1 {
      MarkedIsSpent(view, table, txid, inputs, n - 1, i);
    } else {
      MarkSpentAt(view, table, txid, inputs, n - 1);
    }
  }

  /** The full index notes the last input that consumes an output, whoever was noted before. */
  lemma {:induction false} LastSpenderNoted(
    table: OutputTable, txid: string, inputs: seq<IndexedInput>, n: nat, i: nat)
    requires i < n <= |inputs| && inputs[i].prev in table
    requires forall j :: i < j < n ==> inputs[j].prev != inputs[i].prev
    ensures inputs[i].prev in MarkSpent(Full, table, txid, inputs, n)
    ensures MarkSpent(Full, table, txid, inputs, n)[inputs[i].prev].spent == Some(Spender(txid, i))
  {
    MarkSpentAt(Full, table, txid, inputs, n);
    MarkSpentAt(Full, table, txid, inputs, n - 1);
    if i < n - 1 {
      LastSpenderNoted(table, txid, inputs, n - 1, i);
    }
  }

  /** The own view notes the first, and never replaces it. */
  lemma {:induction false} FirstSpenderNoted(
    own: set<string>, table: OutputTable, txid: string, inputs: seq<IndexedInput>, n: nat, i: nat)
    requires i < n <= |inputs| && inputs[i].prev in table && inputs[i].address in own
    requires forall j :: 0 <= j < i ==> inputs[j].prev != inputs[i].prev
    ensures inputs[i].prev in MarkSpent(Own(own), table, txid, inputs, n)
    ensures
      var spent := table[inputs[i].prev].spent;
      MarkSpent(Own(own), table, txid, inputs, n)[inputs[i].prev].spent
      == if spent.Some? then spent else Some(Spender(txid, i))
  {
    MarkSpentAt(Own(own), table, txid, inputs, n);
    MarkSpentAt(Own(own), table, txid, inputs, n - 1);
    if i < n - 1 {
      FirstSpenderNoted(own, table, txid, inputs, n - 1, i);
    } else {
      assert inputs[i].prev !in Prevs(inputs, i);
    }
  }

  /** Filing outputs again leaves alone who spent them, and the outputs of other transactions. */
  lemma {:induction false} FilingKeepsSpender(view: View, table: OutputTable, tx: IndexedTx, n: nat)
    requires n <= |tx.outputs|
    ensures
      var t := PutOutputs(view, table, tx, n);
      forall k :: k in table ==> k in t && t[k].spent == table[k].spent && (k.txid != tx.txid ==> t[k] == table[k])
  {
    hide RowOf;
    if n > 0 {
      FilingKeepsSpender(view, table, tx, n - 1);
    }
  }

  /** No row of the table belongs to this transaction. */
  ghost predicate Unfiled(table: OutputTable, txid: string) {
    forall k :: k in table ==> k.txid != txid
  }

  ghost function NewRows(view: View, tx: IndexedTx, n: nat): OutputTable
    requires n <= |tx.outputs|
  {
    map k | 0 <= k < n && view.Shows(tx.outputs[k].address) :: Outpoint(tx.txid, k) := RowOf(tx, tx.outputs[k])
  }

  lemma NewRowsStep(view: View, tx: IndexedTx, n: nat)
    requires 0 < n <= |tx.outputs|
    ensures
      var rows, k := NewRows(view, tx, n - 1), Outpoint(tx.txid, n - 1);
      && k !in rows
      && NewRows(view, tx, n)
         == if view.Shows(tx.outputs[n - 1].address) then rows[k := RowOf(tx, tx.outputs[n - 1])] else rows
  {
    hide RowOf;
  }

  lemma NewRowsKeys(view: View, tx: IndexedTx, n: nat)
    requires n <= |tx.outputs|
    ensures forall k :: k in NewRows(view, tx, n) ==> k.txid == tx.txid
  {
  }

  /** The outputs of a transaction that is not filed yet become new rows. */
  lemma {:induction false} PutOutputsAdds(view: View, table: OutputTable, tx: IndexedTx, n: nat)
    requires n <= |tx.outputs| && Unfiled(table, tx.txid)
    ensures PutOutputs(view, table, tx, n) == table + NewRows(view, tx, n)
  {
    hide RowOf, NewRows;
    if n > 0 {
      PutOutputsAdds(view, table, tx, n - 1);
      NewRowsStep(view, tx, n);
      var rows, k := NewRows(view, tx, n - 1), Outpoint(tx.txid, n - 1);
      assert k !in table + rows;
      AddAbove(table, rows, k, RowOf(tx, tx.outputs[n - 1]));
    } else {
      assert NewRows(view, tx, 0) == map[] by { NewRowsEmpty(view, tx); }
    }
  }

  lemma NewRowsEmpty(view: View, tx: IndexedTx)
    ensures NewRows(view, tx, 0) == map[]
  {
  }

  lemma AddAbove<K, V>(a: map<K, V>, b: map<K, V>, k: K, v: V)
    ensures (a + b)[k := v] == a + b[k := v]
  {
  }

  lemma IndexedAdds(view: View, table: OutputTable, tx: IndexedTx)
    requires Unfiled(table, tx.txid)
    ensures Indexed(view, table, tx)
      == MarkSpent(view, table, tx.txid, tx.inputs, |tx.inputs|) + NewRows(view, tx, |tx.outputs|)
  {
    hide NewRows, RowOf, MarkSpent;
    MarkSpentAt(view, table, tx.txid, tx.inputs, |tx.inputs|);
    PutOutputsAdds(view, MarkSpent(view, table, tx.txid, tx.inputs, |tx.inputs|), tx, |tx.outputs|);
  }

  // ---- the full index mirrors the unspent outputs ----

  predicate RowFits(row: OutputRow, e: UtxoEntry) {
    && row.address == e.address && row.amount == e.amountPhotons && row.height == e.birthHeight
    && row.matureAtHeight == (if e.isCoinbase then Some(e.birthHeight + COINBASE_MATURITY) else None)
  }

  /** The unspent rows are the entries. */
  ghost predicate Mirrors(table: OutputTable, entries: Entries) {
    && (forall k :: k in entries <==> k in table && table[k].spent.None?)
    && (forall k :: k in entries ==> RowFits(table[k], entries[k]))
  }

  /** New rows are the created entries. */
  ghost predicate RowsFit(rows: OutputTable, created: Entries) {
    && rows.Keys == created.Keys
    && forall k :: k in rows ==> rows[k].spent.None? && RowFits(rows[k], created[k])
  }

  lemma MirrorsStep(
    table: OutputTable, marked: OutputTable, rows: OutputTable, entries: Entries, spent: set<Outpoint>,
      created: Entries)
    requires Mirrors(table, entries) && RowsFit(rows, created) && rows.Keys !! table.Keys
    requires marked.Keys == table.Keys
    requires forall k :: k in table && k in spent ==> marked[k].spent.Some?
    requires forall k :: k in table && k !in spent ==> marked[k] == table[k]
    ensures Mirrors(marked + rows, entries - spent + created)
  {
    hide RowFits;
  }

  lemma TransferRowsFit(env: Env, table: OutputTable, b: Block, tx: Transaction)
    ensures RowsFit(
      NewRows(Full, TransferTx(env, table, b, tx), |tx.outputs|),
        Created(TransactionId(env, tx), tx.outputs, b.header.height))
  {
    hide TransactionId, Photons;
  }

  lemma TransferMarks(env: Env, table: OutputTable, b: Block, tx: Transaction)
    ensures
      var itx := TransferTx(env, table, b, tx);
      var marked := MarkSpent(Full, table, itx.txid, itx.inputs, |itx.inputs|);
      && marked.Keys == table.Keys
      && (forall k :: k in table && k in InputSet(tx.inputs) ==> marked[k].spent.Some?)
      && (forall k :: k in table && k !in InputSet(tx.inputs) ==> marked[k] == table[k])
  {
    hide TransactionId, MarkSpent;
    var itx := TransferTx(env, table, b, tx);
    MarkSpentAt(Full, table, itx.txid, itx.inputs, |itx.inputs|);
    TransferPrevs(env, table, b, tx);
    var marked := MarkSpent(Full, table, itx.txid, itx.inputs, |itx.inputs|);
    forall k | k in table && k in InputSet(tx.inputs) ensures marked[k].spent.Some? {
      var i :| 0 <= i < |tx.inputs| && tx.inputs[i] == k;
      MarkedIsSpent(Full, table, itx.txid, itx.inputs, |itx.inputs|, i);
    }
  }

  lemma MirrorsTransfer(env: Env, table: OutputTable, entries: Entries, b: Block, tx: Transaction)
    requires Mirrors(table, entries) && Unfiled(table, TransactionId(env, tx))
    ensures Mirrors(
      Indexed(Full, table, TransferTx(env, table, b, tx)), AfterTransaction(env, entries, tx, b.header.height))
  {
    hide TransactionId, MarkSpent, NewRows, Created, InputSet, Mirrors, RowsFit, Indexed;
    var itx, height := TransferTx(env, table, b, tx), b.header.height;
    IndexedAdds(Full, table, itx);
    TransferMarks(env, table, b, tx);
    TransferRowsFit(env, table, b, tx);
    NewRowsKeys(Full, itx, |tx.outputs|);
    MirrorsStep(table, MarkSpent(Full, table, itx.txid, itx.inputs, |itx.inputs|), NewRows(Full, itx, |tx.outputs|),
                entries, InputSet(tx.inputs), Created(TransactionId(env, tx), tx.outputs, height));
  }

  lemma TransferPrevs(env: Env, table: OutputTable, b: Block, tx: Transaction)
    ensures Prevs(TransferTx(env, table, b, tx).inputs, |tx.inputs|) == InputSet(tx.inputs)
  {
    hide TransactionId;
    var inputs := TransferTx(env, table, b, tx).inputs;
    forall k | k in InputSet(tx.inputs) ensures k in Prevs(inputs, |tx.inputs|) {
      var i :| 0 <= i < |tx.inputs| && tx.inputs[i] == k;
      assert inputs[i].prev == k;
    }
  }

  lemma MirrorsMining(env: Env, table: OutputTable, entries: Entries, b: Block)
    requires Mirrors(table, entries) && b.coinbase.Some? && |b.coinbase.value.outputs| == 1
    requires Unfiled(table, CoinbaseId(env, b.header.height, b.coinbase.value))
    ensures
      var e := CoinbaseEntry(env, b.header.height, b.coinbase.value);
      Mirrors(Indexed(Full, table, MiningTx(env, b, b.coinbase.value)), entries[Outpoint(e.txid, 0) := e])
  {
    hide CoinbaseId, Photons;
    var itx := MiningTx(env, b, b.coinbase.value);
    IndexedAdds(Full, table, itx);
  }

  // ---- the own view is the full index seen through the wallet's addresses ----

  ghost predicate OwnMirrors(own: OutputTable, full: OutputTable, wallet: set<string>) {
    && (forall k :: k in own <==> k in full && full[k].address in wallet)
    && (forall k :: k in own ==> SameButSpent(own[k], full[k]) && own[k].spent.None? == full[k].spent.None?)
  }

  /** The addresses of the inputs are those found in the full index. */
  ghost predicate Addressed(full: OutputTable, tx: IndexedTx) {
    forall i :: 0 <= i < |tx.inputs| ==> tx.inputs[i].address == Found(full, tx.inputs[i].prev)
  }

  lemma OwnMarks(own: OutputTable, full: OutputTable, wallet: set<string>, tx: IndexedTx)
    requires OwnMirrors(own, full, wallet) && Addressed(full, tx)
    ensures OwnMirrors(
      MarkSpent(Own(wallet), own, tx.txid, tx.inputs, |tx.inputs|),
      MarkSpent(Full, full, tx.txid, tx.inputs, |tx.inputs|), wallet)
  {
    hide MarkSpent;
    var n := |tx.inputs|;
    MarkSpentAt(Own(wallet), own, tx.txid, tx.inputs, n);
    MarkSpentAt(Full, full, tx.txid, tx.inputs, n);
    var markedOwn := MarkSpent(Own(wallet), own, tx.txid, tx.inputs, n);
    var marked := MarkSpent(Full, full, tx.txid, tx.inputs, n);
    forall k | k in own ensures markedOwn[k].spent.None? == marked[k].spent.None? {
      if k in Prevs(tx.inputs, n) {
        var i :| 0 <= i < n && tx.inputs[i].prev == k;
        MarkedIsSpent(Own(wallet), own, tx.txid, tx.inputs, n, i);
        MarkedIsSpent(Full, full, tx.txid, tx.inputs, n, i);
      }
    }
  }

  lemma OwnRows(wallet: set<string>, tx: IndexedTx)
    ensures OwnMirrors(NewRows(Own(wallet), tx, |tx.outputs|), NewRows(Full, tx, |tx.outputs|), wallet)
  {
    hide Photons;
  }

  lemma OwnUnion(ownA: OutputTable, a: OutputTable, ownB: OutputTable, b: OutputTable, wallet: set<string>)
    requires OwnMirrors(ownA, a, wallet) && OwnMirrors(ownB, b, wallet) && a.Keys !! b.Keys
    ensures OwnMirrors(ownA + ownB, a + b, wallet)
  {
    hide SameButSpent;
  }

  lemma OwnStep(own: OutputTable, full: OutputTable, wallet: set<string>, tx: IndexedTx)
    requires OwnMirrors(own, full, wallet) && Addressed(full, tx) && Unfiled(full, tx.txid)
    ensures OwnMirrors(Indexed(Own(wallet), own, tx), Indexed(Full, full, tx), wallet)
  {
    hide MarkSpent, NewRows, Indexed, Addressed;
    assert Unfiled(own, tx.txid);
    IndexedAdds(Own(wallet), own, tx);
    IndexedAdds(Full, full, tx);
    OwnMarks(own, full, wallet, tx);
    OwnRows(wallet, tx);
    MarkSpentAt(Full, full, tx.txid, tx.inputs, |tx.inputs|);
    NewRowsKeys(Full, tx, |tx.outputs|);
    hide OwnMirrors;
    OwnUnion(MarkSpent(Own(wallet), own, tx.txid, tx.inputs, |tx.inputs|),
             MarkSpent(Full, full, tx.txid, tx.inputs, |tx.inputs|),
             NewRows(Own(wallet), tx, |tx.outputs|), NewRows(Full, tx, |tx.outputs|), wallet);
  }

  // ---- spending references ----

  /** Whatever the reference table says was spent is marked as spent. */
  ghost predicate InputsSpent(inputs: map<Outpoint, Outpoint>, full: OutputTable) {
    forall x :: x in inputs ==> inputs[x] in full && full[inputs[x]].spent.Some?
  }

  lemma {:induction false} PutInputsAt(table: map<Outpoint, Outpoint>, tx: IndexedTx, n: nat)
    requires n <= |tx.inputs|
    ensures
      var t := PutInputs(table, tx, n);
      forall x :: x in t ==>
        || (x in table && t[x] == table[x])
        || (x.txid == tx.txid && 0 <= x.index < n && t[x] == tx.inputs[x.index].prev)
    ensures table.Keys <= PutInputs(table, tx, n).Keys
    ensures forall x :: x in table && x.txid != tx.txid ==> PutInputs(table, tx, n)[x] == table[x]
  {
    if n > 0 {
      PutInputsAt(table, tx, n - 1);
    }
  }

  lemma InputsStep(inputs: map<Outpoint, Outpoint>, full: OutputTable, tx: IndexedTx)
    requires InputsSpent(inputs, full) && Unfiled(full, tx.txid)
    requires forall i :: 0 <= i < |tx.inputs| ==> tx.inputs[i].prev in full
    ensures InputsSpent(PutInputs(inputs, tx, |tx.inputs|), Indexed(Full, full, tx))
  {
    hide MarkSpent, NewRows, Indexed, PutInputs;
    var n := |tx.inputs|;
    PutInputsAt(inputs, tx, n);
    IndexedAdds(Full, full, tx);
    MarkSpentAt(Full, full, tx.txid, tx.inputs, n);
    NewRowsKeys(Full, tx, |tx.outputs|);
    var t := PutInputs(inputs, tx, n);
    forall x | x in t ensures t[x] in Indexed(Full, full, tx) && Indexed(Full, full, tx)[t[x]].spent.Some? {
      if !(x in inputs && t[x] == inputs[x]) {
        MarkedIsSpent(Full, full, tx.txid, tx.inputs, n, x.index);
      }
    }
  }

  // ---- whose rows there are ----

  ghost predicate TableWithin(table: OutputTable, ids: set<string>) {
    forall k :: k in table ==> k.txid in ids && (table[k].spent.Some? ==> table[k].spent.value.txid in ids)
  }

  /** Every row, and every note of a spender, belongs to a transaction of `ids`. */
  ghost predicate Within(t: Tables, ids: set<string>) {
    && t.transactions.Keys == ids && t.ownTxs.Keys <= ids
    && TableWithin(t.outputs, ids) && TableWithin(t.ownUtxos, ids)
    && (forall k :: k in t.inputs ==> k.txid in ids)
    && (forall k :: k in t.addressTxs ==> k.1 in ids)
  }

  lemma IndexedWithin(view: View, table: OutputTable, tx: IndexedTx, ids: set<string>)
    requires TableWithin(table, ids) && tx.txid !in ids
    ensures TableWithin(Indexed(view, table, tx), ids + {tx.txid})
  {
    hide MarkSpent, RowOf, Indexed;
    IndexedAdds(view, table, tx);
    MarkSpentAt(view, table, tx.txid, tx.inputs, |tx.inputs|);
    NewRowsUnspent(view, tx, |tx.outputs|);
    hide NewRows;
  }

  lemma NewRowsUnspent(view: View, tx: IndexedTx, n: nat)
    requires n <= |tx.outputs|
    ensures forall k :: k in NewRows(view, tx, n) ==> k.txid == tx.txid && NewRows(view, tx, n)[k].spent.None?
  {
  }

  lemma {:induction false} PutAddressesAt(table: map<(string, string), AddressRow>, tx: IndexedTx, n: nat)
    requires n <= |Addresses(tx)|
    ensures
      var t := PutAddresses(table, tx, n);
      && table.Keys <= t.Keys
      && (forall k :: k in t ==> k.1 == tx.txid || k in table)
      && (forall k :: k in table ==> t[k] == table[k])
  {
    hide Addresses;
    if n > 0 {
      PutAddressesAt(table, tx, n - 1);
    }
  }

  lemma IndexTxWithin(wallet: set<string>, t: Tables, tx: IndexedTx, ids: set<string>)
    requires Within(t, ids) && tx.txid !in ids
    ensures Within(IndexTx(wallet, t, tx), ids + {tx.txid})
  {
    hide TableWithin, Indexed, PutInputs, PutAddresses, Addresses, OwnAffected;
    IndexedWithin(Full, t.outputs, tx, ids);
    IndexedWithin(Own(wallet), t.ownUtxos, tx, ids);
    PutInputsAt(t.inputs, tx, |tx.inputs|);
    PutAddressesAt(t.addressTxs, tx, |Addresses(tx)|);
  }

  // ---- one transfer ----

  /** The index `t` with its transactions `ids`, against the entries it should mirror. */
  ghost predicate Agrees(wallet: set<string>, t: Tables, ids: set<string>, entries: Entries) {
    && Within(t, ids)
    && Mirrors(t.outputs, entries)
    && OwnMirrors(t.ownUtxos, t.outputs, wallet)
    && InputsSpent(t.inputs, t.outputs)
  }

  lemma UnfiledOutside(table: OutputTable, ids: set<string>, txid: string)
    requires TableWithin(table, ids) && txid !in ids
    ensures Unfiled(table, txid)
  {
  }

  lemma TransferAddressed(env: Env, full: OutputTable, b: Block, tx: Transaction)
    ensures Addressed(full, TransferTx(env, full, b, tx))
  {
    hide TransactionId;
  }

  lemma TransferAgrees(
    env: Env, wallet: set<string>, t: Tables, ids: set<string>, entries: Entries, b: Block, tx: Transaction)
    requires Agrees(wallet, t, ids, entries) && TransactionId(env, tx) !in ids && InputSet(tx.inputs) <= t.outputs.Keys
    ensures
      var after := IndexTx(wallet, t, TransferTx(env, t.outputs, b, tx));
      && Agrees(wallet, after, ids + {TransactionId(env, tx)}, AfterTransaction(env, entries, tx, b.header.height))
      && t.outputs.Keys <= after.outputs.Keys
  {
    hide TransactionId, Indexed, PutInputs, PutAddresses, Addresses, OwnAffected, AfterTransaction;
    hide TableWithin, Mirrors, OwnMirrors, InputsSpent;
    var itx := TransferTx(env, t.outputs, b, tx);
    UnfiledOutside(t.outputs, ids, itx.txid);
    IndexTxWithin(wallet, t, itx, ids);
    MirrorsTransfer(env, t.outputs, entries, b, tx);
    TransferAddressed(env, t.outputs, b, tx);
    OwnStep(t.ownUtxos, t.outputs, wallet, itx);
    forall i | 0 <= i < |itx.inputs| ensures itx.inputs[i].prev in t.outputs {
      assert tx.inputs[i] in InputSet(tx.inputs);
    }
    InputsStep(t.inputs, t.outputs, itx);
    KeysKept(Full, t.outputs, itx);
  }

  lemma KeysKept(view: View, table: OutputTable, tx: IndexedTx)
    requires Unfiled(table, tx.txid)
    ensures table.Keys <= Indexed(view, table, tx).Keys
  {
    hide MarkSpent, NewRows, Indexed;
    IndexedAdds(view, table, tx);
    MarkSpentAt(view, table, tx.txid, tx.inputs, |tx.inputs|);
  }

  /** The transfers of a block whose inputs are all indexed. */
  lemma {:induction false} TransfersAgree(
    env: Env, wallet: set<string>, t: Tables, ids: set<string>, entries: Entries, b: Block, n: nat)
    requires n <= |b.transactions| && Agrees(wallet, t, ids, entries)
    requires DistinctIds(env, b.transactions) && IdsOf(env, b.transactions) !! ids
    requires forall i :: 0 <= i < |b.transactions| ==> InputSet(b.transactions[i].inputs) <= t.outputs.Keys
    ensures
      var after := IndexTransactions(env, wallet, t, b, n);
      && Agrees(wallet, after, ids + IdsOf(env, b.transactions[..n]),
                AfterTransactions(env, entries, b.transactions[..n], b.header.height))
      && t.outputs.Keys <= after.outputs.Keys
  {
    hide TransactionId, Agrees, AfterTransaction, IndexTx, InputSet, IdsOf, DistinctIds, TransferTx;
    hide SpentBy, PayloadsOf;
    var txs := b.transactions[..n];
    if n > 0 {
      var init, last := b.transactions[..n - 1], b.transactions[n - 1];
      assert txs[..n - 1] == init && txs[n - 1] == last;
      TransfersAgree(env, wallet, t, ids, entries, b, n - 1);
      var before := IndexTransactions(env, wallet, t, b, n - 1);
      MemberOf(env, b.transactions, n - 1);
      IdNotBefore(env, b.transactions, n - 1);
      TransferAgrees(env, wallet, before, ids + IdsOf(env, init),
        AfterTransactions(env, entries, init, b.header.height), b, last);
      IdsSnoc(env, ids, txs);
    } else {
      NoIds(env, ids, txs);
    }
  }

  lemma IdsSnoc(env: Env, ids: set<string>, txs: seq<Transaction>)
    requires |txs| > 0
    ensures ids + IdsOf(env, txs) == ids + IdsOf(env, txs[..|txs| - 1]) + {TransactionId(env, txs[|txs| - 1])}
  {
    hide TransactionId;
  }

  lemma NoIds(env: Env, ids: set<string>, txs: seq<Transaction>)
    requires |txs| == 0
    ensures ids + IdsOf(env, txs) == ids
  {
  }

  lemma IdNotBefore(env: Env, txs: seq<Transaction>, k: nat)
    requires k < |txs| && DistinctIds(env, txs)
    ensures TransactionId(env, txs[k]) !in IdsOf(env, txs[..k])
  {
    hide TransactionId;
    if TransactionId(env, txs[k]) in IdsOf(env, txs[..k]) {
      var j := TransactionOrigin(env, txs[..k], TransactionId(env, txs[k]));
    }
  }

  // ---- one block ----

  /** The coinbase entry may as well be added before the transactions. */
  lemma {:induction false} CoinbaseFirst(
    env: Env, entries: Entries, txs: seq<Transaction>, height: int, k: Outpoint, e: UtxoEntry)
    requires k !in SpentBy(txs) && k.txid !in IdsOf(env, txs)
    ensures AfterTransactions(env, entries[k := e], txs, height) == AfterTransactions(env, entries, txs, height)[k := e]
  {
    hide TransactionId, AfterTransaction, InputSet;
    if |txs| > 0 {
      var init, last := txs[..|txs| - 1], txs[|txs| - 1];
      CoinbaseFirst(env, entries, init, height, k, e);
      EntryAside(env, AfterTransactions(env, entries, init, height), last, height, k, e);
    }
  }

  lemma EntryAside(env: Env, entries: Entries, tx: Transaction, height: int, k: Outpoint, e: UtxoEntry)
    requires k !in InputSet(tx.inputs) && k.txid != TransactionId(env, tx)
    ensures AfterTransaction(env, entries[k := e], tx, height) == AfterTransaction(env, entries, tx, height)[k := e]
  {
    hide TransactionId, InputSet, Photons;
    var created := Created(TransactionId(env, tx), tx.outputs, height);
    assert k !in created;
  }

  lemma MiningAgrees(env: Env, wallet: set<string>, t: Tables, ids: set<string>, entries: Entries, b: Block)
    requires Agrees(wallet, t, ids, entries) && b.coinbase.Some? && |b.coinbase.value.outputs| == 1
    requires CoinbaseId(env, b.header.height, b.coinbase.value) !in ids
    ensures
      var e := CoinbaseEntry(env, b.header.height, b.coinbase.value);
      var after := IndexCoinbase(env, wallet, t, b);
      && Agrees(wallet, after, ids + {e.txid}, entries[Outpoint(e.txid, 0) := e])
      && t.outputs.Keys <= after.outputs.Keys
  {
    hide CoinbaseId, Indexed, PutAddresses, Addresses, OwnAffected, CoinbaseOutputsText, Photons;
    hide TableWithin, Mirrors, OwnMirrors, InputsSpent;
    var itx := MiningTx(env, b, b.coinbase.value);
    UnfiledOutside(t.outputs, ids, itx.txid);
    IndexTxWithin(wallet, t, itx, ids);
    MirrorsMining(env, t.outputs, entries, b);
    OwnStep(t.ownUtxos, t.outputs, wallet, itx);
    InputsStep(t.inputs, t.outputs, itx);
    KeysKept(Full, t.outputs, itx);
  }

  /** A path the wallet can hold: nothing yet, or an applied chain whose digests do not collide. */
  ghost predicate WalletPath(env: Env, path: seq<Block>) {
    && (forall i :: 0 <= i < |path| ==> path[i].header.height == i)
    && (|path| > 0 ==>
      && path[0].coinbase.None? && path[0].transactions == []
      && LedgerPath(env, path) && NoCollisions(env, path))
  }

  lemma WalletPathPrefix(env: Env, path: seq<Block>, n: nat)
    requires WalletPath(env, path) && n <= |path|
    ensures WalletPath(env, path[..n])
  {
    hide LedgerPath, NoCollisions;
    if n > 0 {
      PrefixOfLedgerPath(env, path, n);
      NoCollisionsPrefix(env, path, n);
    }
  }

  /** What the next block of a path brings, seen from the index before it. */
  lemma NextBlockFacts(env: Env, path: seq<Block>)
    requires WalletPath(env, path) && |path| > 1
    ensures
      var init, b := path[..|path| - 1], path[|path| - 1];
      && b.coinbase.Some? && |b.coinbase.value.outputs| == 1
      && CoinbaseId(env, b.header.height, b.coinbase.value) !in Ids(env, init)
      && CoinbaseId(env, b.header.height, b.coinbase.value) !in IdsOf(env, b.transactions)
      && IdsOf(env, b.transactions) !! Ids(env, init) && DistinctIds(env, b.transactions)
      && (forall i :: 0 <= i < |b.transactions|
           ==> InputSet(b.transactions[i].inputs) <= Replay(env, init).entries.Keys)
      && (forall k :: k in Replay(env, init).entries ==> k.txid in Ids(env, init))
  {
    hide LedgerPath, NoCollisions, Replay, SpentStaysSpent, CoinbaseId, DistinctIds, IdsOf, InputSet, Keyed;
    hide CoinbasePayload, ShapeOk, IdPayload;
    var init, b := path[..|path| - 1], path[|path| - 1];
    PrefixOfLedgerPath(env, path, |path| - 1);
    NoCollisionsPrefix(env, path, |path| - 1);
    HistoryInvariant(env, init);
    BlockIdsAreNew(env, path);
    LastCoinbase(env, path);
    forall i | 0 <= i < |b.transactions| ensures InputSet(b.transactions[i].inputs) <= Replay(env, init).entries.Keys {
      LastTransaction(env, path, i);
    }
  }

  lemma {:induction false} SpentByWithin(txs: seq<Transaction>, keys: set<Outpoint>)
    requires forall i :: 0 <= i < |txs| ==> InputSet(txs[i].inputs) <= keys
    ensures SpentBy(txs) <= keys
  {
    hide InputSet;
    if |txs| > 0 {
      SpentByWithin(txs[..|txs| - 1], keys);
    }
  }

  lemma BlockAgrees(env: Env, wallet: set<string>, t: Tables, path: seq<Block>)
    requires WalletPath(env, path) && |path| > 1
    requires Agrees(wallet, t, Ids(env, path[..|path| - 1]), Replay(env, path[..|path| - 1]).entries)
    ensures Agrees(wallet, IndexBlock(env, wallet, t, path[|path| - 1]), Ids(env, path), Replay(env, path).entries)
  {
    hide WalletPath, CoinbaseId, DistinctIds, IdsOf, InputSet, SpentBy, AfterTransactions, TransactionId;
    hide Within, OwnMirrors, InputsSpent, IndexTransactions, IndexCoinbase;
    var init, b := path[..|path| - 1], path[|path| - 1];
    NextBlockFacts(env, path);
    var ids, entries, height, txs := Ids(env, init), Replay(env, init).entries, b.header.height, b.transactions;
    var e := CoinbaseEntry(env, height, b.coinbase.value);
    var stored := StoreBlock(t, b);
    StoredAgrees(wallet, t, ids, entries, b);
    MiningAgrees(env, wallet, stored, ids, entries, b);
    var mined := IndexCoinbase(env, wallet, stored, b);
    TransfersAgree(env, wallet, mined, ids + {e.txid}, entries[Outpoint(e.txid, 0) := e], b, |txs|);
    assert txs[..|txs|] == txs;
    SpentByWithin(txs, entries.Keys);
    CoinbaseFirst(env, entries, txs, height, Outpoint(e.txid, 0), e);
    assert ids + {e.txid} + IdsOf(env, txs) == Ids(env, path);
  }

  lemma StoredAgrees(wallet: set<string>, t: Tables, ids: set<string>, entries: Entries, b: Block)
    requires Agrees(wallet, t, ids, entries)
    ensures Agrees(wallet, StoreBlock(t, b), ids, entries)
  {
  }

  /** The index of every applied chain agrees with its state. */
  lemma {:induction false} IndexAgrees(env: Env, wallet: set<string>, path: seq<Block>)
    requires WalletPath(env, path)
    ensures Agrees(wallet, IndexOf(env, wallet, path), Ids(env, path), Replay(env, path).entries)
  {
    hide Agrees, IndexBlock, Replay, Ids, WalletPath;
    if |path| <= 1 {
      FirstIndex(env, wallet, path);
    } else {
      WalletPathPrefix(env, path, |path| - 1);
      IndexAgrees(env, wallet, path[..|path| - 1]);
      BlockAgrees(env, wallet, IndexOf(env, wallet, path[..|path| - 1]), path);
    }
  }

  lemma FirstIndex(env: Env, wallet: set<string>, path: seq<Block>)
    requires WalletPath(env, path) && |path| <= 1
    ensures Agrees(wallet, IndexOf(env, wallet, path), Ids(env, path), Replay(env, path).entries)
    ensures |path| == 1 ==> IndexOf(env, wallet, path) == StoreBlock(NO_TABLES, path[0])
  {
    hide LedgerPath, NoCollisions;
    if |path| == 1 {
      assert path[..0] == [];
    }
  }

  // ---- queries ----

  /** The confirmed unspent rows of an address, without those that the spending references name. */
  ghost function Unspent(table: OutputTable, address: string, refs: set<Outpoint>): OutputTable {
    map k | k in table && table[k].address == address && table[k].spent.None? && k !in refs :: table[k]
  }

  predicate IsMature(row: OutputRow, currentHeight: int) {
    row.matureAtHeight.None? || row.matureAtHeight.value <= currentHeight
  }

  /** The outputs that some transaction of the address consumed: the join of both tables. */
  ghost function SpentRefs(t: Tables, address: string): set<Outpoint> {
    set x | x in t.inputs && (address, x.txid) in t.addressTxs :: t.inputs[x]
  }

  /** An own address is read from the resident view, any other from the full index less the references. */
  ghost function RowsFor(wallet: set<string>, t: Tables, address: string): OutputTable {
    if address in wallet then Unspent(t.ownUtxos, address, {}) else Unspent(t.outputs, address, SpentRefs(t, address))
  }

  ghost function RowAmounts(rows: OutputTable): map<Outpoint, nat> {
    map k | k in rows :: rows[k].amount
  }

  /** Whichever table answers, its rows are the unspent outputs of the address. */
  lemma RowsAreEntries(wallet: set<string>, t: Tables, ids: set<string>, entries: Entries, address: string)
    requires Agrees(wallet, t, ids, entries)
    ensures
      var rows := RowsFor(wallet, t, address);
      && (forall k :: k in rows <==> k in entries && entries[k].address == address)
      && (forall k :: k in rows ==> RowFits(rows[k], entries[k]))
  {
    hide Within;
    var refs := SpentRefs(t, address);
    forall k | k in t.outputs && t.outputs[k].spent.None? ensures k !in refs {
    }
  }

  /** Rows that fit the entries of an address report the same amounts and the same mature outputs. */
  ghost predicate Reports(rows: OutputTable, l: Ledger, address: string, currentHeight: int) {
    && RowAmounts(rows) == AmountsOf(l, address)
    && (forall k :: k in rows ==> k in l.entries && RowFits(rows[k], l.entries[k]))
    && (forall k ::
          (k in rows && IsMature(rows[k], currentHeight))
          <==> (k in l.entries && IsSpendable(l.entries[k], address, currentHeight)))
  }

  lemma FittingRowsReport(rows: OutputTable, l: Ledger, address: string, currentHeight: int)
    requires forall k :: k in rows <==> k in l.entries && l.entries[k].address == address
    requires forall k :: k in rows ==> RowFits(rows[k], l.entries[k])
    ensures Reports(rows, l, address, currentHeight)
  {
  }

  /**
   * On every applied chain, for own and foreign addresses alike, the index reports the balance of the
   * consensus state and its spendable outputs.
   */
  lemma IndexRefinesState(env: Env, wallet: set<string>, path: seq<Block>, address: string, currentHeight: int)
    requires WalletPath(env, path)
    ensures Reports(RowsFor(wallet, IndexOf(env, wallet, path), address), Replay(env, path), address, currentHeight)
  {
    hide WalletPath, IndexOf, Ids, Replay, Agrees, RowsFor, Reports, RowFits;
    IndexAgrees(env, wallet, path);
    RowsAreEntries(wallet, IndexOf(env, wallet, path), Ids(env, path), Replay(env, path).entries, address);
    FittingRowsReport(RowsFor(wallet, IndexOf(env, wallet, path), address), Replay(env, path), address, currentHeight);
  }
}
