/** The pending transactions of a node: apps/node/src/mempool.ts. */
module Mempool {
  import opened Prelude
  import opened Types
  import opened SigningText
  import opened State
  import opened Conservation

  const MAX_ITEMS := 10_000
  const LIST_LIMIT := 1_000

  datatype MempoolEntry = MempoolEntry(id: string, transaction: Transaction, receivedAtMs: int)

  /** The pending entries in insertion order; identifiers are distinct. */
  type Pool = seq<MempoolEntry>

  predicate Has(items: Pool, id: string) {
    exists k :: 0 <= k < |items| && items[k].id == id
  }

  function Remove(items: Pool, ids: set<string>): Pool {
    if |items| == 0 then []
    else
      var init := Remove(items[..|items| - 1], ids);
      if items[|items| - 1].id in ids then init else init + [items[|items| - 1]]
  }

  function Elements(ids: seq<string>): set<string> {
    set x | x in ids
  }

  lemma {:induction false} RemoveNothing(items: Pool)
    ensures Remove(items, {}) == items
  {
    if |items| > 0 {
      RemoveNothing(items[..|items| - 1]);
    }
  }

  function Transactions(items: Pool): (txs: seq<Transaction>)
    ensures |txs| == |items|
  {
    seq(|items|, k requires 0 <= k < |items| => items[k].transaction)
  }

  function List(items: Pool, limit: nat): Pool {
    if |items| <= limit then items else items[..limit]
  }

  ghost predicate NoConflict(items: Pool, tx: Transaction) {
    forall k :: 0 <= k < |items| ==> InputSet(items[k].transaction.inputs) !! InputSet(tx.inputs)
  }

  /** What lets a transaction into the pool. */
  ghost predicate Admissible(env: Env, items: Pool, l: Ledger, currentHeight: int, tx: Transaction) {
    TransactionOk(env, l.entries, currentHeight, tx) && NoConflict(items, tx)
  }

  function Inserted(items: Pool, e: MempoolEntry): Pool {
    (if |items| >= MAX_ITEMS then items[1..] else items) + [e]
  }

  ghost function AfterAccept(
    env: Env, items: Pool, l: Ledger, currentHeight: int, tx: Transaction, nowMs: int): Option<Pool>
  {
    var id := TransactionId(env, tx);
    if !ShapeOk(env, tx) then None
    else if Has(items, id) then Some(items)
    else if Admissible(env, items, l, currentHeight, tx) then Some(Inserted(items, MempoolEntry(id, tx, nowMs)))
    else None
  }

  class TransactionMempool {
    var items: Pool

    constructor ()
      ensures items == []
    {
      items := [];
    }

    /** A refused transaction leaves the pool as it was. */
    method Accept(env: Env, tx: Transaction, state: UtxoState, currentHeight: int, nowMs: int)
      returns (r: Result<string>)
      requires this as object != state
      modifies this
      ensures
        var after := AfterAccept(env, old(items), state.Snapshot(), currentHeight, tx, nowMs);
        && (r.Ok? <==> after.Some?)
        && items == (if r.Ok? then after.value else old(items))
      ensures r.Ok? ==> r.value == TransactionId(env, tx)
      ensures Has(old(items), TransactionId(env, tx)) && ShapeOk(env, tx) ==> r.Ok?
    {
      hide ShapeOk, InputsOk, TransactionId, InputSet, Photons;
      var consumed := ValidateSignedTransactionShape(env, tx);
      if consumed.Err? {
        return Err(consumed.error);
      }
      var id := TransactionId(env, tx);
      if Has(items, id) {
        return Ok(id);
      }
      var valid := state.CheckTransaction(env, currentHeight, tx);
      if valid.Err? {
        return Err(valid.error);
      }
      for k := 0 to |items|
        modifies {}
        invariant forall j :: 0 <= j < k ==> InputSet(items[j].transaction.inputs) !! InputSet(tx.inputs)
      {
        var conflict := SharesInput(items[k].transaction, tx);
        if conflict {
          return Err("conflicts with a pending transaction");
        }
      }
      if |items| >= MAX_ITEMS {
        items := items[1..];
      }
      items := items + [MempoolEntry(id, tx, nowMs)];
      r := Ok(id);
    }

    method RemoveCommitted(ids: seq<string>)
      modifies this
      ensures items == Remove(old(items), Elements(ids))
    {
      RemoveNothing(items);
      assert Elements(ids[..0]) == {};
      for k := 0 to |ids|
        invariant items == Remove(old(items), Elements(ids[..k]))
      {
        RemoveStep(old(items), Elements(ids[..k]), ids[k]);
        assert Elements(ids[..k + 1]) == Elements(ids[..k]) + {ids[k]};
        items := Remove(items, {ids[k]});
      }
      assert ids[..|ids|] == ids;
    }
  }

  method SharesInput(a: Transaction, b: Transaction) returns (shares: bool)
    ensures shares == !(InputSet(a.inputs) !! InputSet(b.inputs))
  {
    shares := false;
    for j := 0 to |a.inputs|
      invariant !shares ==> InputSet(a.inputs[..j]) !! InputSet(b.inputs)
      invariant shares ==> !(InputSet(a.inputs) !! InputSet(b.inputs))
    {
      InputSetStep(a.inputs, j);
      if a.inputs[j] in b.inputs {
        assert a.inputs[j] in InputSet(a.inputs) && a.inputs[j] in InputSet(b.inputs);
        shares := true;
      }
    }
    assert a.inputs[..|a.inputs|] == a.inputs;
  }

  lemma {:induction false} RemoveStep(items: Pool, ids: set<string>, id: string)
    ensures Remove(Remove(items, ids), {id}) == Remove(items, ids + {id})
  {
    if |items| > 0 {
      var init, last := items[..|items| - 1], items[|items| - 1];
      RemoveStep(init, ids, id);
      var kept := Remove(init, ids);
      if last.id !in ids {
        assert (kept + [last])[..|kept|] == kept;
      }
    }
  }

  // ---- the pool invariant ----

  /** Every pending transaction is valid on its own at the tip, and no two of them share an input. */
  ghost predicate PoolOk(env: Env, items: Pool, entries: Entries, height: int) {
    && (forall k :: 0 <= k < |items| ==> EntryFits(env, items[k], entries, height))
    && (forall j, k :: 0 <= j < k < |items| ==> Apart(items[j], items[k]))
  }

  ghost predicate EntryFits(env: Env, e: MempoolEntry, entries: Entries, height: int) {
    e.id == TransactionId(env, e.transaction) && TransactionOk(env, entries, height, e.transaction)
  }

  ghost predicate Apart(a: MempoolEntry, b: MempoolEntry) {
    a.id != b.id && InputSet(a.transaction.inputs) !! InputSet(b.transaction.inputs)
  }

  /** Acceptance keeps the invariant, also when it evicts; below the limit it keeps all entries. */
  lemma AcceptKeepsPool(env: Env, items: Pool, l: Ledger, height: int, tx: Transaction, nowMs: int)
    requires PoolOk(env, items, l.entries, height)
    requires AfterAccept(env, items, l, height, tx, nowMs).Some?
    ensures PoolOk(env, AfterAccept(env, items, l, height, tx, nowMs).value, l.entries, height)
    ensures |items| < MAX_ITEMS ==> items <= AfterAccept(env, items, l, height, tx, nowMs).value
  {
    hide TransactionOk, ShapeOk, TransactionId, InputSet;
  }

  lemma {:induction false} RemovedFrom(items: Pool, ids: set<string>)
    ensures forall e :: e in Remove(items, ids) <==> e in items && e.id !in ids
  {
    if |items| > 0 {
      RemovedFrom(items[..|items| - 1], ids);
      assert items == items[..|items| - 1] + [items[|items| - 1]];
    }
  }

  /** Dropping entries keeps the invariant. */
  lemma {:induction false} RemoveKeepsPool(env: Env, items: Pool, ids: set<string>, entries: Entries, height: int)
    requires PoolOk(env, items, entries, height)
    ensures PoolOk(env, Remove(items, ids), entries, height)
    ensures |Remove(items, ids)| <= |items|
  {
    hide EntryFits, Apart;
    if |items| > 0 {
      var init := items[..|items| - 1];
      RemoveKeepsPool(env, init, ids, entries, height);
      RemovedFrom(init, ids);
      var kept := Remove(init, ids);
      forall k | 0 <= k < |kept| ensures Apart(kept[k], items[|items| - 1]) {
        assert kept[k] in init;
        var i :| 0 <= i < |init| && init[i] == kept[k];
        assert items[i] == init[i];
      }
    }
  }

  /** A step of the ledger leaves the inputs of a transaction as they were. */
  ghost predicate Untouched(before: Entries, after: Entries, tx: Transaction) {
    forall i :: i in InputSet(tx.inputs) ==> i in after && i in before && after[i] == before[i]
  }

  /** Entries whose inputs survive a step of the ledger stay valid, also at a greater height. */
  lemma {:induction false} PoolSurvives(
    env: Env, items: Pool, before: Entries, after: Entries, height: int, later: int)
    requires PoolOk(env, items, before, height) && height <= later
    requires forall k :: 0 <= k < |items| ==> Untouched(before, after, items[k].transaction)
    ensures PoolOk(env, items, after, later)
  {
    hide Apart, ShapeOk, TransactionId;
    forall k | 0 <= k < |items| ensures EntryFits(env, items[k], after, later) {
      assert EntryFits(env, items[k], before, height) && Untouched(before, after, items[k].transaction);
      var inputs := items[k].transaction.inputs;
      assert forall i :: 0 <= i < |inputs| ==> inputs[i] in InputSet(inputs);
      SameInputSum(before, after, inputs);
    }
  }

  lemma {:induction false} SameInputSum(before: Entries, after: Entries, inputs: seq<Outpoint>)
    requires forall i :: i in InputSet(inputs) ==> i in after && i in before && after[i] == before[i]
    ensures InputSum(before, inputs) == InputSum(after, inputs)
  {
    if |inputs| > 0 {
      InputSetStep(inputs, |inputs| - 1);
      assert inputs[..|inputs|] == inputs;
      SameInputSum(before, after, inputs[..|inputs| - 1]);
      assert inputs[|inputs| - 1] in InputSet(inputs);
    }
  }

  /** A listed prefix of the pool passes every transaction check of a block. */
  lemma ListedTransactionsOk(env: Env, items: Pool, entries: Entries, height: int, later: int, n: nat)
    requires PoolOk(env, items, entries, height) && height <= later && n <= |items|
    ensures TransactionsOk(env, entries, later, Transactions(items[..n]))
    ensures DisjointInputs(Transactions(items[..n]))
  {
    hide ShapeOk, TransactionId, InputSet;
    var txs := Transactions(items[..n]);
    forall k | 0 <= k < n ensures TransactionOk(env, entries, later, txs[k]) {
      assert EntryFits(env, items[k], entries, height);
    }
    forall j, k | 0 <= j < k < n
      ensures TransactionId(env, txs[j]) != TransactionId(env, txs[k])
      ensures InputSet(txs[j].inputs) !! InputSet(txs[k].inputs)
    {
      assert Apart(items[j], items[k]) && EntryFits(env, items[j], entries, height)
        && EntryFits(env, items[k], entries, height);
    }
  }

  // ---- positions ----

  /** A new entry goes to the end, and a full pool of 10,000 loses its oldest one. */
  lemma NewestLast(env: Env, items: Pool, l: Ledger, height: int, tx: Transaction, nowMs: int)
    requires AfterAccept(env, items, l, height, tx, nowMs).Some? && !Has(items, TransactionId(env, tx))
    ensures
      var after := AfterAccept(env, items, l, height, tx, nowMs).value;
      var lost := if |items| >= 10_000 then 1 else 0;
      && |after| == |items| + 1 - lost
      && (forall k :: 0 <= k < |items| - lost ==> after[k] == items[k + lost])
      && after[|after| - 1] == MempoolEntry(TransactionId(env, tx), tx, nowMs)
  {
    hide ShapeOk, TransactionId, Admissible;
  }

  /** What is left of a pool keeps its order. */
  lemma {:induction false} RemoveInOrder(a: Pool, b: Pool, e: MempoolEntry, ids: set<string>)
    ensures Remove(a + b, ids) == Remove(a, ids) + Remove(b, ids)
    ensures Remove([e], ids) == if e.id in ids then [] else [e]
  {
    assert [e][..0] == [];
    if |b| > 0 {
      var init := b[..|b| - 1];
      RemoveInOrder(a, init, e, ids);
      assert (a + b)[..|a + b| - 1] == a + init;
    } else {
      assert a + b == a;
    }
  }

  /** The list is the oldest entries, at most as many as asked for. */
  lemma OldestListed(items: Pool, limit: nat)
    ensures |List(items, limit)| == (if |items| < limit then |items| else limit)
    ensures forall k :: 0 <= k < |List(items, limit)| ==> List(items, limit)[k] == items[k]
  {
  }
}
