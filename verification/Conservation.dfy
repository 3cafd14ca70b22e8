/**
 * Money over whole chains. Transactions of a block are validated against the entries before the
 * block, so two of them may consume the same output: value is conserved exactly when none do.
 */
module Conservation {
  import opened Prelude
  import opened Types
  import opened SigningText
  import opened Sums
  import opened State
  import opened History
  import Reward

  ghost function Amounts(entries: Entries): map<Outpoint, nat> {
    map k | k in entries :: entries[k].amountPhotons
  }

  /** All photons of a state. */
  ghost function Value(entries: Entries): nat {
    Sum(Amounts(entries))
  }

  ghost predicate NoDuplicates(inputs: seq<Outpoint>) {
    forall j, k :: 0 <= j < k < |inputs| ==> inputs[j] != inputs[k]
  }

  lemma ValueWithout(entries: Entries, k: Outpoint)
    ensures Value(entries) == Value(entries - {k}) + if k in entries then entries[k].amountPhotons else 0
  {
    if k in entries {
      SumRemove(Amounts(entries), k);
      assert Amounts(entries - {k}) == Amounts(entries) - {k};
    } else {
      assert entries - {k} == entries;
    }
  }

  lemma ValueUnion(a: Entries, b: Entries)
    requires a.Keys !! b.Keys
    ensures Value(a + b) == Value(a) + Value(b)
  {
    SumUnion(Amounts(a), Amounts(b));
    assert Amounts(a + b) == Amounts(a) + Amounts(b);
  }

  lemma {:induction false} ValueWithoutInputs(entries: Entries, inputs: seq<Outpoint>)
    requires NoDuplicates(inputs)
    ensures Value(entries) == Value(entries - InputSet(inputs)) + InputSum(entries, inputs)
  {
    if |inputs| == 0 {
      assert entries - InputSet(inputs) == entries;
    } else {
      var n := |inputs| - 1;
      ValueWithoutInputs(entries, inputs[..n]);
      InputSetStep(inputs, n);
      assert inputs[..n + 1] == inputs;
      var left := entries - InputSet(inputs[..n]);
      ValueWithout(left, inputs[n]);
      assert left - {inputs[n]} == entries - InputSet(inputs);
      assert inputs[n] !in inputs[..n];
    }
  }

  lemma {:induction false} ValueCreated(id: string, outputs: seq<Output>, height: int)
    ensures Value(Created(id, outputs, height)) == OutputTotal(outputs)
  {
    hide Photons;
    if |outputs| == 0 {
      assert Created(id, outputs, height) == map[];
      assert Amounts(map[]) == map[];
    } else {
      var n := |outputs| - 1;
      ValueCreated(id, outputs[..n], height);
      CreatedStep(id, outputs, n, height);
      assert outputs[..n + 1] == outputs;
      var c := Created(id, outputs, height);
      ValueWithout(c, Outpoint(id, n));
      assert c - {Outpoint(id, n)} == Created(id, outputs[..n], height);
    }
  }

  /** A transaction moves value from the unspent ones of its inputs to its outputs. */
  lemma ValueAfterTransaction(env: Env, entries: Entries, tx: Transaction, height: int)
    requires NoDuplicates(tx.inputs) && FreshFor({TransactionId(env, tx)}, entries)
    ensures
      Value(AfterTransaction(env, entries, tx, height)) + InputSum(entries, tx.inputs)
      == Value(entries) + OutputTotal(tx.outputs)
  {
    hide TransactionId, Photons, Value;
    var left, created := entries - InputSet(tx.inputs), Created(TransactionId(env, tx), tx.outputs, height);
    ValueWithoutInputs(entries, tx.inputs);
    ValueCreated(TransactionId(env, tx), tx.outputs, height);
    assert left.Keys !! created.Keys;
    ValueUnion(left, created);
  }

  /** Inputs that are already gone count for nothing. */
  lemma {:induction false} InputSumOfRest(before: Entries, rest: Entries, inputs: seq<Outpoint>)
    requires AllPositive(before) && InputSet(inputs) <= before.Keys
    requires forall k :: k in before && k in rest ==> rest[k] == before[k]
    ensures InputSum(rest, inputs) <= InputSum(before, inputs)
    ensures InputSum(rest, inputs) == InputSum(before, inputs) <==> InputSet(inputs) <= rest.Keys
  {
    if |inputs| > 0 {
      var n := |inputs| - 1;
      InputSetStep(inputs, n);
      assert inputs[..n + 1] == inputs;
      InputSumOfRest(before, rest, inputs[..n]);
    }
  }

  /** No output is consumed by two transactions of the list. */
  ghost predicate DisjointInputs(txs: seq<Transaction>) {
    forall j, k :: 0 <= j < k < |txs| ==> InputSet(txs[j].inputs) !! InputSet(txs[k].inputs)
  }

  lemma {:induction false} SpentMember(txs: seq<Transaction>, x: Outpoint) returns (j: nat)
    requires x in SpentBy(txs)
    ensures j < |txs| && x in InputSet(txs[j].inputs)
  {
    hide InputSet;
    if x in InputSet(txs[|txs| - 1].inputs) {
      j := |txs| - 1;
    } else {
      j := SpentMember(txs[..|txs| - 1], x);
    }
  }

  lemma DisjointStep(env: Env, txs: seq<Transaction>)
    requires |txs| > 0
    ensures
      DisjointInputs(txs)
      <==> DisjointInputs(txs[..|txs| - 1]) && InputSet(txs[|txs| - 1].inputs) !! SpentBy(txs[..|txs| - 1])
  {
    hide InputSet, SpentBy;
    var n := |txs| - 1;
    var init := txs[..n];
    if DisjointInputs(txs) {
      forall x | x in SpentBy(init) ensures x !in InputSet(txs[n].inputs) {
        var j := SpentMember(init, x);
        assert init[j] == txs[j];
      }
    }
    if DisjointInputs(init) && InputSet(txs[n].inputs) !! SpentBy(init) {
      forall j, k | 0 <= j < k < |txs| ensures InputSet(txs[j].inputs) !! InputSet(txs[k].inputs) {
        if k == n {
          MemberOf(env, init, j);
        } else {
          assert init[j] == txs[j] && init[k] == txs[k];
        }
      }
    }
  }

  /** What every transaction of an acceptable block satisfies. */
  ghost predicate Balanced(entries: Entries, tx: Transaction) {
    && NoDuplicates(tx.inputs) && InputSet(tx.inputs) <= entries.Keys
    && InputSum(entries, tx.inputs) == Consumed(tx)
  }

  ghost predicate AllBalanced(entries: Entries, txs: seq<Transaction>) {
    forall i :: 0 <= i < |txs| ==> Balanced(entries, txs[i])
  }

  /** Fees and entries together never fall, and stay equal exactly when no output is consumed twice. */
  lemma {:induction false} ValueAfterTransactions(env: Env, entries: Entries, txs: seq<Transaction>, height: int)
    requires AllPositive(entries) && AllBalanced(entries, txs) && DistinctIds(env, txs)
    requires FreshFor(IdsOf(env, txs), entries)
    ensures
      var after := AfterTransactions(env, entries, txs, height);
      && Value(after) + FeeTotal(txs) >= Value(entries)
      && (Value(after) + FeeTotal(txs) == Value(entries) <==> DisjointInputs(txs))
  {
    hide Value, TransactionId, AllPositive, AfterTransaction, Photons, NoDuplicates, InputSum, InputSet, DisjointInputs;
    if |txs| == 0 {
      NoneDisjoint(txs);
    } else {
      var n := |txs| - 1;
      var init, last := txs[..n], txs[n];
      assert AllBalanced(entries, init) && DistinctIds(env, init) && Balanced(entries, last) by {
        assert forall i :: 0 <= i < n ==> init[i] == txs[i];
      }
      ValueAfterTransactions(env, entries, init, height);
      assert InputsPresent(entries, init);
      EffectOfTransactions(env, entries, init, height);
      var mid := AfterTransactions(env, entries, init, height);
      LastIdIsNew(env, txs);
      ValueAfterTransaction(env, mid, last, height);
      InputSumOfRest(entries, mid, last.inputs);
      DisjointStep(env, txs);
    }
  }

  lemma LastIdIsNew(env: Env, txs: seq<Transaction>)
    requires |txs| > 0 && DistinctIds(env, txs)
    ensures TransactionId(env, txs[|txs| - 1]) !in IdsOf(env, txs[..|txs| - 1])
  {
    hide TransactionId, IdsOf;
    var init, id := txs[..|txs| - 1], TransactionId(env, txs[|txs| - 1]);
    assert forall k :: 0 <= k < |init| ==> init[k] == txs[k];
    if id in IdsOf(env, init) {
      var k := TransactionOrigin(env, init, id);
    }
  }

  lemma NoneDisjoint(txs: seq<Transaction>)
    requires |txs| == 0
    ensures DisjointInputs(txs)
  {
  }

  // ---- whole chains ----

  ghost function FeesBurned(path: seq<Block>): nat {
    if |path| <= 1 then 0 else FeesBurned(path[..|path| - 1]) + FeeTotal(path[|path| - 1].transactions)
  }

  ghost function TotalMinted(path: seq<Block>): nat {
    if |path| <= 1 then 0 else TotalMinted(path[..|path| - 1]) + Minted(path[|path| - 1])
  }

  ghost predicate AllBlocksDisjoint(path: seq<Block>) {
    forall i :: 1 <= i < |path| ==> DisjointInputs(path[i].transactions)
  }

  lemma AcceptedIsBalanced(env: Env, entries: Entries, height: int, txs: seq<Transaction>)
    requires TransactionsOk(env, entries, height, txs)
    ensures AllBalanced(entries, txs) && DistinctIds(env, txs)
  {
    hide ShapeOk, InputSum, TransactionId;
    forall i | 0 <= i < |txs| ensures Balanced(entries, txs[i]) {
      assert TransactionOk(env, entries, height, txs[i]);
      ShapeAmounts(env, txs[i]);
    }
  }

  lemma LastBlockBalanced(env: Env, path: seq<Block>)
    requires LedgerPath(env, path) && |path| > 1
    ensures AllBalanced(Replay(env, path[..|path| - 1]).entries, path[|path| - 1].transactions)
    ensures DistinctIds(env, path[|path| - 1].transactions)
  {
    hide AfterBlock, CoinbaseOk, TransactionsOk, AllBalanced, DistinctIds;
    var before, txs := Replay(env, path[..|path| - 1]).entries, path[|path| - 1].transactions;
    AcceptedIsBalanced(env, before, |path| - 1, txs);
  }

  lemma ValueWithNew(entries: Entries, k: Outpoint, e: UtxoEntry)
    requires k !in entries
    ensures Value(entries[k := e]) == Value(entries) + e.amountPhotons
  {
    hide Value;
    ValueWithout(entries[k := e], k);
    assert entries[k := e] - {k} == entries;
  }

  /** The entries of a path after the transactions of its last block, before the reward is added. */
  ghost function BeforeReward(env: Env, path: seq<Block>): Entries
    requires |path| > 1
  {
    AfterTransactions(env, Replay(env, path[..|path| - 1]).entries, path[|path| - 1].transactions, |path| - 1)
  }

  /** The transactions of a block burn their fees, and value is conserved iff their inputs are disjoint. */
  lemma TransactionsConserve(env: Env, path: seq<Block>)
    requires LedgerPath(env, path) && |path| > 1 && NoCollisions(env, path)
    ensures
      var before, mid := Replay(env, path[..|path| - 1]).entries, BeforeReward(env, path);
      var txs := path[|path| - 1].transactions;
      && Value(mid) + FeeTotal(txs) >= Value(before)
      && (Value(mid) + FeeTotal(txs) == Value(before) <==> DisjointInputs(txs))
      && path[|path| - 1].coinbase.Some?
      && Outpoint(CoinbaseId(env, |path| - 1, path[|path| - 1].coinbase.value), 0) !in mid
  {
    hide Value, LedgerPath, NoCollisions, AfterTransactions, FeeTotal, DisjointInputs, SpentStaysSpent;
    hide CoinbaseId, Effect, SpentBy, AllBalanced, DistinctIds, IdsOf, InputsPresent, FreshFor, Ids, BlockIds, Replay;
    hide EntriesWellBorn, AllPositive;
    var init, last := path[..|path| - 1], path[|path| - 1];
    var before := Replay(env, init).entries;
    PrefixOfLedgerPath(env, path, |path| - 1);
    NoCollisionsPrefix(env, path, |path| - 1);
    HistoryInvariant(env, init);
    BlockIdsAreNew(env, path);
    LastBlockBalanced(env, path);
    FreshIdsAreFresh(env, path);
    WellBornIsPositive(env, init);
    ValueAfterTransactions(env, before, last.transactions, |path| - 1);
    BalancedPresent(before, last.transactions);
    EffectOfTransactions(env, before, last.transactions, |path| - 1);
    CoinbaseKeyIsNew(env, path, BeforeReward(env, path));
  }

  lemma RewardAdded(env: Env, path: seq<Block>)
    requires |path| > 1 && path[|path| - 1].header.height == |path| - 1
    requires path[|path| - 1].coinbase.Some? && |path[|path| - 1].coinbase.value.outputs| == 1
    ensures
      var before, after, last := Replay(env, path[..|path| - 1]), Replay(env, path), path[|path| - 1];
      var e := CoinbaseEntry(env, |path| - 1, last.coinbase.value);
      && after.issuedPhotons == before.issuedPhotons + Minted(last)
      && after.entries == BeforeReward(env, path)[Outpoint(e.txid, 0) := e]
      && e.amountPhotons == Minted(last)
  {
    hide AfterTransactions, Photons, CoinbaseId;
  }

  /** One block: its reward enters, its fees leave, and value is conserved iff its inputs are disjoint. */
  lemma BlockConserves(env: Env, path: seq<Block>)
    requires LedgerPath(env, path) && |path| > 1 && NoCollisions(env, path)
    ensures
      var before, after := Replay(env, path[..|path| - 1]), Replay(env, path);
      var last := path[|path| - 1];
      && after.issuedPhotons == before.issuedPhotons + Minted(last)
      && Value(after.entries) + FeeTotal(last.transactions) >= Value(before.entries) + Minted(last)
      && (Value(after.entries) + FeeTotal(last.transactions) == Value(before.entries) + Minted(last)
          <==> DisjointInputs(last.transactions))
  {
    hide Value, LedgerPath, NoCollisions, FeeTotal, DisjointInputs, CoinbaseId, BeforeReward, Replay, Minted, Photons;
    hide CoinbasePayload;
    LastCoinbase(env, path);
    TransactionsConserve(env, path);
    RewardAdded(env, path);
    var e := CoinbaseEntry(env, |path| - 1, path[|path| - 1].coinbase.value);
    ValueWithNew(BeforeReward(env, path), Outpoint(e.txid, 0), e);
  }

  lemma WellBornIsPositive(env: Env, path: seq<Block>)
    requires EntriesWellBorn(env, path)
    ensures AllPositive(Replay(env, path).entries)
  {
    hide Replay;
  }

  lemma FreshIdsAreFresh(env: Env, path: seq<Block>)
    requires |path| > 1 && BlockIds(env, path[|path| - 1]) !! Ids(env, path[..|path| - 1])
    requires EntriesWellBorn(env, path[..|path| - 1])
    ensures FreshFor(IdsOf(env, path[|path| - 1].transactions), Replay(env, path[..|path| - 1]).entries)
  {
    hide Replay, IdsOf, Ids, CoinbaseId;
  }

  lemma BalancedPresent(entries: Entries, txs: seq<Transaction>)
    requires AllBalanced(entries, txs)
    ensures InputsPresent(entries, txs)
  {
  }

  lemma CoinbaseKeyIsNew(env: Env, path: seq<Block>, mid: Entries)
    requires |path| > 1 && path[|path| - 1].coinbase.Some?
    requires EntriesWellBorn(env, path[..|path| - 1])
    requires
      var last := path[|path| - 1];
      && CoinbaseId(env, |path| - 1, last.coinbase.value) !in Ids(env, path[..|path| - 1])
      && CoinbaseId(env, |path| - 1, last.coinbase.value) !in IdsOf(env, last.transactions)
      && Effect(Replay(env, path[..|path| - 1]).entries, mid, SpentBy(last.transactions), IdsOf(env, last.transactions))
    ensures Outpoint(CoinbaseId(env, |path| - 1, path[|path| - 1].coinbase.value), 0) !in mid
  {
    hide Replay, SpentBy, IdsOf, CoinbaseId;
  }

  /**
   * Over every applied chain: issued coins are the minted rewards, and all outputs plus all burned
   * fees account for exactly the issued coins if and only if no block consumes an output twice.
   */
  lemma {:induction false} ConservationOverChains(env: Env, path: seq<Block>)
    requires LedgerPath(env, path) && NoCollisions(env, path)
    ensures
      var l := Replay(env, path);
      && l.issuedPhotons == TotalMinted(path)
      && Value(l.entries) + FeesBurned(path) >= l.issuedPhotons
      && (Value(l.entries) + FeesBurned(path) == l.issuedPhotons <==> AllBlocksDisjoint(path))
  {
    hide Value, BlockOk, AfterBlock, NoCollisions, DisjointInputs, FeeTotal;
    if |path| == 1 {
      EmptyValue();
    } else {
      var init := path[..|path| - 1];
      NoCollisionsPrefix(env, path, |path| - 1);
      ConservationOverChains(env, init);
      BlockConserves(env, path);
      assert forall i :: 1 <= i < |init| ==> init[i] == path[i];
    }
  }

  lemma EmptyValue()
    ensures Value(map[]) == 0
  {
    assert Amounts(map[]) == map[];
  }

  /** The state at height h has issued what the emission schedule says, and no block stands above its end. */
  lemma {:induction false} IssuanceFollowsSchedule(env: Env, path: seq<Block>)
    requires LedgerPath(env, path)
    ensures Reward.IssuedAt(|path| - 1) == Option<int>.Some(Replay(env, path).issuedPhotons)
    ensures Replay(env, path).issuedPhotons <= Reward.TOTAL_SUPPLY
    ensures |path| - 1 <= Reward.FinalHeight()
  {
    hide Reward.IssuedAt, Reward.RewardForBlock, Reward.Mints, Reward.IsFinalHeight, LedgerPath, Replay;
    if |path| > 1 {
      PrefixOfLedgerPath(env, path, |path| - 1);
      IssuanceFollowsSchedule(env, path[..|path| - 1]);
      RewardOfLastBlock(env, path);
      Reward.IssuedStep(|path| - 1);
    } else {
      StartOfSchedule(env, path);
    }
    NotPastTheEnd(|path| - 1);
  }

  lemma StartOfSchedule(env: Env, path: seq<Block>)
    requires LedgerPath(env, path) && |path| <= 1
    ensures |path| == 1 && Reward.IssuedAt(0) == Option<int>.Some(Replay(env, path).issuedPhotons)
    ensures Replay(env, path).issuedPhotons <= Reward.TOTAL_SUPPLY
  {
  }

  lemma NotPastTheEnd(h: nat)
    requires Reward.IssuedAt(h).Some?
    ensures h <= Reward.FinalHeight()
  {
    hide Reward.IssuedAt;
    assert Reward.IsFinalHeight(Reward.FinalHeight());
  }

  lemma RewardOfLastBlock(env: Env, path: seq<Block>)
    requires LedgerPath(env, path) && |path| > 1
    ensures
      var before := Replay(env, path[..|path| - 1]).issuedPhotons;
      && Reward.Mints(|path| - 1, before)
      && Replay(env, path).issuedPhotons == before + Reward.RewardForBlock(|path| - 1, before).value
      && Replay(env, path).issuedPhotons <= Reward.TOTAL_SUPPLY
  {
    hide AfterTransactions, TransactionsOk, Reward.RewardForBlock, Photons, ValidAddress;
    assert BlockOk(env, Replay(env, path[..|path| - 1]), path[|path| - 1]);
  }
}
