/** The unspent-output state and its block transition: packages/core/src/state.ts. */
module State {
  import opened Prelude
  import opened Text
  import opened Types
  import opened SigningText
  import opened Sums
  import Amount
  import Reward

  const COINBASE_MATURITY := 6

  datatype UtxoEntry = UtxoEntry(
    txid: string, index: int, address: string, amountPhotons: nat, isCoinbase: bool, birthHeight: int)

  type Entries = map<Outpoint, UtxoEntry>

  /** A snapshot of the state: what `UtxoState` holds at one moment. */
  datatype Ledger = Ledger(entries: Entries, issuedPhotons: int)

  const EMPTY_LEDGER := Ledger(map[], Reward.GENESIS_ISSUED)

  datatype Applied = Applied(feeBurnedPhotons: nat, rewardPhotons: nat)

  /** The text whose digest is the coinbase identifier. */
  function CoinbasePayload(height: int, coinbase: Coinbase): string {
    "EDX-coinbase-v1\0" + IntegerText(height) + "\0" + CoinbaseOutputsText(coinbase.outputs)
  }

  function CoinbasePart(output: Output): string {
    output.address + ":" + DecimalText(Photons(output.amount))
  }

  function CoinbaseParts(outputs: seq<Output>): seq<string> {
    seq(|outputs|, k requires 0 <= k < |outputs| => CoinbasePart(outputs[k]))
  }

  function CoinbaseOutputsText(outputs: seq<Output>): string {
    Join(CoinbaseParts(outputs), '|')
  }

  function CoinbaseId(env: Env, height: int, coinbase: Coinbase): HashText {
    (env.sha256Hex)(CoinbasePayload(height, coinbase))
  }

  // ---- what makes a block acceptable ----

  predicate InputOk(entries: Entries, sender: string, height: int, input: Outpoint) {
    && input in entries
    && entries[input].address == sender
    && (entries[input].isCoinbase ==> height >= entries[input].birthHeight + COINBASE_MATURITY)
  }

  /** Sum of the amounts of those inputs that are unspent. */
  function InputSum(entries: Entries, inputs: seq<Outpoint>): nat {
    if |inputs| == 0 then 0
    else
      var last := inputs[|inputs| - 1];
      InputSum(entries, inputs[..|inputs| - 1]) + if last in entries then entries[last].amountPhotons else 0
  }

  ghost predicate InputsOk(env: Env, entries: Entries, height: int, tx: Transaction) {
    forall k :: 0 <= k < |tx.inputs| ==> InputOk(entries, AddressOf(env, tx.pubkey), height, tx.inputs[k])
  }

  ghost predicate TransactionOk(env: Env, entries: Entries, height: int, tx: Transaction) {
    && ShapeOk(env, tx)
    && InputsOk(env, entries, height, tx)
    && InputSum(entries, tx.inputs) == Consumed(tx)
  }

  ghost predicate TransactionsOk(env: Env, entries: Entries, height: int, txs: seq<Transaction>) {
    && (forall k :: 0 <= k < |txs| ==> TransactionOk(env, entries, height, txs[k]))
    && DistinctIds(env, txs)
  }

  ghost predicate DistinctIds(env: Env, txs: seq<Transaction>) {
    forall j, k :: 0 <= j < k < |txs| ==> TransactionId(env, txs[j]) != TransactionId(env, txs[k])
  }

  ghost predicate CoinbaseOk(env: Env, issued: int, b: Block) {
    && b.coinbase.Some? && |b.coinbase.value.outputs| == 1
    && var o := b.coinbase.value.outputs[0];
    && ValidAddress(env, o.address)
    && Amount.Parse(o.amount).Some?
    && Reward.RewardForBlock(b.header.height, issued) == Ok(Photons(o.amount))
    && issued + Photons(o.amount) <= Reward.TOTAL_SUPPLY
    && b.header.payoutAddress == o.address
  }

  ghost predicate BlockOk(env: Env, l: Ledger, b: Block) {
    && b.header.height >= 1
    && CoinbaseOk(env, l.issuedPhotons, b)
    && TransactionsOk(env, l.entries, b.header.height, b.transactions)
  }

  // ---- what an acceptable block does ----

  function Created(id: string, outputs: seq<Output>, height: int): Entries {
    map k | 0 <= k < |outputs| ::
      Outpoint(id, k) := UtxoEntry(id, k, outputs[k].address, Photons(outputs[k].amount), false, height)
  }

  function InputSet(inputs: seq<Outpoint>): set<Outpoint> {
    set i | i in inputs
  }

  lemma InputSetStep(inputs: seq<Outpoint>, k: nat)
    requires k < |inputs|
    ensures InputSet(inputs[..k + 1]) == InputSet(inputs[..k]) + {inputs[k]}
  {
    assert inputs[..k + 1] == inputs[..k] + [inputs[k]];
  }

  lemma CreatedStep(id: string, outputs: seq<Output>, k: nat, height: int)
    requires k < |outputs|
    ensures Created(id, outputs[..k + 1], height) == Created(id, outputs[..k], height)
      [Outpoint(id, k) := UtxoEntry(id, k, outputs[k].address, Photons(outputs[k].amount), false, height)]
  {
  }

  lemma EmptyChanges(id: string, outputs: seq<Output>, inputs: seq<Outpoint>, height: int)
    ensures InputSet(inputs[..0]) == {} && Created(id, outputs[..0], height) == map[]
  {
  }

  lemma MoveEntry(a: Entries, rest: Entries, k: Outpoint)
    requires k in rest && k !in a
    ensures a[k := rest[k]] + (rest - {k}) == a + rest
  {
  }

  function AfterTransaction(env: Env, entries: Entries, tx: Transaction, height: int): Entries {
    entries - InputSet(tx.inputs) + Created(TransactionId(env, tx), tx.outputs, height)
  }

  function AfterTransactions(env: Env, entries: Entries, txs: seq<Transaction>, height: int): Entries {
    if |txs| == 0 then entries
    else AfterTransaction(env, AfterTransactions(env, entries, txs[..|txs| - 1], height), txs[|txs| - 1], height)
  }

  function Minted(b: Block): nat {
    if b.coinbase.Some? && |b.coinbase.value.outputs| == 1 then Photons(b.coinbase.value.outputs[0].amount) else 0
  }

  function CoinbaseEntry(env: Env, height: int, coinbase: Coinbase): UtxoEntry
    requires |coinbase.outputs| == 1
  {
    UtxoEntry(CoinbaseId(env, height, coinbase), 0, coinbase.outputs[0].address,
              Photons(coinbase.outputs[0].amount), true, height)
  }

  function AfterBlock(env: Env, l: Ledger, b: Block): Ledger {
    if b.coinbase.None? || |b.coinbase.value.outputs| != 1 then l
    else
      var height := b.header.height;
      var e := CoinbaseEntry(env, height, b.coinbase.value);
      Ledger(
        AfterTransactions(env, l.entries, b.transactions, height)[Outpoint(e.txid, 0) := e],
        l.issuedPhotons + Minted(b))
  }

  function FeeTotal(txs: seq<Transaction>): nat {
    if |txs| == 0 then 0 else FeeTotal(txs[..|txs| - 1]) + Photons(txs[|txs| - 1].fee)
  }

  // ---- queries ----

  ghost function AmountsOf(l: Ledger, address: string): map<Outpoint, nat> {
    map k | k in l.entries && l.entries[k].address == address :: l.entries[k].amountPhotons
  }

  ghost predicate IsSpendable(e: UtxoEntry, address: string, currentHeight: int) {
    e.address == address && (e.isCoinbase ==> currentHeight >= e.birthHeight + COINBASE_MATURITY)
  }

  /** Every entry is filed under its own identifier and index. */
  ghost predicate Keyed(entries: Entries) {
    forall k :: k in entries ==> k == Outpoint(entries[k].txid, entries[k].index)
  }

  lemma {:induction false} AfterTransactionsKeyed(env: Env, entries: Entries, txs: seq<Transaction>, height: int)
    requires Keyed(entries)
    ensures Keyed(AfterTransactions(env, entries, txs, height))
  {
    if |txs| > 0 {
      AfterTransactionsKeyed(env, entries, txs[..|txs| - 1], height);
    }
  }

  lemma AmountsStep(entries: Entries, address: string, k: Outpoint)
    requires k in entries
    ensures
      Sum(AmountsOf(Ledger(entries, 0), address))
      == Sum(AmountsOf(Ledger(entries - {k}, 0), address))
         + if entries[k].address == address then entries[k].amountPhotons else 0
  {
    hide Sum;
    var amounts, fewer := AmountsOf(Ledger(entries, 0), address), AmountsOf(Ledger(entries - {k}, 0), address);
    if entries[k].address == address {
      SumRemove(amounts, k);
      assert fewer == amounts - {k};
    } else {
      assert fewer == amounts;
    }
  }

  lemma IssuedAside(l: Ledger, address: string)
    ensures AmountsOf(Ledger(l.entries, 0), address) == AmountsOf(l, address)
  {
  }

  lemma NoAmounts(entries: Entries, address: string)
    requires entries.Keys == {}
    ensures Sum(AmountsOf(Ledger(entries, 0), address)) == 0
  {
    assert AmountsOf(Ledger(entries, 0), address) == map[];
  }

  class UtxoState {
    var entries: Entries
    var issuedPhotons: int

    ghost function Snapshot(): Ledger
      reads this
    {
      Ledger(entries, issuedPhotons)
    }

    ghost predicate Valid()
      reads this
    {
      Keyed(entries)
    }

    constructor ()
      ensures Valid() && Snapshot() == EMPTY_LEDGER
    {
      entries, issuedPhotons := map[], Reward.GENESIS_ISSUED;
    }

    /** A copy that files every entry of `initial` anew. */
    constructor Copy(initial: Ledger)
      requires Keyed(initial.entries)
      ensures Valid() && Snapshot() == initial
    {
      entries, issuedPhotons := map[], initial.issuedPhotons;
      new;
      var rest := initial.entries;
      while rest.Keys != {}
        invariant Keyed(rest) && issuedPhotons == initial.issuedPhotons
        invariant rest.Keys !! entries.Keys && entries + rest == initial.entries
        decreases |rest|
      {
        var k :| k in rest;
        var entry := rest[k];
        MoveEntry(entries, rest, k);
        entries := entries[Outpoint(entry.txid, entry.index) := entry];
        rest := rest - {k};
      }
      assert entries + rest == entries;
    }

    method Insert(entry: UtxoEntry)
      requires Valid()
      modifies this`entries
      ensures Valid() && entries == old(entries)[Outpoint(entry.txid, entry.index) := entry]
    {
      entries := entries[Outpoint(entry.txid, entry.index) := entry];
    }

    /** The checks of one transaction against the entries before the block; the result is its fee. */
    method CheckTransaction(env: Env, height: int, tx: Transaction) returns (r: Result<nat>)
      ensures r.Ok? <==> TransactionOk(env, entries, height, tx)
      ensures r.Ok? ==> r.value == Photons(tx.fee)
    {
      hide ShapeOk, Amount.Parse;
      var consumed := ValidateSignedTransactionShape(env, tx);
      if consumed.Err? {
        return consumed;
      }
      ShapeAmounts(env, tx);
      var inputSum := 0;
      var senderAddress := AddressFromPublicKey(env, tx.pubkey);
      for k := 0 to |tx.inputs|
        invariant forall j :: 0 <= j < k ==> InputOk(entries, senderAddress, height, tx.inputs[j])
        invariant inputSum == InputSum(entries, tx.inputs[..k])
      {
        var input := tx.inputs[k];
        if input !in entries {
          return Err("unknown UTXO");
        }
        var entry := entries[input];
        if entry.address != senderAddress {
          return Err("UTXO is not owned by signer");
        }
        if entry.isCoinbase && height < entry.birthHeight + COINBASE_MATURITY {
          return Err("immature coinbase");
        }
        assert tx.inputs[..k + 1][..k] == tx.inputs[..k];
        inputSum := inputSum + entry.amountPhotons;
      }
      assert tx.inputs[..|tx.inputs|] == tx.inputs;
      var outputSum := SumOutputs(tx.outputs);
      if inputSum != consumed.value {
        return Err("transaction consumes more than its inputs");
      }
      if inputSum - outputSum <= 0 {
        return Err("transaction must burn a positive fee");
      }
      if inputSum - outputSum != Photons(tx.fee) {
        return Err("transaction fee mismatch");
      }
      r := Ok(inputSum - outputSum);
    }

    /** All or nothing: a refused block leaves the state as it was. */
    method ApplyBlock(env: Env, b: Block) returns (r: Result<Applied>)
      requires Valid()
      modifies this
      ensures Valid()
      ensures r.Ok? <==> BlockOk(env, old(Snapshot()), b)
      ensures r.Ok? ==> Snapshot() == AfterBlock(env, old(Snapshot()), b)
      ensures r.Ok? ==> r.value == Applied(FeeTotal(b.transactions), Minted(b))
      ensures r.Err? ==> Snapshot() == old(Snapshot())
    {
      hide CoinbaseOk, TransactionsOk, AfterTransaction, CoinbaseId, Photons;
      var height := b.header.height;
      if height < 1 {
        return Err("genesis has no mutable state transition");
      }
      var coinbase := CheckCoinbase(env, b);
      if coinbase.Err? {
        return Err(coinbase.error);
      }
      var fees := CheckTransactions(env, height, b.transactions);
      if fees.Err? {
        return Err(fees.error);
      }
      for position := 0 to |b.transactions|
        modifies this`entries
        invariant Valid()
        invariant entries == AfterTransactions(env, old(entries), b.transactions[..position], height)
      {
        assert b.transactions[..position + 1][..position] == b.transactions[..position];
        Spend(env, height, b.transactions[position]);
      }
      assert b.transactions[..|b.transactions|] == b.transactions;
      Insert(CoinbaseEntry(env, height, b.coinbase.value));
      issuedPhotons := issuedPhotons + coinbase.value;
      r := Ok(Applied(fees.value, coinbase.value));
    }

    method CheckCoinbase(env: Env, b: Block) returns (r: Result<nat>)
      ensures r.Ok? <==> CoinbaseOk(env, issuedPhotons, b)
      ensures r.Ok? ==> b.coinbase.Some? && |b.coinbase.value.outputs| == 1 && r.value == Minted(b)
    {
      hide ValidAddress, Amount.Parse, Reward.RewardForBlock;
      if b.coinbase.None? {
        return Err("mined block requires a coinbase");
      }
      if |b.coinbase.value.outputs| != 1 {
        return Err("coinbase must have exactly one output");
      }
      var coinbaseOutput := b.coinbase.value.outputs[0];
      var valid := ValidateAddress(env, coinbaseOutput.address);
      if !valid {
        return Err("invalid coinbase address");
      }
      var coinbaseAmount := Amount.Parse(coinbaseOutput.amount);
      if coinbaseAmount.None? {
        return Err("invalid EDX amount");
      }
      var expectedReward := Reward.RewardForBlock(b.header.height, issuedPhotons);
      if expectedReward.Err? {
        return Err(expectedReward.error);
      }
      if coinbaseAmount.value != expectedReward.value {
        return Err("invalid coinbase subsidy");
      }
      if issuedPhotons + coinbaseAmount.value > Reward.TOTAL_SUPPLY {
        return Err("block exceeds supply cap");
      }
      if b.header.payoutAddress != coinbaseOutput.address {
        return Err("header payout does not match coinbase");
      }
      r := Ok(coinbaseAmount.value);
    }

    /** The validation loop: identifiers are new to the block, every transaction is valid. */
    method CheckTransactions(env: Env, height: int, txs: seq<Transaction>) returns (r: Result<nat>)
      ensures r.Ok? <==> TransactionsOk(env, entries, height, txs)
      ensures r.Ok? ==> r.value == FeeTotal(txs)
    {
      hide ShapeOk, Amount.Parse, InputsOk, TransactionId;
      var seenTransactionIds: set<string> := {};
      var feeBurned := 0;
      for position := 0 to |txs|
        invariant forall k :: 0 <= k < position ==> TransactionOk(env, entries, height, txs[k])
        invariant DistinctIds(env, txs[..position])
        invariant forall x :: x in seenTransactionIds <==>
          exists k :: 0 <= k < position && x == TransactionId(env, txs[k])
        invariant feeBurned == FeeTotal(txs[..position])
      {
        var tx := txs[position];
        var id := TransactionId(env, tx);
        if id in seenTransactionIds {
          return Err("duplicate transaction");
        }
        seenTransactionIds := seenTransactionIds + {id};
        var fee := CheckTransaction(env, height, tx);
        if fee.Err? {
          return fee;
        }
        assert txs[..position + 1][..position] == txs[..position];
        feeBurned := feeBurned + fee.value;
      }
      assert txs[..|txs|] == txs;
      r := Ok(feeBurned);
    }

    /** Deletes the inputs of a transaction and inserts its outputs. */
    method Spend(env: Env, height: int, tx: Transaction)
      requires Valid()
      modifies this`entries
      ensures Valid() && entries == AfterTransaction(env, old(entries), tx, height)
    {
      hide TransactionId, Photons, Created, InputSet;
      assert InputSet(tx.inputs[..0]) == {} && Created(TransactionId(env, tx), tx.outputs[..0], height) == map[] by {
        EmptyChanges(TransactionId(env, tx), tx.outputs, tx.inputs, height);
      }
      for k := 0 to |tx.inputs|
        modifies this`entries
        invariant Valid() && entries == old(entries) - InputSet(tx.inputs[..k])
      {
        InputSetStep(tx.inputs, k);
        entries := entries - {tx.inputs[k]};
      }
      assert tx.inputs[..|tx.inputs|] == tx.inputs;
      ghost var left := entries;
      var id := TransactionId(env, tx);
      for index := 0 to |tx.outputs|
        modifies this`entries
        invariant Valid() && entries == left + Created(id, tx.outputs[..index], height)
      {
        var output := tx.outputs[index];
        CreatedStep(id, tx.outputs, index, height);
        Insert(UtxoEntry(id, index, output.address, Photons(output.amount), false, height));
      }
      assert tx.outputs[..|tx.outputs|] == tx.outputs;
    }

    method Balance(address: string) returns (total: nat)
      ensures total == Sum(AmountsOf(Snapshot(), address))
    {
      hide AmountsOf, Sum;
      total := 0;
      var rest := entries;
      ghost var all := AmountsOf(Snapshot(), address);
      IssuedAside(Snapshot(), address);
      while rest.Keys != {}
        invariant total + Sum(AmountsOf(Ledger(rest, 0), address)) == Sum(all)
        decreases |rest|
      {
        var k :| k in rest;
        AmountsStep(rest, address, k);
        if rest[k].address == address {
          total := total + rest[k].amountPhotons;
        }
        rest := rest - {k};
      }
      NoAmounts(rest, address);
    }

    /** Exactly the spendable entries of an address, the oldest first. */
    method Spendable(address: string, currentHeight: int) returns (result: seq<UtxoEntry>)
      requires Valid()
      ensures forall e :: e in result <==>
        && e in entries.Values && e.address == address
        && (e.isCoinbase ==> currentHeight >= e.birthHeight + 6)
      ensures forall j, k :: 0 <= j < k < |result| ==> result[j] != result[k]
      ensures forall j, k :: 0 <= j < k < |result| ==> result[j].birthHeight <= result[k].birthHeight
    {
      result := [];
      var rest := entries;
      while rest.Keys != {}
        invariant Keyed(rest) && forall k :: k in rest ==> k in entries && rest[k] == entries[k]
        invariant forall e :: e in result <==>
          && IsSpendable(e, address, currentHeight)
          && (exists k :: k in entries && k !in rest && e == entries[k])
        invariant forall j, k :: 0 <= j < k < |result| ==> result[j] != result[k]
        invariant forall j, k :: 0 <= j < k < |result| ==> result[j].birthHeight <= result[k].birthHeight
        decreases |rest|
      {
        var k :| k in rest;
        var e := rest[k];
        if e.address == address && (!e.isCoinbase || currentHeight >= e.birthHeight + COINBASE_MATURITY) {
          result := InsertByAge(e, result);
        }
        rest := rest - {k};
      }
    }
  }

  /** One step of the stable sort by birth height. */
  method InsertByAge(e: UtxoEntry, sorted: seq<UtxoEntry>) returns (r: seq<UtxoEntry>)
    requires e !in sorted
    requires forall j, k :: 0 <= j < k < |sorted| ==> sorted[j] != sorted[k]
    requires forall j, k :: 0 <= j < k < |sorted| ==> sorted[j].birthHeight <= sorted[k].birthHeight
    ensures forall x :: x in r <==> x == e || x in sorted
    ensures forall j, k :: 0 <= j < k < |r| ==> r[j] != r[k]
    ensures forall j, k :: 0 <= j < k < |r| ==> r[j].birthHeight <= r[k].birthHeight
  {
    var i := |sorted|;
    while i > 0 && sorted[i - 1].birthHeight > e.birthHeight
      invariant 0 <= i <= |sorted|
      invariant forall k :: i <= k < |sorted| ==> sorted[k].birthHeight > e.birthHeight
    {
      i := i - 1;
    }
    r := sorted[..i] + [e] + sorted[i..];
  }

  method SumOutputs(outputs: seq<Output>) returns (total: nat)
    ensures total == OutputTotal(outputs)
  {
    total := 0;
    for k := 0 to |outputs|
      invariant total == OutputTotal(outputs[..k])
    {
      assert outputs[..k + 1][..k] == outputs[..k];
      total := total + Photons(outputs[k].amount);
    }
    assert outputs[..|outputs|] == outputs;
  }

  lemma ShapeAmounts(env: Env, tx: Transaction)
    requires ShapeOk(env, tx)
    ensures Photons(tx.fee) > 0 && |tx.inputs| > 0 && |tx.outputs| > 0
    ensures forall j, k :: 0 <= j < k < |tx.inputs| ==> tx.inputs[j] != tx.inputs[k]
    ensures forall k :: 0 <= k < |tx.outputs| ==> Photons(tx.outputs[k].amount) > 0
  {
    hide ValidAddress, Amount.Parse;
  }
}
