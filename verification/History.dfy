/**
 * Whole chains of applied blocks: identifiers, the fate of outputs, conservation and issuance.
 * A path holds the genesis block at position 0; `packages/core/src/state.ts` is applied from position 1 on.
 */
module History {
  import opened Text
  import opened Types
  import opened SigningText
  import opened State
  import Reward

  ghost function Replay(env: Env, path: seq<Block>): Ledger {
    if |path| <= 1 then EMPTY_LEDGER else AfterBlock(env, Replay(env, path[..|path| - 1]), path[|path| - 1])
  }

  ghost predicate LedgerPath(env: Env, path: seq<Block>) {
    && |path| >= 1
    && (|path| == 1
        || var init, last := path[..|path| - 1], path[|path| - 1];
           && LedgerPath(env, init)
           && last.header.height == |path| - 1
           && BlockOk(env, Replay(env, init), last))
  }

  lemma {:induction false} PrefixOfLedgerPath(env: Env, path: seq<Block>, n: nat)
    requires LedgerPath(env, path) && 1 <= n <= |path|
    ensures LedgerPath(env, path[..n])
  {
    hide AfterBlock, BlockOk, Replay;
    if n == |path| {
      assert path[..n] == path;
    } else {
      PrefixOfLedgerPath(env, path[..|path| - 1], n);
      assert path[..|path| - 1][..n] == path[..n];
    }
  }

  // ---- identifiers ----

  ghost function IdsOf(env: Env, txs: seq<Transaction>): set<string> {
    if |txs| == 0 then {} else IdsOf(env, txs[..|txs| - 1]) + {TransactionId(env, txs[|txs| - 1])}
  }

  /** The identifiers under which a block files outputs. */
  ghost function BlockIds(env: Env, b: Block): set<string> {
    IdsOf(env, b.transactions)
    + if b.coinbase.Some? then {CoinbaseId(env, b.header.height, b.coinbase.value)} else {}
  }

  /** All identifiers of a path. */
  ghost function Ids(env: Env, path: seq<Block>): set<string> {
    if |path| <= 1 then {} else Ids(env, path[..|path| - 1]) + BlockIds(env, path[|path| - 1])
  }

  /** The outputs that the transactions of a block consume. */
  ghost function SpentBy(txs: seq<Transaction>): set<Outpoint> {
    if |txs| == 0 then {} else SpentBy(txs[..|txs| - 1]) + InputSet(txs[|txs| - 1].inputs)
  }

  ghost function Spent(path: seq<Block>): set<Outpoint> {
    if |path| <= 1 then {} else Spent(path[..|path| - 1]) + SpentBy(path[|path| - 1].transactions)
  }

  /** The texts that a path hashes to identifiers. */
  ghost function PayloadsOf(txs: seq<Transaction>): set<string> {
    if |txs| == 0 then {} else PayloadsOf(txs[..|txs| - 1]) + {IdPayload(txs[|txs| - 1])}
  }

  ghost function BlockPayloads(b: Block): set<string> {
    PayloadsOf(b.transactions)
    + if b.coinbase.Some? then {CoinbasePayload(b.header.height, b.coinbase.value)} else {}
  }

  ghost function Payloads(path: seq<Block>): set<string> {
    if |path| <= 1 then {} else Payloads(path[..|path| - 1]) + BlockPayloads(path[|path| - 1])
  }

  /** No two different texts among those this path hashes share a digest. */
  ghost predicate NoCollisions(env: Env, path: seq<Block>) {
    forall x, y :: x in Payloads(path) && y in Payloads(path) && (env.sha256Hex)(x) == (env.sha256Hex)(y) ==> x == y
  }

  lemma {:induction false} PayloadsGrow(path: seq<Block>, n: nat)
    requires n <= |path|
    ensures Payloads(path[..n]) <= Payloads(path)
  {
    if n == |path| {
      assert path[..n] == path;
    } else {
      PayloadsGrow(path[..|path| - 1], n);
      assert path[..|path| - 1][..n] == path[..n];
    }
  }

  lemma NoCollisionsPrefix(env: Env, path: seq<Block>, n: nat)
    requires NoCollisions(env, path) && n <= |path|
    ensures NoCollisions(env, path[..n])
  {
    PayloadsGrow(path, n);
  }

  /** Where an identifier of a path comes from: the coinbase of some block, or one of its transactions. */
  lemma {:induction false} Origin(env: Env, path: seq<Block>, id: string) returns (i: nat, k: int)
    requires LedgerPath(env, path) && id in Ids(env, path)
    ensures 1 <= i < |path| && path[i].header.height == i
    ensures k == -1 || 0 <= k < |path[i].transactions|
    ensures k == -1 ==>
      && path[i].coinbase.Some? && id == CoinbaseId(env, i, path[i].coinbase.value)
      && CoinbasePayload(i, path[i].coinbase.value) in Payloads(path)
    ensures k >= 0 ==>
      var tx := path[i].transactions[k];
      && id == TransactionId(env, tx) && ShapeOk(env, tx) && IdPayload(tx) in Payloads(path)
      && InputSet(tx.inputs) <= Spent(path)
  {
    hide ShapeOk, CoinbasePayload, IdPayload, BlockOk, Replay, TransactionId, InputSet, IdsOf, SpentBy, PayloadsOf;
    var init, last := path[..|path| - 1], path[|path| - 1];
    if id in Ids(env, init) {
      i, k := Origin(env, init, id);
    } else {
      i := |path| - 1;
      if last.coinbase.Some? && id == CoinbaseId(env, i, last.coinbase.value) {
        k := -1;
      } else {
        k := TransactionOrigin(env, last.transactions, id);
        MemberOf(env, last.transactions, k);
        ShapeInPath(env, path, k);
      }
    }
  }

  lemma ShapeInPath(env: Env, path: seq<Block>, k: nat)
    requires LedgerPath(env, path) && |path| > 1 && k < |path[|path| - 1].transactions|
    ensures ShapeOk(env, path[|path| - 1].transactions[k])
  {
    hide ShapeOk, CoinbaseOk, AfterBlock;
    var last := path[|path| - 1];
    assert TransactionOk(env, Replay(env, path[..|path| - 1]).entries, |path| - 1, last.transactions[k]);
  }

  lemma {:induction false} TransactionOrigin(env: Env, txs: seq<Transaction>, id: string) returns (k: nat)
    requires id in IdsOf(env, txs)
    ensures k < |txs| && id == TransactionId(env, txs[k])
  {
    if id == TransactionId(env, txs[|txs| - 1]) {
      k := |txs| - 1;
    } else {
      k := TransactionOrigin(env, txs[..|txs| - 1], id);
    }
  }

  lemma {:induction false} MemberOf(env: Env, txs: seq<Transaction>, k: nat)
    requires k < |txs|
    ensures InputSet(txs[k].inputs) <= SpentBy(txs)
    ensures TransactionId(env, txs[k]) in IdsOf(env, txs)
    ensures IdPayload(txs[k]) in PayloadsOf(txs)
  {
    hide IdPayload, InputSet, TransactionId;
    if k < |txs| - 1 {
      MemberOf(env, txs[..|txs| - 1], k);
    }
  }

  /** Transaction and coinbase texts never coincide, nor do coinbase texts of different heights. */
  lemma DomainsApart(env: Env, tx: Transaction, h: nat, c: Coinbase, g: nat, d: Coinbase)
    requires |tx.inputs| > 0
    ensures IdPayload(tx) != CoinbasePayload(h, c)
    ensures CoinbasePayload(h, c) == CoinbasePayload(g, d) ==> h == g
  {
    assert InputLines(tx.inputs)[0] == InputLine(0, tx.inputs[0]);
    assert IdPayload(tx)[0] == 'i' by {
      assert InputLine(0, tx.inputs[0])[0] == 'i';
      FirstOfJoin(InputLines(tx.inputs), '\n');
      FirstOfJoin([Join(InputLines(tx.inputs), '\n'), "fee:" + tx.fee, Join(OutputLines(tx.outputs), '\n')], '\n');
    }
    assert CoinbasePayload(h, c)[0] == 'E';
    if CoinbasePayload(h, c) == CoinbasePayload(g, d) {
      HeightText(h, CoinbaseOutputsText(c.outputs), g, CoinbaseOutputsText(d.outputs));
    }
  }

  lemma FirstOfJoin(fields: seq<string>, sep: char)
    requires |fields| > 0 && |fields[0]| > 0
    ensures |Join(fields, sep)| > 0 && Join(fields, sep)[0] == fields[0][0]
  {
  }

  lemma HeightText(h: nat, s: string, g: nat, t: string)
    requires "EDX-coinbase-v1\0" + IntegerText(h) + "\0" + s == "EDX-coinbase-v1\0" + IntegerText(g) + "\0" + t
    ensures h == g
  {
    hide DecimalText;
    UntilSeparator("EDX-coinbase-v1\0", DecimalText(h), s, DecimalText(g), t, '\0');
    DecimalRoundTrip(h);
    DecimalRoundTrip(g);
  }

  // ---- the fate of outputs ----

  ghost predicate AllPositive(entries: Entries) {
    forall k :: k in entries ==> entries[k].amountPhotons > 0
  }

  ghost predicate EntriesWellBorn(env: Env, path: seq<Block>) {
    && (forall k :: k in Replay(env, path).entries ==> k.txid in Ids(env, path))
    && AllPositive(Replay(env, path).entries)
  }

  ghost predicate SpentStaysSpent(env: Env, path: seq<Block>) {
    forall k :: k in Spent(path) ==> k.txid in Ids(env, path) && k !in Replay(env, path).entries
  }

  /** No identifier of `ids` names an output of `entries`. */
  ghost predicate FreshFor(ids: set<string>, entries: Entries) {
    forall k :: k in entries ==> k.txid !in ids
  }

  ghost predicate InputsPresent(entries: Entries, txs: seq<Transaction>) {
    forall i :: 0 <= i < |txs| ==> InputSet(txs[i].inputs) <= entries.Keys
  }

  /** `spent` is gone, the other entries are untouched, and what is new bears an identifier of `ids`. */
  ghost predicate Effect(entries: Entries, after: Entries, spent: set<Outpoint>, ids: set<string>) {
    && (forall k :: k in entries ==> (k in after <==> k !in spent))
    && (forall k :: k in entries && k in after ==> after[k] == entries[k])
    && (forall k :: k in after && k !in entries ==> k.txid in ids)
    && spent <= entries.Keys
  }

  lemma EffectStep(
    env: Env, entries: Entries, after: Entries, spent: set<Outpoint>, ids: set<string>, tx: Transaction, height: int)
    requires Effect(entries, after, spent, ids)
    requires InputSet(tx.inputs) <= entries.Keys && FreshFor({TransactionId(env, tx)}, entries)
    ensures Effect(
      entries, AfterTransaction(env, after, tx, height), spent + InputSet(tx.inputs), ids + {TransactionId(env, tx)})
  {
    hide TransactionId, InputSet, Photons;
    var created := Created(TransactionId(env, tx), tx.outputs, height);
    assert forall k :: k in created ==> k.txid == TransactionId(env, tx);
    assert forall k :: k in entries ==> k !in created;
  }

  lemma {:induction false} EffectOfTransactions(env: Env, entries: Entries, txs: seq<Transaction>, height: int)
    requires FreshFor(IdsOf(env, txs), entries) && InputsPresent(entries, txs)
    ensures Effect(entries, AfterTransactions(env, entries, txs, height), SpentBy(txs), IdsOf(env, txs))
  {
    hide TransactionId, InputSet, AfterTransaction;
    if |txs| > 0 {
      var init, last := txs[..|txs| - 1], txs[|txs| - 1];
      assert forall i :: 0 <= i < |init| ==> init[i] == txs[i];
      EffectOfTransactions(env, entries, init, height);
      EffectStep(env, entries, AfterTransactions(env, entries, init, height), SpentBy(init), IdsOf(env, init), last,
        height);
    }
  }

  /** The transaction at position `k` of an acceptable last block, seen from the state before it. */
  lemma LastTransaction(env: Env, path: seq<Block>, k: nat)
    requires LedgerPath(env, path) && |path| > 1 && k < |path[|path| - 1].transactions|
    ensures
      var tx := path[|path| - 1].transactions[k];
      && ShapeOk(env, tx) && |tx.inputs| > 0 && IdPayload(tx) in Payloads(path)
      && InputSet(tx.inputs) <= Replay(env, path[..|path| - 1]).entries.Keys
  {
    hide ShapeOk, CoinbaseOk, IdPayload, AfterBlock;
    var last := path[|path| - 1];
    assert TransactionOk(env, Replay(env, path[..|path| - 1]).entries, |path| - 1, last.transactions[k]);
    ShapeAmounts(env, last.transactions[k]);
    MemberOf(env, last.transactions, k);
  }

  lemma LastCoinbase(env: Env, path: seq<Block>)
    requires LedgerPath(env, path) && |path| > 1
    ensures
      var last := path[|path| - 1];
      && last.header.height == |path| - 1 && last.coinbase.Some? && |last.coinbase.value.outputs| == 1
      && CoinbasePayload(|path| - 1, last.coinbase.value) in Payloads(path)
      && Minted(last) > 0
  {
    hide CoinbasePayload, AfterBlock, ValidAddress, Reward.RewardForBlock, TransactionsOk, Photons;
    var init := path[..|path| - 1];
    assert BlockOk(env, Replay(env, init), path[|path| - 1]);
    Reward.RewardIsPositive(|path| - 1, Replay(env, init).issuedPhotons);
  }

  lemma TransactionIdIsNew(env: Env, path: seq<Block>, k: nat)
    requires LedgerPath(env, path) && |path| > 1 && NoCollisions(env, path)
    requires k < |path[|path| - 1].transactions| && SpentStaysSpent(env, path[..|path| - 1])
    ensures TransactionId(env, path[|path| - 1].transactions[k]) !in Ids(env, path[..|path| - 1])
  {
    hide ShapeOk, CoinbasePayload, IdPayload, AfterBlock, BlockOk, Payloads, Ids, Spent;
    var init, tx := path[..|path| - 1], path[|path| - 1].transactions[k];
    PayloadsGrow(path, |path| - 1);
    var id := TransactionId(env, tx);
    LastTransaction(env, path, k);
    if id in Ids(env, init) {
      var i, j := Origin(env, init, id);
      if j == -1 {
        DomainsApart(env, tx, i, init[i].coinbase.value, i, init[i].coinbase.value);
      } else {
        SameInputs(env, tx, init[i].transactions[j]);
        assert tx.inputs[0] in InputSet(tx.inputs);
        assert tx.inputs[0] in Spent(init);
      }
    }
  }

  lemma SameInputs(env: Env, a: Transaction, b: Transaction)
    requires ShapeOk(env, a) && ShapeOk(env, b) && IdPayload(a) == IdPayload(b)
    ensures a.inputs == b.inputs
  {
    hide IdPayload, ContentOk;
    PayloadDeterminesAllButKey(env, a, b);
  }

  lemma CoinbaseIdIsNew(env: Env, path: seq<Block>)
    requires LedgerPath(env, path) && |path| > 1 && NoCollisions(env, path)
    ensures
      var last := path[|path| - 1];
      last.coinbase.Some? && CoinbaseId(env, |path| - 1, last.coinbase.value) !in Ids(env, path[..|path| - 1])
  {
    hide ShapeOk, CoinbasePayload, IdPayload, AfterBlock, BlockOk, Spent, InputSet, Payloads, Ids;
    var init, last := path[..|path| - 1], path[|path| - 1];
    PayloadsGrow(path, |path| - 1);
    LastCoinbase(env, path);
    var c := last.coinbase.value;
    var id := CoinbaseId(env, |path| - 1, c);
    if id in Ids(env, init) {
      var i, j := Origin(env, init, id);
      if j == -1 {
        DomainsApart(env, SomeTransaction(), |path| - 1, c, i, init[i].coinbase.value);
      } else {
        OriginHasInputs(env, init[i].transactions[j]);
        DomainsApart(env, init[i].transactions[j], |path| - 1, c, |path| - 1, c);
      }
    }
  }

  lemma CoinbaseIdIsNoTransaction(env: Env, path: seq<Block>)
    requires LedgerPath(env, path) && |path| > 1 && NoCollisions(env, path)
    ensures
      var last := path[|path| - 1];
      last.coinbase.Some? && CoinbaseId(env, |path| - 1, last.coinbase.value) !in IdsOf(env, last.transactions)
  {
    hide ShapeOk, CoinbasePayload, IdPayload, LedgerPath, Spent, InputSet, Ids;
    var last := path[|path| - 1];
    LastCoinbase(env, path);
    var c := last.coinbase.value;
    if CoinbaseId(env, |path| - 1, c) in IdsOf(env, last.transactions) {
      var k := TransactionOrigin(env, last.transactions, CoinbaseId(env, |path| - 1, c));
      LastTransaction(env, path, k);
      DomainsApart(env, last.transactions[k], |path| - 1, c, |path| - 1, c);
    }
  }

  function SomeTransaction(): Transaction {
    Transaction([Outpoint("", 0)], [], "", "", "")
  }

  lemma OriginHasInputs(env: Env, tx: Transaction)
    requires ShapeOk(env, tx)
    ensures |tx.inputs| > 0
  {
    ShapeAmounts(env, tx);
  }

  /** A block brings only new identifiers: none of an earlier block, none twice. */
  lemma BlockIdsAreNew(env: Env, path: seq<Block>)
    requires LedgerPath(env, path) && |path| > 1 && NoCollisions(env, path)
    requires SpentStaysSpent(env, path[..|path| - 1])
    ensures
      var last := path[|path| - 1];
      && BlockIds(env, last) !! Ids(env, path[..|path| - 1])
      && last.coinbase.Some?
      && CoinbaseId(env, |path| - 1, last.coinbase.value) !in Ids(env, path[..|path| - 1])
      && CoinbaseId(env, |path| - 1, last.coinbase.value) !in IdsOf(env, last.transactions)
      && DistinctIds(env, last.transactions)
  {
    hide ShapeOk, CoinbaseId, TransactionId, AfterBlock, CoinbaseOk;
    var last := path[|path| - 1];
    CoinbaseIdIsNew(env, path);
    CoinbaseIdIsNoTransaction(env, path);
    forall id | id in IdsOf(env, last.transactions) ensures id !in Ids(env, path[..|path| - 1]) {
      var k := TransactionOrigin(env, last.transactions, id);
      TransactionIdIsNew(env, path, k);
    }
  }

  /** The entries after the last block, in terms of those before it. */
  lemma LastBlockEffect(env: Env, path: seq<Block>)
    requires LedgerPath(env, path) && |path| > 1 && NoCollisions(env, path)
    requires SpentStaysSpent(env, path[..|path| - 1]) && EntriesWellBorn(env, path[..|path| - 1])
    ensures
      Effect(Replay(env, path[..|path| - 1]).entries, Replay(env, path).entries,
             SpentBy(path[|path| - 1].transactions), BlockIds(env, path[|path| - 1]))
    ensures FreshFor(BlockIds(env, path[|path| - 1]), Replay(env, path[..|path| - 1]).entries)
  {
    hide ShapeOk, CoinbaseId, TransactionId, CoinbaseOk, Photons, BlockOk, AfterTransaction, NoCollisions;
    hide SpentStaysSpent, DistinctIds, InputSet, LedgerPath, SpentBy, IdsOf, AfterTransactions;
    hide CoinbasePayload, IdPayload;
    var init, last := path[..|path| - 1], path[|path| - 1];
    var before := Replay(env, init).entries;
    BlockIdsAreNew(env, path);
    LastCoinbase(env, path);
    assert FreshFor(BlockIds(env, last), before);
    forall i | 0 <= i < |last.transactions| ensures InputSet(last.transactions[i].inputs) <= before.Keys {
      LastTransaction(env, path, i);
    }
    EffectOfTransactions(env, before, last.transactions, |path| - 1);
  }

  lemma CreatedPositive(env: Env, entries: Entries, tx: Transaction, height: int)
    requires AllPositive(entries) && ShapeOk(env, tx)
    ensures AllPositive(AfterTransaction(env, entries, tx, height))
  {
    hide ShapeOk, TransactionId, InputSet, Photons;
    ShapeAmounts(env, tx);
    assert AllPositive(Created(TransactionId(env, tx), tx.outputs, height));
  }

  /** Amounts that a transaction list creates are positive. */
  lemma {:induction false} AmountsStayPositive(env: Env, entries: Entries, txs: seq<Transaction>, height: int)
    requires AllPositive(entries) && forall i :: 0 <= i < |txs| ==> ShapeOk(env, txs[i])
    ensures AllPositive(AfterTransactions(env, entries, txs, height))
  {
    hide ShapeOk, AllPositive, AfterTransaction;
    if |txs| > 0 {
      var init := txs[..|txs| - 1];
      assert forall i :: 0 <= i < |init| ==> init[i] == txs[i];
      AmountsStayPositive(env, entries, init, height);
      CreatedPositive(env, AfterTransactions(env, entries, init, height), txs[|txs| - 1], height);
    }
  }

  lemma HistoryStep(env: Env, path: seq<Block>)
    requires |path| > 1 && EntriesWellBorn(env, path[..|path| - 1]) && SpentStaysSpent(env, path[..|path| - 1])
    requires
      Effect(Replay(env, path[..|path| - 1]).entries, Replay(env, path).entries,
             SpentBy(path[|path| - 1].transactions), BlockIds(env, path[|path| - 1]))
    requires FreshFor(BlockIds(env, path[|path| - 1]), Replay(env, path[..|path| - 1]).entries)
    requires BlockIds(env, path[|path| - 1]) !! Ids(env, path[..|path| - 1])
    requires AllPositive(Replay(env, path).entries)
    ensures EntriesWellBorn(env, path) && SpentStaysSpent(env, path)
  {
    hide Replay, BlockIds, SpentBy;
  }

  /** The invariant of every applied chain, by induction over its blocks. */
  lemma {:induction false} HistoryInvariant(env: Env, path: seq<Block>)
    requires LedgerPath(env, path) && NoCollisions(env, path)
    ensures EntriesWellBorn(env, path) && SpentStaysSpent(env, path) && Keyed(Replay(env, path).entries)
  {
    hide LedgerPath, NoCollisions, Replay, Effect, FreshFor, BlockIds, SpentBy, DistinctIds, CoinbaseId, IdsOf;
    hide EntriesWellBorn, SpentStaysSpent, Keyed;
    if |path| > 1 {
      PrefixOfLedgerPath(env, path, |path| - 1);
      NoCollisionsPrefix(env, path, |path| - 1);
      HistoryInvariant(env, path[..|path| - 1]);
      LastBlockEffect(env, path);
      BlockIdsAreNew(env, path);
      LastBlockEntries(env, path);
      HistoryStep(env, path);
    } else {
      EmptyHistory(env, path);
    }
  }

  lemma EmptyHistory(env: Env, path: seq<Block>)
    requires |path| <= 1
    ensures EntriesWellBorn(env, path) && SpentStaysSpent(env, path) && Keyed(Replay(env, path).entries)
  {
  }

  /** Entries stay filed under their own keys and positive. */
  lemma LastBlockEntries(env: Env, path: seq<Block>)
    requires LedgerPath(env, path) && |path| > 1
    requires Keyed(Replay(env, path[..|path| - 1]).entries) && EntriesWellBorn(env, path[..|path| - 1])
    ensures Keyed(Replay(env, path).entries)
    ensures AllPositive(Replay(env, path).entries)
  {
    hide ShapeOk, CoinbaseId, TransactionId, CoinbaseOk, Photons, TransactionsOk, AfterTransaction;
    hide LedgerPath, BlockOk, AfterTransactions, CoinbasePayload, IdPayload, InputSet;
    var before, last := Replay(env, path[..|path| - 1]).entries, path[|path| - 1];
    LastCoinbase(env, path);
    forall i | 0 <= i < |last.transactions| ensures ShapeOk(env, last.transactions[i]) {
      LastTransaction(env, path, i);
    }
    AmountsStayPositive(env, before, last.transactions, |path| - 1);
    AfterTransactionsKeyed(env, before, last.transactions, |path| - 1);
  }

  /** No identifier is used by two blocks of a chain, so no output key is created twice. */
  lemma {:induction false} NoIdTwice(env: Env, path: seq<Block>, i: nat, j: nat)
    requires LedgerPath(env, path) && NoCollisions(env, path) && 1 <= i < j < |path|
    ensures BlockIds(env, path[i]) !! BlockIds(env, path[j])
  {
    hide BlockIds, BlockOk, Replay, LedgerPath, NoCollisions, SpentStaysSpent, EntriesWellBorn, Keyed, Ids;
    hide DistinctIds, CoinbaseId, IdsOf;
    var p := path[..j + 1];
    assert p[j] == path[j];
    PrefixOfLedgerPath(env, path, j + 1);
    NoCollisionsPrefix(env, path, j + 1);
    assert p[..j] == path[..j];
    PrefixOfLedgerPath(env, path, j);
    NoCollisionsPrefix(env, path, j);
    HistoryInvariant(env, p[..j]);
    BlockIdsAreNew(env, p);
    IdsContain(env, path[..j], i);
  }

  lemma {:induction false} IdsContain(env: Env, path: seq<Block>, i: nat)
    requires 1 <= i < |path|
    ensures BlockIds(env, path[i]) <= Ids(env, path)
  {
    hide BlockIds;
    if i < |path| - 1 {
      IdsContain(env, path[..|path| - 1], i);
    }
  }

  lemma {:induction false} SpentGrows(path: seq<Block>, n: nat)
    requires n <= |path|
    ensures Spent(path[..n]) <= Spent(path)
  {
    if n == |path| {
      assert path[..n] == path;
    } else {
      SpentGrows(path[..|path| - 1], n);
      assert path[..|path| - 1][..n] == path[..n];
    }
  }

  /** An output that was in the state and left it was consumed, and never comes back. */
  lemma {:induction false} NeverReborn(env: Env, path: seq<Block>, i: nat, j: nat, k: Outpoint)
    requires LedgerPath(env, path) && NoCollisions(env, path) && 1 <= i <= j <= |path|
    requires k in Replay(env, path[..i]).entries && k !in Replay(env, path[..j]).entries
    ensures k in Spent(path[..j]) && k !in Replay(env, path).entries
  {
    hide BlockOk, Replay, SpentBy;
    PrefixOfLedgerPath(env, path, j);
    NoCollisionsPrefix(env, path, j);
    assert path[..j][..i] == path[..i];
    LeftMeansSpent(env, path[..j], i, k);
    SpentGrows(path, j);
    HistoryInvariant(env, path);
  }

  lemma {:induction false} LeftMeansSpent(env: Env, path: seq<Block>, i: nat, k: Outpoint)
    requires LedgerPath(env, path) && NoCollisions(env, path) && 1 <= i <= |path|
    requires k in Replay(env, path[..i]).entries && k !in Replay(env, path).entries
    ensures k in Spent(path)
  {
    hide BlockOk, Replay, SpentBy;
    assert path[..|path|] == path;
    if i < |path| {
      var init := path[..|path| - 1];
      assert init[..i] == path[..i];
      NoCollisionsPrefix(env, path, |path| - 1);
      if k in Replay(env, init).entries {
        HistoryInvariant(env, init);
        LastBlockEffect(env, path);
      } else {
        LeftMeansSpent(env, init, i, k);
      }
    }
  }
}
