/**
 * The unspent outputs of two chains compared: an output that both hold unspent is the same output, so a transaction
 * that is valid on one is valid on the other exactly when its inputs are unspent and mature there.
 */
module Branches {
  import opened Text
  import opened Types
  import opened SigningText
  import opened State
  import opened History
  import opened Conservation
  import opened Mempool
  import Amount
  import Reward

  /** No two different texts among those that two chains hash share a digest. */
  ghost predicate NoCollisionsBetween(env: Env, p: seq<Block>, q: seq<Block>) {
    forall x, y ::
      x in Payloads(p) + Payloads(q) && y in Payloads(p) + Payloads(q) && (env.sha256Hex)(x) == (env.sha256Hex)(y)
      ==> x == y
  }

  /** One text for each chain, with one digest. */
  lemma SameText(env: Env, p: seq<Block>, q: seq<Block>, x: string, y: string)
    requires NoCollisionsBetween(env, p, q) && x in Payloads(p) && y in Payloads(q)
    requires (env.sha256Hex)(x) == (env.sha256Hex)(y)
    ensures x == y
  {
  }

  // ---- where an unspent output comes from ----

  /** The `j`th transaction created this entry, or it was there before. */
  lemma {:induction false} CreatedOrigin(
    env: Env, entries: Entries, txs: seq<Transaction>, height: int, k: Outpoint) returns (j: int)
    requires k in AfterTransactions(env, entries, txs, height)
    ensures j == -1 ==> k in entries && entries[k] == AfterTransactions(env, entries, txs, height)[k]
    ensures j != -1 ==>
      && 0 <= j < |txs| && k.txid == TransactionId(env, txs[j]) && 0 <= k.index < |txs[j].outputs|
      && AfterTransactions(env, entries, txs, height)[k] == UtxoEntry(k.txid, k.index, txs[j].outputs[k.index].address,
           Photons(txs[j].outputs[k.index].amount), false, height)
  {
    hide TransactionId, Photons, InputSet;
    if |txs| == 0 {
      j := -1;
    } else {
      var init, last := txs[..|txs| - 1], txs[|txs| - 1];
      if k in Created(TransactionId(env, last), last.outputs, height) {
        j := |txs| - 1;
      } else {
        j := CreatedOrigin(env, entries, init, height, k);
      }
    }
  }

  /** An entry of a chain belongs to the coinbase of one of its blocks (-1) or to the `j`th transaction there. */
  ghost predicate Filed(env: Env, path: seq<Block>, k: Outpoint, e: UtxoEntry, i: nat, j: int) {
    && 1 <= i < |path|
    && (j == -1 ==>
      && path[i].coinbase.Some? && |path[i].coinbase.value.outputs| == 1
      && k.txid == CoinbaseId(env, i, path[i].coinbase.value)
      && e == CoinbaseEntry(env, i, path[i].coinbase.value)
      && ValidAddress(env, path[i].coinbase.value.outputs[0].address))
    && (j != -1 ==>
      && 0 <= j < |path[i].transactions|
      && var tx := path[i].transactions[j];
      && k.txid == TransactionId(env, tx) && ShapeOk(env, tx) && 0 <= k.index < |tx.outputs|
      && e == UtxoEntry(k.txid, k.index, tx.outputs[k.index].address, Photons(tx.outputs[k.index].amount), false, i))
  }

  lemma FiledKept(env: Env, init: seq<Block>, last: Block, k: Outpoint, e: UtxoEntry, i: nat, j: int)
    requires Filed(env, init, k, e, i, j)
    ensures Filed(env, init + [last], k, e, i, j)
  {
    hide ShapeOk, ValidAddress, CoinbaseId, TransactionId, Photons;
  }

  lemma FiledNow(env: Env, path: seq<Block>, k: Outpoint, j: int)
    requires LedgerPath(env, path) && |path| > 1
    requires j == -1 ==>
      && path[|path| - 1].coinbase.Some?
      && k == Outpoint(CoinbaseId(env, |path| - 1, path[|path| - 1].coinbase.value), 0)
    requires j != -1 ==>
      var txs := path[|path| - 1].transactions;
      && 0 <= j < |txs| && k.txid == TransactionId(env, txs[j]) && 0 <= k.index < |txs[j].outputs|
    ensures
      var last := path[|path| - 1];
      var e := if j == -1 then CoinbaseEntry(env, |path| - 1, last.coinbase.value) else
        UtxoEntry(k.txid, k.index, last.transactions[j].outputs[k.index].address,
          Photons(last.transactions[j].outputs[k.index].amount), false, |path| - 1);
      Filed(env, path, k, e, |path| - 1, j)
  {
    hide ShapeOk, ValidAddress, CoinbaseId, TransactionId, Photons, Replay, Reward.RewardForBlock, Amount.Parse;
    hide InputsOk, InputSum;
    assert BlockOk(env, Replay(env, path[..|path| - 1]), path[|path| - 1]);
    if j != -1 {
      ShapeInPath(env, path, j);
    }
  }

  lemma {:induction false} EntryOrigin(env: Env, path: seq<Block>, k: Outpoint) returns (i: nat, j: int)
    requires LedgerPath(env, path) && k in Replay(env, path).entries
    ensures Filed(env, path, k, Replay(env, path).entries[k], i, j)
  {
    hide Filed, CoinbaseId, TransactionId, Photons, AfterTransactions, BlockOk;
    var init, last := path[..|path| - 1], path[|path| - 1];
    LastCoinbaseOf(env, path, k);
    var id := CoinbaseId(env, |path| - 1, last.coinbase.value);
    if k == Outpoint(id, 0) {
      i, j := |path| - 1, -1;
      FiledNow(env, path, k, j);
    } else {
      j := CreatedOrigin(env, Replay(env, init).entries, last.transactions, |path| - 1, k);
      if j == -1 {
        i, j := EntryOrigin(env, init, k);
        assert path == init + [last];
        FiledKept(env, init, last, k, Replay(env, init).entries[k], i, j);
      } else {
        i := |path| - 1;
        FiledNow(env, path, k, j);
      }
    }
  }

  lemma NothingAtStart(env: Env, path: seq<Block>)
    requires |path| <= 1
    ensures Replay(env, path).entries == map[]
  {
  }

  /** What the last block of a chain leaves under a key. */
  lemma LastCoinbaseOf(env: Env, path: seq<Block>, k: Outpoint)
    requires LedgerPath(env, path) && k in Replay(env, path).entries
    ensures |path| > 1 && path[|path| - 1].coinbase.Some? && |path[|path| - 1].coinbase.value.outputs| == 1
    ensures
      var before, last := Replay(env, path[..|path| - 1]).entries, path[|path| - 1];
      var e := CoinbaseEntry(env, |path| - 1, last.coinbase.value);
      var mid := AfterTransactions(env, before, last.transactions, |path| - 1);
      && e.txid == CoinbaseId(env, |path| - 1, last.coinbase.value)
      && if k == Outpoint(e.txid, 0) then Replay(env, path).entries[k] == e
         else k in mid && Replay(env, path).entries[k] == mid[k]
  {
    hide AfterTransactions, CoinbaseId, LedgerPath, Photons, Replay, CoinbasePayload, Minted;
    if |path| > 1 {
      LastCoinbase(env, path);
      RewardAdded(env, path);
    } else {
      NothingAtStart(env, path);
    }
  }

  // ---- the same output on two chains ----

  /** What a check of an input reads. */
  ghost predicate Alike(a: UtxoEntry, b: UtxoEntry) {
    && a.address == b.address && a.amountPhotons == b.amountPhotons && a.isCoinbase == b.isCoinbase
    && (a.isCoinbase ==> a.birthHeight == b.birthHeight)
  }

  lemma CoinbaseTextFields(env: Env, h: nat, c: Coinbase, g: nat, d: Coinbase)
    requires CoinbasePayload(h, c) == CoinbasePayload(g, d) && |c.outputs| == 1 && |d.outputs| == 1
    requires ValidAddress(env, c.outputs[0].address) && ValidAddress(env, d.outputs[0].address)
    ensures h == g && c.outputs[0].address == d.outputs[0].address
    ensures Photons(c.outputs[0].amount) == Photons(d.outputs[0].amount)
  {
    hide ValidAddress, Photons, DecimalText, CoinbaseOutputsText;
    HeightText(h, CoinbaseOutputsText(c.outputs), g, CoinbaseOutputsText(d.outputs));
    var front := "EDX-coinbase-v1\0" + IntegerText(h) + "\0";
    assert CoinbaseOutputsText(c.outputs) == CoinbasePayload(h, c)[|front|..];
    assert CoinbaseOutputsText(d.outputs) == CoinbasePayload(h, c)[|front|..];
    OnePart(c.outputs);
    OnePart(d.outputs);
    PartFields(env, c.outputs[0], d.outputs[0]);
  }

  lemma OnePart(outputs: seq<Output>)
    requires |outputs| == 1
    ensures CoinbaseOutputsText(outputs) == CoinbasePart(outputs[0])
  {
    hide CoinbasePart;
    assert CoinbaseParts(outputs) == [CoinbasePart(outputs[0])];
  }

  lemma PartFields(env: Env, a: Output, b: Output)
    requires ValidAddress(env, a.address) && ValidAddress(env, b.address) && CoinbasePart(a) == CoinbasePart(b)
    ensures a.address == b.address && Photons(a.amount) == Photons(b.amount)
  {
    hide ValidAddress, Photons, DecimalText;
    AddressCharacters(env, a.address);
    AddressCharacters(env, b.address);
    var s, t := DecimalText(Photons(a.amount)), DecimalText(Photons(b.amount));
    assert CoinbasePart(a) == "" + a.address + [':'] + s && CoinbasePart(b) == "" + b.address + [':'] + t;
    UntilSeparator("", a.address, s, b.address, t, ':');
    assert s == CoinbasePart(a)[|a.address| + 1..] && t == CoinbasePart(b)[|b.address| + 1..];
    DecimalRoundTrip(Photons(a.amount));
    DecimalRoundTrip(Photons(b.amount));
  }

  /** The texts of a block are among those of its chain. */
  lemma {:induction false} TextsOfBlock(env: Env, path: seq<Block>, i: nat)
    requires LedgerPath(env, path) && 1 <= i < |path|
    ensures BlockPayloads(path[i]) <= Payloads(path) && path[i].header.height == i
  {
    hide BlockPayloads, BlockOk, Replay;
    if i < |path| - 1 {
      TextsOfBlock(env, path[..|path| - 1], i);
    }
  }

  lemma TextOfFiled(env: Env, path: seq<Block>, k: Outpoint, e: UtxoEntry, i: nat, j: int)
    requires LedgerPath(env, path) && Filed(env, path, k, e, i, j)
    ensures j == -1 ==>
      && CoinbasePayload(i, path[i].coinbase.value) in Payloads(path)
      && (env.sha256Hex)(CoinbasePayload(i, path[i].coinbase.value)) == k.txid
    ensures j != -1 ==>
      && IdPayload(path[i].transactions[j]) in Payloads(path)
      && (env.sha256Hex)(IdPayload(path[i].transactions[j])) == k.txid
  {
    hide ShapeOk, ValidAddress, CoinbasePayload, IdPayload, LedgerPath, Payloads, PayloadsOf, Photons;
    TextsOfBlock(env, path, i);
    if j != -1 {
      MemberOf(env, path[i].transactions, j);
    }
  }

  lemma SameCoinbase(
    env: Env, p: seq<Block>, q: seq<Block>, k: Outpoint, a: UtxoEntry, b: UtxoEntry, i: nat, g: nat)
    requires LedgerPath(env, p) && LedgerPath(env, q) && NoCollisionsBetween(env, p, q)
    requires Filed(env, p, k, a, i, -1) && Filed(env, q, k, b, g, -1)
    ensures Alike(a, b)
  {
    hide ValidAddress, CoinbasePayload, LedgerPath, NoCollisionsBetween, Payloads, Photons;
    TextOfFiled(env, p, k, a, i, -1);
    TextOfFiled(env, q, k, b, g, -1);
    SameText(env, p, q, CoinbasePayload(i, p[i].coinbase.value), CoinbasePayload(g, q[g].coinbase.value));
    CoinbaseTextFields(env, i, p[i].coinbase.value, g, q[g].coinbase.value);
  }

  lemma SameTransfer(
    env: Env, p: seq<Block>, q: seq<Block>, k: Outpoint, a: UtxoEntry, b: UtxoEntry, i: nat, j: int, g: nat, h: int)
    requires LedgerPath(env, p) && LedgerPath(env, q) && NoCollisionsBetween(env, p, q)
    requires Filed(env, p, k, a, i, j) && Filed(env, q, k, b, g, h) && j != -1 && h != -1
    ensures Alike(a, b)
  {
    hide ContentOk, IdPayload, LedgerPath, NoCollisionsBetween, Payloads, Photons;
    TextOfFiled(env, p, k, a, i, j);
    TextOfFiled(env, q, k, b, g, h);
    var s, t := p[i].transactions[j], q[g].transactions[h];
    SameText(env, p, q, IdPayload(s), IdPayload(t));
    PayloadDeterminesAllButKey(env, s, t);
  }

  lemma NeverBoth(
    env: Env, p: seq<Block>, q: seq<Block>, k: Outpoint, a: UtxoEntry, b: UtxoEntry, i: nat, g: nat, h: int)
    requires LedgerPath(env, p) && LedgerPath(env, q) && NoCollisionsBetween(env, p, q)
    requires Filed(env, p, k, a, i, -1) && Filed(env, q, k, b, g, h)
    ensures h == -1
  {
    hide ValidAddress, CoinbasePayload, IdPayload, LedgerPath, NoCollisionsBetween, Payloads, Photons;
    if h != -1 {
      TextOfFiled(env, p, k, a, i, -1);
      TextOfFiled(env, q, k, b, g, h);
      var tx := q[g].transactions[h];
      SameText(env, p, q, CoinbasePayload(i, p[i].coinbase.value), IdPayload(tx));
      DomainsApart(env, tx, i, p[i].coinbase.value, i, p[i].coinbase.value);
    }
  }

  lemma BetweenIsSymmetric(env: Env, p: seq<Block>, q: seq<Block>)
    requires NoCollisionsBetween(env, p, q)
    ensures NoCollisionsBetween(env, q, p)
  {
  }

  /** An output that two chains hold unspent is the same on both. */
  lemma SameOutput(env: Env, p: seq<Block>, q: seq<Block>, k: Outpoint)
    requires LedgerPath(env, p) && LedgerPath(env, q) && NoCollisionsBetween(env, p, q)
    requires k in Replay(env, p).entries && k in Replay(env, q).entries
    ensures Alike(Replay(env, p).entries[k], Replay(env, q).entries[k])
  {
    hide Filed, LedgerPath, NoCollisionsBetween, Replay, Alike;
    var a, b := Replay(env, p).entries[k], Replay(env, q).entries[k];
    var i, j := EntryOrigin(env, p, k);
    var g, h := EntryOrigin(env, q, k);
    BetweenIsSymmetric(env, p, q);
    if j == -1 {
      NeverBoth(env, p, q, k, a, b, i, g, h);
      SameCoinbase(env, p, q, k, a, b, i, g);
    } else if h == -1 {
      NeverBoth(env, q, p, k, b, a, g, i, j);
    } else {
      SameTransfer(env, p, q, k, a, b, i, j, g, h);
    }
  }

  // ---- the pool on another chain ----

  /** Unspent, and mature for a block of this height. */
  ghost predicate Redeemable(entries: Entries, height: int, i: Outpoint) {
    i in entries && (entries[i].isCoinbase ==> height >= entries[i].birthHeight + COINBASE_MATURITY)
  }

  /** So is every input of every pending transaction. */
  ghost predicate AllRedeemable(pool: Pool, entries: Entries, height: int) {
    forall k :: 0 <= k < |pool| ==> InputsRedeemable(pool[k].transaction, entries, height)
  }

  ghost predicate InputsRedeemable(tx: Transaction, entries: Entries, height: int) {
    forall j :: 0 <= j < |tx.inputs| ==> Redeemable(entries, height, tx.inputs[j])
  }

  ghost predicate AlikeWhereBoth(a: Entries, b: Entries) {
    forall k :: k in a && k in b ==> Alike(a[k], b[k])
  }

  lemma {:induction false} SameSum(a: Entries, b: Entries, inputs: seq<Outpoint>)
    requires AlikeWhereBoth(a, b) && forall j :: 0 <= j < |inputs| ==> inputs[j] in a && inputs[j] in b
    ensures InputSum(a, inputs) == InputSum(b, inputs)
  {
    if |inputs| > 0 {
      SameSum(a, b, inputs[..|inputs| - 1]);
      assert Alike(a[inputs[|inputs| - 1]], b[inputs[|inputs| - 1]]);
    }
  }

  lemma EntryFitsExactly(env: Env, e: MempoolEntry, a: Entries, height: int, b: Entries, later: int)
    requires EntryFits(env, e, a, height) && AlikeWhereBoth(a, b)
    ensures EntryFits(env, e, b, later) <==> InputsRedeemable(e.transaction, b, later)
  {
    hide ShapeOk, TransactionId;
    var tx := e.transaction;
    forall j | 0 <= j < |tx.inputs| && tx.inputs[j] in b
      ensures InputOk(b, AddressOf(env, tx.pubkey), later, tx.inputs[j]) <==> Redeemable(b, later, tx.inputs[j])
    {
      assert InputOk(a, AddressOf(env, tx.pubkey), height, tx.inputs[j]);
      assert Alike(a[tx.inputs[j]], b[tx.inputs[j]]);
    }
    if InputsRedeemable(tx, b, later) {
      assert forall j :: 0 <= j < |tx.inputs| ==> Redeemable(b, later, tx.inputs[j]);
      SameSum(a, b, tx.inputs);
    }
    if EntryFits(env, e, b, later) {
      forall j | 0 <= j < |tx.inputs| ensures Redeemable(b, later, tx.inputs[j]) {
        assert InputOk(b, AddressOf(env, tx.pubkey), later, tx.inputs[j]);
      }
    }
  }

  /**
   * A pool that is valid at the tip of one chain is valid at the tip of another, longer or on another branch, exactly
   * when every input of every entry is unspent and mature there.
   */
  lemma PoolMovesExactly(
    env: Env, pool: Pool, p: seq<Block>, height: int, q: seq<Block>, later: int)
    requires LedgerPath(env, p) && LedgerPath(env, q) && NoCollisionsBetween(env, p, q)
    requires PoolOk(env, pool, Replay(env, p).entries, height)
    ensures PoolOk(env, pool, Replay(env, q).entries, later) <==> AllRedeemable(pool, Replay(env, q).entries, later)
  {
    hide LedgerPath, NoCollisionsBetween, Replay, EntryFits, InputsRedeemable, Apart, Alike;
    var a, b := Replay(env, p).entries, Replay(env, q).entries;
    forall k | k in a && k in b ensures Alike(a[k], b[k]) {
      SameOutput(env, p, q, k);
    }
    forall k | 0 <= k < |pool|
      ensures EntryFits(env, pool[k], b, later) <==> InputsRedeemable(pool[k].transaction, b, later)
    {
      assert EntryFits(env, pool[k], a, height);
      EntryFitsExactly(env, pool[k], a, height, b, later);
    }
  }
}
