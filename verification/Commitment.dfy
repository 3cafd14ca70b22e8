/** What the header of an accepted block commits to. */
module Commitment {
  import opened Base58
  import opened Types
  import opened SigningText
  import opened HeaderCodec
  import opened State
  import opened Merkle
  import opened Paths

  /** Two arguments with the same digest are the same. */
  ghost predicate Apart<T(!new), D>(digest: T -> D, x: T, y: T) {
    digest(x) == digest(y) ==> x == y
  }

  /** None of the texts that two bodies hash collides with one of the other body. */
  ghost predicate BodiesApart(env: Env, a: Block, b: Block) {
    var ids, jds := TransactionIds(env, a.transactions), TransactionIds(env, b.transactions);
    && Apart(env.sha256, MerklePayload(env, a.header.height, a.coinbase, ids),
         MerklePayload(env, b.header.height, b.coinbase, jds))
    && forall j, k :: 0 <= j < |ids| && 0 <= k < |jds| ==>
      && Apart(env.sha256, LeafPayload(ids[j]), LeafPayload(jds[k]))
      && Apart(env.sha256Hex, IdPayload(a.transactions[j]), IdPayload(b.transactions[k]))
  }

  lemma HexOfInjective(x: Digest, y: Digest)
    requires HexOf(x) == HexOf(y)
    ensures x == y
  {
    forall k | 0 <= k < 32 ensures x[k] == y[k] {
      assert HexOf(x)[2 * k] == HexChar(x[k] / 16) && HexOf(y)[2 * k] == HexChar(y[k] / 16);
      assert HexOf(x)[2 * k + 1] == HexChar(x[k] % 16) && HexOf(y)[2 * k + 1] == HexChar(y[k] % 16);
    }
  }

  lemma {:induction false} FewTransactions(txs: seq<Transaction>)
    ensures TransactionsLength(txs) >= 4 + 142 * |txs|
  {
    if |txs| > 0 {
      FewTransactions(txs[..|txs| - 1]);
    }
  }

  lemma SameLeaves(env: Env, a: Block, b: Block)
    requires BodyOk(env, a) && BodyOk(env, b) && a.header == b.header && a.header.height >= 0
    requires TransactionsLength(a.transactions) <= MAX_BLOCK_BODY_BYTES
    requires TransactionsLength(b.transactions) <= MAX_BLOCK_BODY_BYTES
    requires BodiesApart(env, a, b)
    ensures
      Leaves(env, a.header.height, a.coinbase, TransactionIds(env, a.transactions))
      == Leaves(env, b.header.height, b.coinbase, TransactionIds(env, b.transactions))
  {
    hide ShapeOk, TransactionId, MerklePayload, Leaves;
    FewTransactions(a.transactions);
    FewTransactions(b.transactions);
    var ids, jds := TransactionIds(env, a.transactions), TransactionIds(env, b.transactions);
    var p, q := MerklePayload(env, a.header.height, a.coinbase, ids),
      MerklePayload(env, b.header.height, b.coinbase, jds);
    HexOfInjective(env.sha256(p), env.sha256(q));
    PayloadDeterminesLeaves(env, a.header.height, a.coinbase, ids, b.header.height, b.coinbase, jds);
  }

  /**
   * The header commits to the body: two mined blocks with one header have the same coinbase identifier and the
   * same transactions up to their public keys, which the identifiers leave out.
   */
  lemma HeaderCommitsToBody(env: Env, a: Block, b: Block)
    requires BodyOk(env, a) && BodyOk(env, b) && a.header == b.header && a.header.height >= 0
    requires TransactionsLength(a.transactions) <= MAX_BLOCK_BODY_BYTES
    requires TransactionsLength(b.transactions) <= MAX_BLOCK_BODY_BYTES
    requires a.coinbase.Some? && b.coinbase.Some? && BodiesApart(env, a, b)
    ensures CoinbaseId(env, a.header.height, a.coinbase.value) == CoinbaseId(env, b.header.height, b.coinbase.value)
    ensures |a.transactions| == |b.transactions|
    ensures forall k :: 0 <= k < |a.transactions| ==>
      a.transactions[k] == b.transactions[k].(pubkey := a.transactions[k].pubkey)
  {
    hide ShapeOk, TransactionId, MerklePayload, CoinbaseId, BodiesApart, HexBytes, IdPayload, MerkleRoot;
    var height := a.header.height;
    var ids, jds := TransactionIds(env, a.transactions), TransactionIds(env, b.transactions);
    SameLeaves(env, a, b);
    var leaves := Leaves(env, height, a.coinbase, ids);
    var c, d := CoinbaseId(env, height, a.coinbase.value), CoinbaseId(env, height, b.coinbase.value);
    assert leaves[0] == HexBytes(c) && leaves[0] == HexBytes(d);
    HexRoundTrip(c);
    HexRoundTrip(d);
    forall k | 0 <= k < |a.transactions|
      ensures a.transactions[k] == b.transactions[k].(pubkey := a.transactions[k].pubkey)
    {
      assert leaves[k + 1] == TransactionLeaf(env, ids[k]) && leaves[k + 1] == TransactionLeaf(env, jds[k]);
      SameTransaction(env, a, b, k);
    }
  }

  lemma SameTransaction(env: Env, a: Block, b: Block, k: nat)
    requires BodyOk(env, a) && BodyOk(env, b) && BodiesApart(env, a, b) && k < |a.transactions| && k < |b.transactions|
    requires TransactionLeaf(env, TransactionId(env, a.transactions[k]))
      == TransactionLeaf(env, TransactionId(env, b.transactions[k]))
    ensures a.transactions[k] == b.transactions[k].(pubkey := a.transactions[k].pubkey)
  {
    hide ContentOk, IdPayload, MerklePayload, MerkleRoot, HexBytes, Leaves;
    var s, t := a.transactions[k], b.transactions[k];
    var x, y := TransactionId(env, s), TransactionId(env, t);
    assert TransactionIds(env, a.transactions)[k] == x && TransactionIds(env, b.transactions)[k] == y;
    assert Apart(env.sha256, LeafPayload(x), LeafPayload(y));
    LeafInjective(x, y);
    PayloadDeterminesAllButKey(env, s, t);
  }

  lemma LeafInjective(x: HashText, y: HashText)
    ensures LeafPayload(x) == LeafPayload(y) ==> x == y
  {
    if LeafPayload(x) == LeafPayload(y) {
      var p := AsciiBytes("EDX-tx-v1\0");
      assert LeafPayload(x)[|p|..] == HexBytes(x) && LeafPayload(y)[|p|..] == HexBytes(y);
      HexRoundTrip(x);
      HexRoundTrip(y);
    }
  }
}
