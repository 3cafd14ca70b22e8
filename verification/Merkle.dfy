/** The commitment to a block body in its header: packages/core/src/block.ts (calculateMerkleRoot, transactionLeaf). */
module Merkle {
  import opened Prelude
  import opened Text
  import opened Types
  import opened SigningText
  import opened HeaderCodec
  import opened State
  import Amount

  const LEAF_BYTES := 32

  /** Far more leaves than any block body has room for. */
  const LEAF_LIMIT := 0x100_0000

  function TransactionLeaf(env: Env, txid: HashText): (leaf: seq<byte>)
    ensures |leaf| == LEAF_BYTES
  {
    env.sha256(LeafPayload(txid))
  }

  function LeafPayload(txid: HashText): seq<byte> {
    AsciiBytes("EDX-tx-v1\0") + HexBytes(txid)
  }

  function Leaves(env: Env, height: int, coinbase: Option<Coinbase>, txids: seq<HashText>): (leaves: seq<seq<byte>>)
    ensures |leaves| == |txids| + if coinbase.Some? then 1 else 0
    ensures forall k :: 0 <= k < |leaves| ==> |leaves[k]| == LEAF_BYTES
  {
    (if coinbase.Some? then [HexBytes(CoinbaseId(env, height, coinbase.value))] else [])
    + seq(|txids|, k requires 0 <= k < |txids| => TransactionLeaf(env, txids[k]))
  }

  lemma HeightIsAscii(height: int)
    ensures Ascii("EDX-merkle-v1\0" + IntegerText(height))
  {
    hide DecimalText;
  }

  /** Domain, height, number of leaves and leaves, one after the other. */
  function MerklePayload(env: Env, height: int, coinbase: Option<Coinbase>, txids: seq<HashText>): seq<byte> {
    var leaves := Leaves(env, height, coinbase, txids);
    HeightIsAscii(height);
    AsciiBytes("EDX-merkle-v1\0" + IntegerText(height)) + BigEndian(|leaves|, 4) + HeaderCodec.Flatten(leaves)
  }

  function MerkleRoot(env: Env, height: int, coinbase: Option<Coinbase>, txids: seq<HashText>): HashText {
    HexOf(env.sha256(MerklePayload(env, height, coinbase, txids)))
  }

  lemma PartOf(output: Output)
    requires Amount.Parse(output.amount).Some?
    ensures CoinbasePart(output) == output.address + ":" + DecimalText(Amount.Parse(output.amount).value)
  {
    hide Amount.Parse, DecimalText;
  }

  /** The identifier of a coinbase has the parsed amounts in its text, so one that does not parse has none. */
  method CoinbaseIdOf(env: Env, height: int, coinbase: Coinbase) returns (r: Result<HashText>)
    ensures r.Ok? <==> AmountsParse(coinbase.outputs)
    ensures r.Ok? ==> r.value == CoinbaseId(env, height, coinbase)
  {
    hide Amount.Parse, DecimalText, CoinbasePart, Join, IntegerText;
    var outputs := coinbase.outputs;
    var parts: seq<string> := [];
    for k := 0 to |outputs|
      invariant AmountsParse(outputs[..k])
      invariant parts == CoinbaseParts(outputs[..k])
    {
      var photons := Amount.Parse(outputs[k].amount);
      if photons.None? {
        return Err("invalid amount");
      }
      PartOf(outputs[k]);
      parts := parts + [outputs[k].address + ":" + DecimalText(photons.value)];
    }
    assert outputs[..|outputs|] == outputs;
    r := Ok((env.sha256Hex)("EDX-coinbase-v1\0" + IntegerText(height) + "\0" + Join(parts, '|')));
  }

  predicate RewardReadable(coinbase: Option<Coinbase>) {
    coinbase.Some? ==> AmountsParse(coinbase.value.outputs)
  }

  method CalculateMerkleRoot(env: Env, height: int, coinbase: Option<Coinbase>, txids: seq<HashText>)
    returns (root: Result<HashText>)
    ensures root.Ok? <==> RewardReadable(coinbase)
    ensures root.Ok? ==> root.value == MerkleRoot(env, height, coinbase, txids)
  {
    hide CoinbaseId, HexBytes, TransactionLeaf, AmountsParse, BigEndian, HexOf, HeaderCodec.Flatten, AsciiBytes;
    hide IntegerText;
    var leaves: seq<seq<byte>> := [];
    if coinbase.Some? {
      var id := CoinbaseIdOf(env, height, coinbase.value);
      if id.Err? {
        return id;
      }
      leaves := [HexBytes(id.value)];
    }
    ghost var first := leaves;
    for k := 0 to |txids|
      invariant leaves == first + seq(k, j requires 0 <= j < k => TransactionLeaf(env, txids[j]))
    {
      leaves := leaves + [TransactionLeaf(env, txids[k])];
    }
    assert leaves == Leaves(env, height, coinbase, txids);
    HeightIsAscii(height);
    var domain := AsciiBytes("EDX-merkle-v1\0" + IntegerText(height));
    var payload := domain + BigEndian(|leaves|, 4) + HeaderCodec.Flatten(leaves);
    root := Ok(HexOf(env.sha256(payload)));
  }

  // ---- the hashed texts, spelled out ----

  lemma RewardText(env: Env, height: int, reward: Output)
    ensures
      CoinbaseId(env, height, Coinbase([reward]))
      == (env.sha256Hex)("EDX-coinbase-v1\0" + IntegerText(height) + "\0"
           + (reward.address + ":" + DecimalText(Photons(reward.amount))))
  {
    hide IntegerText, DecimalText, Photons, Join;
    assert CoinbaseParts([reward]) == [CoinbasePart(reward)];
    JoinOne(CoinbasePart(reward), '|');
  }

  lemma TwoLeaves(env: Env, height: int, coinbase: Coinbase, txid: HashText)
    ensures Leaves(env, height, Some(coinbase), [txid])
      == [HexBytes(CoinbaseId(env, height, coinbase)), env.sha256(AsciiBytes("EDX-tx-v1\0") + HexBytes(txid))]
  {
    hide CoinbaseId, HexBytes, AsciiBytes;
  }

  /** The root of a block with a reward and one transfer: domain, height, the count of leaves, both leaves. */
  lemma RootOfTwo(env: Env, height: nat, coinbase: Coinbase, txid: HashText)
    ensures Ascii("EDX-merkle-v1\0" + IntegerText(height))
    ensures
      var leaves := HexBytes(CoinbaseId(env, height, coinbase)) + TransactionLeaf(env, txid);
      MerkleRoot(env, height, Some(coinbase), [txid])
      == HexOf(env.sha256(AsciiBytes("EDX-merkle-v1\0" + IntegerText(height)) + [0, 0, 0, 2] + leaves))
  {
    hide IntegerText, HexBytes, AsciiBytes, HexOf, CoinbaseId, Leaves, BigEndian;
    HeightIsAscii(height);
    TwoLeaves(env, height, coinbase, txid);
    var leaves := Leaves(env, height, Some(coinbase), [txid]);
    FlattenTwo(leaves[0], leaves[1]);
    TwoInFourBytes();
  }

  lemma FlattenTwo(a: seq<byte>, b: seq<byte>)
    ensures HeaderCodec.Flatten([a, b]) == a + b
  {
    assert [a, b][..1] == [a] && [a][..0] == [];
    assert HeaderCodec.Flatten([a]) == [] + a;
  }

  lemma TwoInFourBytes()
    ensures BigEndian(2, 4) == [0, 0, 0, 2]
  {
    assert ByteAt(2, 0) == 2 && ByteAt(2, 1) == 0 && ByteAt(2, 2) == 0 && ByteAt(2, 3) == 0;
  }

  // ---- what the root commits to ----

  lemma NoZeroInHeight(height: nat)
    ensures Ascii(IntegerText(height)) && 0 !in AsciiBytes(IntegerText(height))
    ensures AsciiBytes("EDX-merkle-v1\0" + IntegerText(height))
      == AsciiBytes("EDX-merkle-v1\0") + AsciiBytes(IntegerText(height))
  {
    HeightIsAscii(height);
    var text := IntegerText(height);
    forall k | 0 <= k < |text| ensures IsDigit(text[k]) {
      DecimalRoundTrip(height);
    }
  }

  lemma AsciiInjective(s: string, t: string)
    requires Ascii(s) && Ascii(t) && AsciiBytes(s) == AsciiBytes(t)
    ensures s == t
  {
    assert forall k :: 0 <= k < |s| ==> AsciiBytes(s)[k] == s[k] as int && AsciiBytes(t)[k] == t[k] as int;
  }

  lemma CountBytes(n: nat)
    requires n < LEAF_LIMIT
    ensures BigEndian(n, 4) == [0] + BigEndian(n, 4)[1..]
  {
    var a, b := n / 256, n / 256 / 256;
    assert b / 256 == 0;
    assert Shifted(n, 3) == Shifted(a, 2) == Shifted(b, 1) == Shifted(b / 256, 0);
    assert BigEndian(n, 4)[0] == ByteAt(n, 3);
  }

  lemma {:induction false} FlattenLength(leaves: seq<seq<byte>>)
    requires forall k :: 0 <= k < |leaves| ==> |leaves[k]| == LEAF_BYTES
    ensures |HeaderCodec.Flatten(leaves)| == LEAF_BYTES * |leaves|
  {
    if |leaves| > 0 {
      FlattenLength(leaves[..|leaves| - 1]);
    }
  }

  /** Leaves of equal width are determined by their concatenation. */
  lemma {:induction false} FlattenInjective(a: seq<seq<byte>>, b: seq<seq<byte>>)
    requires forall k :: 0 <= k < |a| ==> |a[k]| == LEAF_BYTES
    requires forall k :: 0 <= k < |b| ==> |b[k]| == LEAF_BYTES
    requires HeaderCodec.Flatten(a) == HeaderCodec.Flatten(b)
    ensures a == b
  {
    FlattenLength(a);
    FlattenLength(b);
    if |a| > 0 {
      var n := |a| - 1;
      FlattenLength(a[..n]);
      FlattenLength(b[..n]);
      var whole := HeaderCodec.Flatten(a);
      assert whole[..LEAF_BYTES * n] == HeaderCodec.Flatten(a[..n])
        && whole[..LEAF_BYTES * n] == HeaderCodec.Flatten(b[..n]);
      assert whole[LEAF_BYTES * n..] == a[n] && whole[LEAF_BYTES * n..] == b[n];
      FlattenInjective(a[..n], b[..n]);
      assert a == a[..n] + [a[n]] && b == b[..n] + [b[n]];
    }
  }

  /** The hashed text determines the height and every leaf. */
  lemma PayloadDeterminesLeaves(
    env: Env, g: nat, c: Option<Coinbase>, ids: seq<HashText>, h: nat, d: Option<Coinbase>, jds: seq<HashText>)
    requires |Leaves(env, g, c, ids)| < LEAF_LIMIT && |Leaves(env, h, d, jds)| < LEAF_LIMIT
    requires MerklePayload(env, g, c, ids) == MerklePayload(env, h, d, jds)
    ensures g == h && Leaves(env, g, c, ids) == Leaves(env, h, d, jds)
  {
    hide Leaves, IntegerText, HeaderCodec.Flatten, BigEndian;
    var a, b := Leaves(env, g, c, ids), Leaves(env, h, d, jds);
    var p := AsciiBytes("EDX-merkle-v1\0");
    NoZeroInHeight(g);
    NoZeroInHeight(h);
    CountBytes(|a|);
    CountBytes(|b|);
    var s := BigEndian(|a|, 4)[1..] + HeaderCodec.Flatten(a);
    var t := BigEndian(|b|, 4)[1..] + HeaderCodec.Flatten(b);
    var x, y := AsciiBytes(IntegerText(g)), AsciiBytes(IntegerText(h));
    assert MerklePayload(env, g, c, ids) == p + x + [0] + s;
    assert MerklePayload(env, h, d, jds) == p + y + [0] + t;
    UntilSeparator<byte>(p, x, s, y, t, 0);
    AsciiInjective(IntegerText(g), IntegerText(h));
    SameHeight(g, h);
    assert s == (p + x + [0] + s)[|p + x| + 1..] && t == (p + y + [0] + t)[|p + y| + 1..];
    assert HeaderCodec.Flatten(a) == s[3..] && HeaderCodec.Flatten(b) == t[3..];
    FlattenInjective(a, b);
  }

  lemma SameHeight(g: nat, h: nat)
    requires IntegerText(g) == IntegerText(h)
    ensures g == h
  {
    DecimalRoundTrip(g);
    DecimalRoundTrip(h);
  }
}
