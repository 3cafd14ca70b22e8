/**
 * The mining blob: packages/core/src/encoding.ts and the header part of packages/core/src/block.ts.
 */
module HeaderCodec {
  import opened Prelude
  import opened Positional
  import opened Text
  import opened Types

  const MINING_NONCE_OFFSET := 39
  const SEED_OFFSET := 95
  const SEED_END := 127
  const U32_LIMIT := 0x1_0000_0000
  const U128_LIMIT := 0x1_0000_0000_0000_0000_0000_0000_0000_0000

  // ---- fields ----

  /** A number with `bytes` low bytes shifted out. */
  function Shifted(v: nat, bytes: nat): nat {
    if bytes == 0 then v else Shifted(v / 256, bytes - 1)
  }

  /** Eight bits of a number, as a shift by whole bytes and a mask select them. */
  function ByteAt(v: nat, bytes: nat): byte {
    Shifted(v, bytes) % 256
  }

  function BigEndian(v: nat, width: nat): (b: seq<byte>)
    ensures |b| == width
  {
    seq(width, k requires 0 <= k < width => ByteAt(v, width - 1 - k))
  }

  function LittleEndian(v: nat, width: nat): (b: seq<byte>)
    ensures |b| == width
  {
    seq(width, k requires 0 <= k < width => ByteAt(v, k))
  }

  function FromBigEndian(b: seq<byte>): nat {
    Value(b, 256)
  }

  function FromLittleEndian(b: seq<byte>): nat {
    Value(seq(|b|, k requires 0 <= k < |b| => b[|b| - 1 - k]), 256)
  }

  lemma BigEndianStep(v: nat, width: nat)
    requires width > 0
    ensures BigEndian(v, width) == BigEndian(v / 256, width - 1) + [v % 256]
  {
    var b, c := BigEndian(v, width), BigEndian(v / 256, width - 1);
    forall k | 0 <= k < width - 1 ensures b[k] == c[k] {
      assert b[k] == ByteAt(v, width - 1 - k) && c[k] == ByteAt(v / 256, width - 1 - 1 - k);
      assert Shifted(v, width - 1 - k) == Shifted(v / 256, width - 1 - 1 - k);
    }
    assert b[width - 1] == ByteAt(v, 0);
  }

  lemma {:induction false} BigEndianIsFixed(v: nat, width: nat)
    ensures BigEndian(v, width) == Fixed(v, 256, width)
  {
    if width > 0 {
      BigEndianIsFixed(v / 256, width - 1);
      BigEndianStep(v, width);
    }
  }

  lemma EndianRoundTrip(v: nat, width: nat)
    requires v < Power(256, width)
    ensures FromBigEndian(BigEndian(v, width)) == v
    ensures FromLittleEndian(LittleEndian(v, width)) == v
  {
    BigEndianIsFixed(v, width);
    ValueOfFixed(v, 256, width);
    var little := LittleEndian(v, width);
    assert seq(width, k requires 0 <= k < width => little[width - 1 - k]) == BigEndian(v, width);
  }

  lemma Limits()
    ensures Power(256, 4) == U32_LIMIT && Power(256, 16) == U128_LIMIT
  {
    assert Power(256, 2) == 0x1_0000;
    assert Power(256, 4) == U32_LIMIT;
    assert Power(256, 6) == 0x1_0000_0000_0000;
    assert Power(256, 8) == 0x1_0000_0000_0000_0000;
    assert Power(256, 10) == 0x1_0000_0000_0000_0000_0000;
    assert Power(256, 12) == 0x1_0000_0000_0000_0000_0000_0000;
    assert Power(256, 14) == 0x1_0000_0000_0000_0000_0000_0000_0000;
  }

  function NibbleOf(c: char): (n: nat)
    requires IsLowerHex(c)
    ensures n < 16
  {
    if c <= '9' then c as int - '0' as int else c as int - 'a' as int + 10
  }

  function HexChar(n: nat): (c: char)
    requires n < 16
    ensures IsLowerHex(c) && NibbleOf(c) == n
  {
    if n < 10 then ('0' as int + n) as char else ('a' as int + n - 10) as char
  }

  function HexBytes(s: string): (b: seq<byte>)
    requires Hex(s, 64)
    ensures |b| == 32
  {
    seq(32, k requires 0 <= k < 32 => NibbleOf(s[2 * k]) * 16 + NibbleOf(s[2 * k + 1]))
  }

  function HexOf(b: seq<byte>): (s: string)
    requires |b| == 32
    ensures Hex(s, 64)
  {
    seq(64, k requires 0 <= k < 64 => HexChar(if k % 2 == 0 then b[k / 2] / 16 else b[k / 2] % 16))
  }

  lemma HexRoundTrip(s: string)
    requires Hex(s, 64)
    ensures HexOf(HexBytes(s)) == s
  {
    var b := HexBytes(s);
    forall j | 0 <= j < 32 ensures HexOf(b)[2 * j] == s[2 * j] && HexOf(b)[2 * j + 1] == s[2 * j + 1] {
      assert b[j] == NibbleOf(s[2 * j]) * 16 + NibbleOf(s[2 * j + 1]);
    }
    forall k | 0 <= k < 64 ensures HexOf(b)[k] == s[k] {
      assert k == 2 * (k / 2) || k == 2 * (k / 2) + 1;
    }
  }

  predicate Ascii(s: string) {
    forall k :: 0 <= k < |s| ==> s[k] as int < 128
  }

  function AsciiBytes(s: string): (b: seq<byte>)
    requires Ascii(s)
    ensures |b| == |s|
  {
    seq(|s|, k requires 0 <= k < |s| => s[k] as int)
  }

  function AsciiText(b: seq<byte>): (s: string)
    ensures |s| == |b|
  {
    seq(|b|, k requires 0 <= k < |b| => b[k] as char)
  }

  // ---- the writer ----

  function Flatten(chunks: seq<seq<byte>>): seq<byte> {
    if |chunks| == 0 then [] else Flatten(chunks[..|chunks| - 1]) + chunks[|chunks| - 1]
  }

  class ByteWriter {
    var chunks: seq<seq<byte>>
    var length: nat

    ghost predicate Valid()
      reads this
    {
      length == |Contents()|
    }

    ghost function Contents(): seq<byte>
      reads this
    {
      Flatten(chunks)
    }

    constructor ()
      ensures Valid() && Contents() == []
    {
      chunks, length := [], 0;
    }

    method Push(value: seq<byte>)
      requires Valid()
      modifies this
      ensures Valid() && Contents() == old(Contents()) + value
    {
      assert (chunks + [value])[..|chunks|] == chunks;
      chunks := chunks + [value];
      length := length + |value|;
    }

    method U8(value: int) returns (r: Result<()>)
      requires Valid()
      modifies this
      ensures Valid() && (r.Ok? <==> 0 <= value <= 0xff)
      ensures Contents() == old(Contents()) + if r.Ok? then [value] else []
    {
      if value < 0 || value > 0xff {
        return Err("u8 out of range");
      }
      Push([value]);
      r := Ok(());
    }

    method WriteU32(value: int) returns (r: Result<()>)
      requires Valid()
      modifies this
      ensures Valid() && (r.Ok? <==> 0 <= value < U32_LIMIT)
      ensures Contents() == old(Contents()) + if r.Ok? then BigEndian(value, 4) else []
    {
      if value < 0 || value > 0xffff_ffff {
        return Err("u32 out of range");
      }
      var bytes := new byte[4](_ => 0);
      var shift := 24;
      while shift >= 0
        modifies bytes
        invariant shift in {24, 16, 8, 0, -8}
        invariant forall k :: 0 <= k < (24 - shift) / 8 ==> bytes[k] == ByteAt(value, 3 - k)
      {
        bytes[(24 - shift) / 8] := ByteAt(value, shift / 8);
        shift := shift - 8;
      }
      assert bytes[..] == BigEndian(value, 4);
      Push(bytes[..]);
      r := Ok(());
    }

    method WriteU32Little(value: int) returns (r: Result<()>)
      requires Valid()
      modifies this
      ensures Valid() && (r.Ok? <==> 0 <= value < U32_LIMIT)
      ensures Contents() == old(Contents()) + if r.Ok? then LittleEndian(value, 4) else []
    {
      if value < 0 || value > 0xffff_ffff {
        return Err("u32 out of range");
      }
      var bytes := new byte[4](_ => 0);
      for index := 0 to 4
        modifies bytes
        invariant forall k :: 0 <= k < index ==> bytes[k] == ByteAt(value, k)
      {
        bytes[index] := ByteAt(value, index);
      }
      assert bytes[..] == LittleEndian(value, 4);
      Push(bytes[..]);
      r := Ok(());
    }

    method WriteU128(value: int) returns (r: Result<()>)
      requires Valid()
      modifies this
      ensures Valid() && (r.Ok? <==> 0 <= value < U128_LIMIT)
      ensures Contents() == old(Contents()) + if r.Ok? then BigEndian(value, 16) else []
    {
      if value < 0 || value >= U128_LIMIT {
        return Err("u128 out of range");
      }
      var bytes := new byte[16](_ => 0);
      var remaining: nat := value;
      var index := 15;
      while index >= 0
        modifies bytes
        invariant -1 <= index <= 15
        invariant BigEndian(value, 16) == BigEndian(remaining, index + 1) + bytes[index + 1..]
      {
        BigEndianStep(remaining, index + 1);
        bytes[index] := remaining % 256;
        remaining := remaining / 256;
        index := index - 1;
      }
      assert bytes[..] == BigEndian(value, 16);
      Push(bytes[..]);
      r := Ok(());
    }

    method WriteAscii(value: string) returns (r: Result<()>)
      requires Valid()
      modifies this
      ensures Valid() && (r.Ok? <==> |value| <= 255 && Ascii(value))
      ensures r.Ok? ==> Contents() == old(Contents()) + [|value|] + AsciiBytes(value)
    {
      if |value| > 255 {
        return Err("ASCII field too long");
      }
      if !Ascii(value) {
        return Err("field contains non-ASCII data");
      }
      r := U8(|value|);
      Push(AsciiBytes(value));
    }

    method ToBytes() returns (bytes: seq<byte>)
      requires Valid()
      ensures bytes == Contents()
    {
      var result := new byte[length](_ => 0);
      var offset := 0;
      for i := 0 to |chunks|
        invariant offset == |Flatten(chunks[..i])| <= result.Length
        invariant result[..offset] == Flatten(chunks[..i])
      {
        var chunk := chunks[i];
        assert chunks[..i + 1][..i] == chunks[..i];
        FlattenMonotone(chunks, i + 1);
        forall k | 0 <= k < |chunk| {
          result[offset + k] := chunk[k];
        }
        assert result[..offset + |chunk|] == result[..offset] + chunk;
        offset := offset + |chunk|;
      }
      assert chunks[..|chunks|] == chunks;
      bytes := result[..];
    }
  }

  lemma {:induction false} FlattenMonotone(chunks: seq<seq<byte>>, n: nat)
    requires n <= |chunks|
    ensures |Flatten(chunks[..n])| <= |Flatten(chunks)|
  {
    if n == |chunks| {
      assert chunks[..n] == chunks;
    } else {
      FlattenMonotone(chunks[..|chunks| - 1], n);
      assert chunks[..|chunks| - 1][..n] == chunks[..n];
    }
  }

  // ---- the header ----

  predicate Encodable(h: Header, nonce: int) {
    && h.version == 1
    && 0 <= h.height < U32_LIMIT
    && 0 <= nonce < U32_LIMIT
    && 0 <= h.timestampSeconds < U32_LIMIT
    && 1 <= h.difficulty < U128_LIMIT
    && Hex(h.previousHash, 64) && Hex(h.merkleRoot, 64) && Hex(h.powSeed, 64)
    && |h.payoutAddress| <= 255 && Ascii(h.payoutAddress)
  }

  /** What stands before the nonce. */
  function Front(h: Header): (b: seq<byte>)
    requires 0 <= h.timestampSeconds && Hex(h.previousHash, 64)
    ensures |b| == MINING_NONCE_OFFSET
  {
    [1] + [0xed] + LittleEndian(h.timestampSeconds, 4) + HexBytes(h.previousHash) + [0]
  }

  /** What stands behind the nonce. */
  function Back(h: Header): seq<byte>
    requires Encodable(h, 0)
  {
    BigEndian(h.height, 4) + BigEndian(h.difficulty, 16) + HexBytes(h.merkleRoot) + HexBytes(h.powSeed)
    + [|h.payoutAddress|] + AsciiBytes(h.payoutAddress)
  }

  function Blob(h: Header, nonce: int): seq<byte>
    requires Encodable(h, nonce)
  {
    Front(h) + LittleEndian(nonce, 4) + Back(h)
  }

  /** The blob as the writer's calls append it. */
  lemma BlobPieces(h: Header, nonce: int)
    requires Encodable(h, nonce)
    ensures Blob(h, nonce) ==
      Front(h) + LittleEndian(nonce, 4) + BigEndian(h.height, 4) + BigEndian(h.difficulty, 16)
      + HexBytes(h.merkleRoot) + HexBytes(h.powSeed) + [|h.payoutAddress|] + AsciiBytes(h.payoutAddress)
  {
    hide HexBytes, BigEndian, LittleEndian, AsciiBytes;
    var p := Front(h) + LittleEndian(nonce, 4);
    var a, b := BigEndian(h.height, 4), BigEndian(h.difficulty, 16);
    var c, d := HexBytes(h.merkleRoot), HexBytes(h.powSeed);
    Associate(p, a, b, c);
    Associate(p, a + b + c, d, [|h.payoutAddress|]);
    Associate(p, a + b + c + d + [|h.payoutAddress|], AsciiBytes(h.payoutAddress), []);
  }

  lemma Associate(p: seq<byte>, a: seq<byte>, b: seq<byte>, c: seq<byte>)
    ensures p + (a + b + c) == p + a + b + c
    ensures p + (a + b) == p + a + b
  {
  }

  /** The fields behind the nonce. */
  method AppendBack(writer: ByteWriter, h: Header) returns (r: Result<()>)
    requires writer.Valid() && 1 <= h.difficulty < U128_LIMIT
    modifies writer
    ensures writer.Valid()
    ensures r.Ok? <==>
      && 0 <= h.height < U32_LIMIT && Hex(h.merkleRoot, 64) && Hex(h.powSeed, 64)
      && |h.payoutAddress| <= 255 && Ascii(h.payoutAddress)
    ensures r.Ok? ==>
      writer.Contents()
      == old(writer.Contents()) + BigEndian(h.height, 4) + BigEndian(h.difficulty, 16)
         + HexBytes(h.merkleRoot) + HexBytes(h.powSeed) + [|h.payoutAddress|] + AsciiBytes(h.payoutAddress)
  {
    hide HexBytes, BigEndian, AsciiBytes, Flatten;
    var height := writer.WriteU32(h.height);
    if height.Err? {
      return Err(height.error);
    }
    var _ := writer.WriteU128(h.difficulty);
    if !Hex(h.merkleRoot, 64) {
      return Err("invalid merkle root");
    }
    writer.Push(HexBytes(h.merkleRoot));
    if !Hex(h.powSeed, 64) {
      return Err("invalid PoW seed");
    }
    writer.Push(HexBytes(h.powSeed));
    var payout := writer.WriteAscii(h.payoutAddress);
    if payout.Err? {
      return Err(payout.error);
    }
    r := Ok(());
  }

  method SerializeHeader(h: Header, nonce: int) returns (r: Result<seq<byte>>)
    ensures r.Ok? <==>
      && h.version == 1 && 0 <= h.height < 0x1_0000_0000 && 0 <= h.timestampSeconds < 0x1_0000_0000
      && 0 <= nonce < 0x1_0000_0000 && 1 <= h.difficulty < 0x1_0000_0000_0000_0000_0000_0000_0000_0000
      && Hex(h.previousHash, 64) && Hex(h.merkleRoot, 64) && Hex(h.powSeed, 64)
      && |h.payoutAddress| <= 255 && (forall k :: 0 <= k < |h.payoutAddress| ==> h.payoutAddress[k] as int <= 127)
    ensures r.Ok? <==> Encodable(h, nonce)
    ensures r.Ok? ==> r.value == Blob(h, nonce)
  {
    if h.version != 1 {
      return Err("unsupported header version");
    }
    if h.height < 0 || h.height > MAX_SAFE_INTEGER {
      return Err("invalid block height");
    }
    if nonce < 0 || nonce > 0xffff_ffff {
      return Err("invalid nonce");
    }
    if h.timestampSeconds < 0 || h.timestampSeconds > 0xffff_ffff {
      return Err("invalid block timestamp");
    }
    if h.difficulty < 1 || h.difficulty >= U128_LIMIT {
      return Err("difficulty outside u128");
    }
    hide HexBytes, BigEndian, LittleEndian, AsciiBytes, Flatten;
    var writer := new ByteWriter();
    var _ := writer.U8(1);
    var _ := writer.U8(0xed);
    var _ := writer.WriteU32Little(h.timestampSeconds);
    if !Hex(h.previousHash, 64) {
      return Err("invalid previous hash");
    }
    writer.Push(HexBytes(h.previousHash));
    var _ := writer.U8(0);
    assert writer.Contents() == Front(h);
    var _ := writer.WriteU32Little(nonce);
    assert writer.Contents() == Front(h) + LittleEndian(nonce, 4);
    var back := AppendBack(writer, h);
    if back.Err? {
      return Err(back.error);
    }
    BlobPieces(h, nonce);
    var bytes := writer.ToBytes();
    r := Ok(bytes);
  }

  method WriteNonce(blob: seq<byte>, nonce: int) returns (r: Result<seq<byte>>)
    ensures r.Ok? <==> |blob| >= MINING_NONCE_OFFSET + 4
    ensures r.Ok? ==>
      r.value == blob[..MINING_NONCE_OFFSET] + LittleEndian(nonce % U32_LIMIT, 4) + blob[MINING_NONCE_OFFSET + 4..]
  {
    if |blob| < MINING_NONCE_OFFSET + 4 {
      return Err("offset is outside the bounds of the view");
    }
    var result := new byte[|blob|](k requires 0 <= k < |blob| => blob[k]);
    var field := LittleEndian(nonce % U32_LIMIT, 4);
    for k := 0 to 4
      invariant result[..] == blob[..MINING_NONCE_OFFSET] + field[..k] + blob[MINING_NONCE_OFFSET + k..]
    {
      result[MINING_NONCE_OFFSET + k] := field[k];
    }
    assert field[..4] == field;
    r := Ok(result[..]);
  }

  function ReadNonce(blob: seq<byte>): Result<nat> {
    if |blob| <= MINING_NONCE_OFFSET + 3 then Err("mining blob too short")
    else Ok(FromLittleEndian(blob[MINING_NONCE_OFFSET..MINING_NONCE_OFFSET + 4]))
  }

  lemma Middle(a: seq<byte>, b: seq<byte>, c: seq<byte>)
    ensures (a + b + c)[|a|..|a| + |b|] == b
    ensures (a + b + c)[..|a|] == a && (a + b + c)[|a| + |b|..] == c
  {
  }

  /** The nonce sits at its offset, reads back, and rewriting it yields the blob of the new nonce. */
  lemma NonceField(h: Header, nonce: int, other: int)
    requires Encodable(h, nonce) && 0 <= other < U32_LIMIT
    ensures ReadNonce(Blob(h, nonce)) == Ok(nonce)
    ensures
      var b := Blob(h, nonce);
      b[..MINING_NONCE_OFFSET] + LittleEndian(other, 4) + b[MINING_NONCE_OFFSET + 4..] == Blob(h, other)
  {
    Middle(Front(h), LittleEndian(nonce, 4), Back(h));
    Limits();
    EndianRoundTrip(nonce, 4);
  }

  // ---- decoding ----

  datatype Decoded = Decoded(header: Header, nonce: nat)

  function DecodeHeader(b: seq<byte>): Decoded
    requires |b| >= 128
  {
    Decoded(
      Header(1, FromBigEndian(b[43..47]), HexOf(b[6..38]), FromLittleEndian(b[2..6]), FromBigEndian(b[47..63]),
             HexOf(b[63..95]), HexOf(b[SEED_OFFSET..SEED_END]), AsciiText(b[128..])),
      FromLittleEndian(b[39..43]))
  }

  /** Where every field of the back part lies in the blob. */
  lemma BackLayout(h: Header, nonce: int)
    requires Encodable(h, nonce)
    ensures
      var b := Blob(h, nonce);
      && |b| == 128 + |h.payoutAddress|
      && b[43..47] == BigEndian(h.height, 4) && b[47..63] == BigEndian(h.difficulty, 16)
      && b[63..95] == HexBytes(h.merkleRoot) && b[SEED_OFFSET..SEED_END] == HexBytes(h.powSeed)
      && b[127] == |h.payoutAddress| && b[128..] == AsciiBytes(h.payoutAddress)
  {
    hide HexBytes, BigEndian, LittleEndian, AsciiBytes, Front;
    var front := Front(h) + LittleEndian(nonce, 4);
    var height, difficulty := BigEndian(h.height, 4), BigEndian(h.difficulty, 16);
    var merkle, seed := HexBytes(h.merkleRoot), HexBytes(h.powSeed);
    var payout := [|h.payoutAddress|] + AsciiBytes(h.payoutAddress);
    var b := Blob(h, nonce);
    BlobPieces(h, nonce);
    Tails(front, height, difficulty, merkle, seed, [|h.payoutAddress|], AsciiBytes(h.payoutAddress));
    Middle(front, height, difficulty + merkle + seed + payout);
    Middle(front + height, difficulty, merkle + seed + payout);
    Middle(front + height + difficulty, merkle, seed + payout);
    Middle(front + height + difficulty + merkle, seed, payout);
    assert b[127..] == payout;
    assert b[128..] == payout[1..];
  }

  lemma Tails(p: seq<byte>, a: seq<byte>, b: seq<byte>, c: seq<byte>, d: seq<byte>, e: seq<byte>, f: seq<byte>)
    ensures
      var all := p + a + b + c + d + e + f;
      && all == p + a + (b + c + d + (e + f)) && all == p + a + b + (c + d + (e + f))
      && all == p + a + b + c + (d + (e + f)) && all == p + a + b + c + d + (e + f)
  {
    Associate(p + a + b + c + d, e, f, []);
    Associate(p + a + b + c, d, e + f, []);
    Associate(p + a + b, c, d, e + f);
    Associate(p + a, b, c, d);
    Associate(p + a, b + c + d, e + f, []);
  }

  lemma FrontLayout(h: Header, nonce: int)
    requires Encodable(h, nonce)
    ensures
      var b := Blob(h, nonce);
      && |b| >= 128 && b[2..6] == LittleEndian(h.timestampSeconds, 4) && b[6..38] == HexBytes(h.previousHash)
      && b[39..43] == LittleEndian(nonce, 4)
  {
    var b := Blob(h, nonce);
    hide HexBytes, BigEndian, LittleEndian, Back;
    BackLayout(h, nonce);
    Middle(Front(h), LittleEndian(nonce, 4), Back(h));
    var time, previous := LittleEndian(h.timestampSeconds, 4), HexBytes(h.previousHash);
    Associate([1] + [0xed] + time, previous, [0], []);
    Middle([1] + [0xed], time, previous + [0]);
    Middle([1] + [0xed] + time, previous, [0]);
    assert b[2..6] == Front(h)[2..6] && b[6..38] == Front(h)[6..38];
  }

  /** The blob determines the header and the nonce. */
  lemma DecodeOfBlob(h: Header, nonce: int)
    requires Encodable(h, nonce)
    ensures |Blob(h, nonce)| >= 128 && DecodeHeader(Blob(h, nonce)) == Decoded(h, nonce)
  {
    hide Blob, HexOf, HexBytes, BigEndian, LittleEndian, FromBigEndian, FromLittleEndian, Power;
    FrontLayout(h, nonce);
    BackLayout(h, nonce);
    Limits();
    EndianRoundTrip(nonce, 4);
    EndianRoundTrip(h.height, 4);
    EndianRoundTrip(h.timestampSeconds, 4);
    EndianRoundTrip(h.difficulty, 16);
    HexRoundTrip(h.previousHash);
    HexRoundTrip(h.merkleRoot);
    HexRoundTrip(h.powSeed);
    assert AsciiText(AsciiBytes(h.payoutAddress)) == h.payoutAddress;
  }

  /** The fixed bytes of the blob, and which end of its numbers comes first. */
  lemma BlobBytes(h: Header, nonce: int)
    requires Encodable(h, nonce)
    ensures
      var b := Blob(h, nonce);
      && |b| == 128 + |h.payoutAddress|
      && b[0] == 1 && b[1] == 0xed && b[38] == 0 && b[127] == |h.payoutAddress|
      && b[2] == h.timestampSeconds % 256 && b[39] == nonce % 256
      && b[46] == h.height % 256 && b[62] == h.difficulty % 256
      && forall k :: 0 <= k < |h.payoutAddress| ==> b[128 + k] == h.payoutAddress[k] as int
  {
    hide HexBytes, AsciiBytes;
    BackLayout(h, nonce);
    FrontLayout(h, nonce);
    var b := Blob(h, nonce);
    assert b[..39] == Front(h);
    assert b[2] == b[2..6][0] == ByteAt(h.timestampSeconds, 0);
    assert b[39] == b[39..43][0] == ByteAt(nonce, 0);
    assert b[46] == b[43..47][3] == ByteAt(h.height, 0);
    assert b[62] == b[47..63][15] == ByteAt(h.difficulty, 0);
    AddressBytes(h.payoutAddress);
    forall k | 0 <= k < |h.payoutAddress| ensures b[128 + k] == h.payoutAddress[k] as int {
      assert b[128 + k] == b[128..][k];
    }
  }

  lemma AddressBytes(s: string)
    requires Ascii(s)
    ensures |AsciiBytes(s)| == |s| && forall k :: 0 <= k < |s| ==> AsciiBytes(s)[k] == s[k] as int
  {
  }

  /** The slice that the proof-of-work verifier keys its machine with is the header's seed. */
  lemma SeedSlice(h: Header, nonce: int)
    requires Encodable(h, nonce)
    ensures |Blob(h, nonce)| >= SEED_END && HexOf(Blob(h, nonce)[SEED_OFFSET..SEED_END]) == h.powSeed
  {
    BackLayout(h, nonce);
    HexRoundTrip(h.powSeed);
  }
}
