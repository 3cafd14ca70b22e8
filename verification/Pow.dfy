/** The target check of a proof of work: packages/core/src/pow.ts (hashMeetsTarget). */
module Pow {
  import opened Prelude
  import opened Text
  import opened Positional
  import opened HeaderCodec
  import opened Difficulty

  /** The number a hash stands for: its bytes, lowest first. */
  function HashValue(hashHex: string): nat
    requires Hex(hashHex, 64)
  {
    FromLittleEndian(HexBytes(hashHex))
  }

  function MeetsTarget(hashHex: string, difficulty: int): Result<bool> {
    if !Hex(hashHex, 64) then Ok(false)
    else
      match TargetForDifficulty(difficulty)
      case Err(e) => Err(e)
      case Ok(target) => Ok(HashValue(hashHex) <= target)
  }

  /** The bytes from `index` on as a number, lowest first. */
  ghost function HighPart(b: seq<byte>, index: nat): nat
    requires index <= |b|
    decreases |b| - index
  {
    if index == |b| then 0 else HighPart(b, index + 1) * 256 + b[index]
  }

  lemma {:induction false} HighPartIsValue(b: seq<byte>, index: nat)
    requires index <= |b|
    ensures HighPart(b, index) == FromLittleEndian(b[index..])
    decreases |b| - index
  {
    if index < |b| {
      HighPartIsValue(b, index + 1);
      var whole, rest := b[index..], b[index + 1..];
      var r := seq(|whole|, k requires 0 <= k < |whole| => whole[|whole| - 1 - k]);
      var q := seq(|rest|, k requires 0 <= k < |rest| => rest[|rest| - 1 - k]);
      assert r == q + [b[index]];
      assert r[..|r| - 1] == q;
    }
  }

  method HashMeetsTarget(hashHex: string, difficulty: int) returns (r: Result<bool>)
    ensures r == MeetsTarget(hashHex, difficulty)
  {
    hide TargetForDifficulty, NibbleOf;
    if !Hex(hashHex, 64) {
      return Ok(false);
    }
    var bytes := new byte[32];
    for index := 0 to 32
      invariant bytes[..index] == HexBytes(hashHex)[..index]
    {
      bytes[index] := NibbleOf(hashHex[2 * index]) * 16 + NibbleOf(hashHex[2 * index + 1]);
    }
    ghost var all := HexBytes(hashHex);
    assert bytes[..32] == all[..32] == all;
    var value: nat := 0;
    for index := 32 downto 0
      invariant value == HighPart(all, index) && bytes[..32] == all
    {
      assert bytes[index] == bytes[..32][index];
      value := value * 256 + bytes[index];
    }
    HighPartIsValue(all, 0);
    assert all[0..] == all;
    var target := TargetForDifficulty(difficulty);
    if target.Err? {
      return Err(target.error);
    }
    r := Ok(value <= target.value);
  }

  /** A hash meets a difficulty exactly if its product with the difficulty stays below 2^256. */
  lemma MeetsMeans(hashHex: string, difficulty: int)
    requires difficulty >= 1 && Hex(hashHex, 64)
    ensures MeetsTarget(hashHex, difficulty) == Ok(HashValue(hashHex) * difficulty <= MAX_TARGET)
  {
    hide HashValue;
    TargetIsQuotient(difficulty);
    var value, target := HashValue(hashHex), TargetForDifficulty(difficulty).value;
    if value <= target {
      MulMonotone(value, target, difficulty);
    } else {
      MulMonotone(target + 1, value, difficulty);
    }
  }

  /** The two digits that come first are the lowest byte. */
  lemma LowByteFirst(hashHex: string)
    requires Hex(hashHex, 64)
    ensures HashValue(hashHex) % 256 == NibbleOf(hashHex[0]) * 16 + NibbleOf(hashHex[1])
  {
    hide NibbleOf;
    var b := HexBytes(hashHex);
    HighPartIsValue(b, 0);
    assert b[0..] == b;
    assert HighPart(b, 0) == HighPart(b, 1) * 256 + b[0];
  }

  /** A hash that meets a target meets every easier one, and at difficulty one every hash does. */
  lemma EasierTargets(hashHex: string, low: int, high: int)
    requires 1 <= low <= high && Hex(hashHex, 64)
    ensures MeetsTarget(hashHex, high) == Ok(true) ==> MeetsTarget(hashHex, low) == Ok(true)
    ensures MeetsTarget(hashHex, 1) == Ok(true)
  {
    WorkFalls(low, high);
    BelowPower(HexBytes(hashHex));
    AllOnes();
  }

  lemma BelowPower(b: seq<byte>)
    ensures FromLittleEndian(b) < Power(256, |b|)
  {
    var d: seq<nat> := seq(|b|, k requires 0 <= k < |b| => b[|b| - 1 - k]);
    ValueBound(d, 256);
  }

  lemma AllOnes()
    ensures Power(256, 32) == MAX_TARGET + 1
  {
    Limits();
    assert Power(256, 18) == 0x1_0000 * U128_LIMIT;
    assert Power(256, 20) == 0x1_0000_0000 * U128_LIMIT;
    assert Power(256, 22) == 0x1_0000_0000_0000 * U128_LIMIT;
    assert Power(256, 24) == 0x1_0000_0000_0000_0000 * U128_LIMIT;
    assert Power(256, 26) == 0x1_0000_0000_0000_0000_0000 * U128_LIMIT;
    assert Power(256, 28) == 0x1_0000_0000_0000_0000_0000_0000 * U128_LIMIT;
    assert Power(256, 30) == 0x1_0000_0000_0000_0000_0000_0000_0000 * U128_LIMIT;
  }
}
