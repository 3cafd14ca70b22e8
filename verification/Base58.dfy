/** Base58 and Base58Check text for addresses: packages/shared/src/crypto/base58.ts. */
module Base58 {
  import opened Prelude
  import opened Positional

  /** A 32-byte digest. */
  type Digest = d: seq<byte> | |d| == 32 witness seq(32, _ => 0)

  const ALPHABET := "123456789" + "ABCDEFGH" + "JKLMN" + "PQRSTUVWXYZ" + "abcdefghijk" + "mnopqrstuvwxyz"

  predicate InAlphabet(c: char) {
    || '1' <= c <= '9'
    || ('A' <= c <= 'Z' && c != 'I' && c != 'O')
    || ('a' <= c <= 'z' && c != 'l')
  }

  /** Position of a character in the alphabet, or -1. */
  function IndexOf(c: char): (k: int)
    ensures -1 <= k < 58 && (k == -1 <==> !InAlphabet(c))
  {
    var code := c as int;
    if '1' <= c <= '9' then code - 49
    else if 'A' <= c <= 'H' then code - 56
    else if 'J' <= c <= 'N' then code - 57
    else if 'P' <= c <= 'Z' then code - 58
    else if 'a' <= c <= 'k' then code - 64
    else if 'm' <= c <= 'z' then code - 65
    else -1
  }

  function CharAt(k: nat): (c: char)
    requires k < 58
    ensures IndexOf(c) == k
  {
    if k < 9 then (k + 49) as char
    else if k < 17 then (k + 56) as char
    else if k < 22 then (k + 57) as char
    else if k < 33 then (k + 58) as char
    else if k < 44 then (k + 64) as char
    else (k + 65) as char
  }

  /** The two lookups above are those of the alphabet string. */
  lemma AlphabetSpelled(k: nat)
    requires k < 58
    ensures |ALPHABET| == 58 && ALPHABET[k] == CharAt(k)
  {
  }

  function Leading<T(==)>(s: seq<T>, x: T): (n: nat)
    ensures n <= |s|
    ensures forall k :: 0 <= k < n ==> s[k] == x
    ensures n < |s| ==> s[n] != x
  {
    if |s| == 0 || s[0] != x then 0 else 1 + Leading(s[1..], x)
  }

  lemma {:induction false} LeadingUnique<T>(s: seq<T>, x: T, n: nat)
    requires n <= |s| && (forall k :: 0 <= k < n ==> s[k] == x) && (n < |s| ==> s[n] != x)
    ensures Leading(s, x) == n
  {
    var m := Leading(s, x);
    assert m >= n && m <= n;
  }

  /** Rewrites a number from one base to another and keeps the count of leading zeros. */
  ghost function Convert(d: seq<nat>, from: nat, to: nat): (r: seq<nat>)
    requires from >= 2 && to >= 2
    ensures InBase(r, to)
  {
    seq(Leading(d, 0), _ => 0) + Digits(Value(d, from), to)
  }

  /** Converting there and back is the identity. */
  lemma ConvertBack(d: seq<nat>, from: nat, to: nat)
    requires from >= 2 && to >= 2 && InBase(d, from)
    ensures Convert(Convert(d, from, to), to, from) == d
  {
    hide Value, Digits;
    var n := Leading(d, 0);
    var rest := d[n..];
    var v := Value(d, from);
    ValueSkipsZeros(d, n, from);
    DigitsOfValue(rest, from);
    var c := Convert(d, from, to);
    LeadingUnique(c, 0, n);
    ValueSkipsZeros(c, n, to);
    assert c[n..] == Digits(v, to);
    ValueOfDigits(v, to);
    assert Digits(Value(c, to), from) == rest;
    assert seq(n, _ => 0) + rest == d;
  }

  predicate AllInAlphabet(s: string) {
    forall k :: 0 <= k < |s| ==> InAlphabet(s[k])
  }

  ghost function Indices(s: string): (d: seq<nat>)
    requires AllInAlphabet(s)
    ensures |d| == |s| && InBase(d, 58)
  {
    seq(|s|, k requires 0 <= k < |s| => IndexOf(s[k]))
  }

  ghost function Letters(d: seq<nat>): (s: string)
    requires InBase(d, 58)
    ensures |s| == |d| && AllInAlphabet(s)
  {
    seq(|d|, k requires 0 <= k < |d| => CharAt(d[k]))
  }

  lemma LettersInverse(s: string, d: seq<nat>)
    requires AllInAlphabet(s) && InBase(d, 58)
    ensures Letters(Indices(s)) == s
    ensures Indices(Letters(d)) == d
  {
  }

  /** The text of a byte string: the same number in base 58, one '1' for each leading zero byte. */
  ghost function Encoded(bytes: seq<byte>): (s: string)
    ensures AllInAlphabet(s)
  {
    Letters(Convert(bytes, 256, 58))
  }

  lemma {:induction false} WiderBase(n: nat)
    ensures Power(256, n) <= Power(58, 2 * n)
  {
    if n > 0 {
      WiderBase(n - 1);
      var p := Power(58, 2 * n - 2);
      assert Power(58, 2 * n - 1) == p * 58 && Power(58, 2 * n) == p * 58 * 58;
    }
  }

  /** Two letters have room for a byte, and a leading zero byte takes one. */
  lemma EncodedLength(bytes: seq<byte>)
    ensures |Encoded(bytes)| <= 3 * |bytes|
  {
    hide Value, Digits;
    var d: seq<nat> := bytes;
    ValueBound(d, 256);
    WiderBase(|d|);
    FewDigits(Value(d, 256), 58, 2 * |d|);
  }

  ghost function Decoded(s: string): Option<seq<byte>> {
    if AllInAlphabet(s) then
      var d := Convert(Indices(s), 58, 256);
      Some(seq(|d|, k requires 0 <= k < |d| => d[k] as byte))
    else None
  }

  lemma DecodeOfEncode(bytes: seq<byte>)
    ensures Decoded(Encoded(bytes)) == Some(bytes)
  {
    LettersInverse("", Convert(bytes, 256, 58));
    ConvertBack(bytes, 256, 58);
    assert Decoded(Encoded(bytes)).value == Convert(Convert(bytes, 256, 58), 58, 256);
  }

  lemma EncodeOfDecode(s: string)
    requires Decoded(s).Some?
    ensures Encoded(Decoded(s).value) == s
  {
    var d := Convert(Indices(s), 58, 256);
    var bytes: seq<byte> := Decoded(s).value;
    assert bytes == d;
    ConvertBack(Indices(s), 58, 256);
    LettersInverse(s, []);
  }

  /** The first loop of the encoder: the number that the bytes spell. */
  method NumberOf(bytes: seq<byte>) returns (value: nat)
    ensures value == Value(bytes, 256)
  {
    hide Value;
    value := 0;
    NoDigits(256);
    for i := 0 to |bytes|
      invariant value == Value(bytes[..i], 256)
    {
      ValueConcat(bytes[..i], bytes[i], 256);
      assert bytes[..i + 1] == bytes[..i] + [bytes[i]];
      value := value * 256 + bytes[i];
    }
    assert bytes[..|bytes|] == bytes;
  }

  lemma NoDigits(base: nat)
    requires base >= 2
    ensures Value([], base) == 0
  {
  }

  lemma LastDigit(value: nat)
    requires value > 0
    ensures Digits(value, 58) == Digits(value / 58, 58) + [value % 58]
  {
  }

  lemma LettersSnoc(d: seq<nat>, x: nat)
    requires InBase(d, 58) && x < 58
    ensures InBase(d + [x], 58) && Letters(d + [x]) == Letters(d) + [CharAt(x)]
  {
    hide CharAt;
  }

  lemma LastLetter(value: nat)
    requires value > 0
    ensures Letters(Digits(value, 58)) == Letters(Digits(value / 58, 58)) + [CharAt(value % 58)]
  {
    hide CharAt, Digits, Letters;
    LastDigit(value);
    LettersSnoc(Digits(value / 58, 58), value % 58);
  }

  lemma NoLetters()
    ensures Letters(Digits(0, 58)) == ""
  {
  }

  /** The second loop: the letters of a number, lowest digit first. */
  method LettersOf(number: nat) returns (encoded: string)
    ensures encoded == Letters(Digits(number, 58))
  {
    hide Letters, Digits, CharAt;
    var value := number;
    encoded := "";
    while value > 0
      invariant Letters(Digits(number, 58)) == Letters(Digits(value, 58)) + encoded
    {
      LastLetter(value);
      encoded := [CharAt(value % 58)] + encoded;
      QuotientDecreases(value, 58);
      value := value / 58;
    }
    NoLetters();
  }

  method Encode(bytes: seq<byte>) returns (encoded: string)
    ensures encoded == Encoded(bytes)
  {
    hide Value, Digits, Letters;
    var leadingZeros := 0;
    while leadingZeros < |bytes| && bytes[leadingZeros] == 0
      invariant 0 <= leadingZeros <= |bytes|
      invariant forall k :: 0 <= k < leadingZeros ==> bytes[k] == 0
    {
      leadingZeros := leadingZeros + 1;
    }
    LeadingUnique<nat>(bytes, 0, leadingZeros);
    var value := NumberOf(bytes);
    encoded := LettersOf(value);
    encoded := seq(leadingZeros, _ => '1') + encoded;
    LettersOfZeros(leadingZeros, Digits(value, 58));
  }

  lemma LettersOfZeros(n: nat, d: seq<nat>)
    requires InBase(d, 58)
    ensures Letters(seq(n, _ => 0) + d) == seq(n, _ => '1') + Letters(d)
  {
  }

  /** The byte list that the decoder's division loop collects, lowest byte first. */
  method LowBytes(number: nat) returns (reversed: seq<byte>)
    ensures Digits(number, 256) == Reverse(reversed)
  {
    var value := number;
    reversed := [];
    while value > 0
      invariant Digits(number, 256) == Digits(value, 256) + Reverse(reversed)
    {
      assert Reverse(reversed + [(value % 256) as byte]) == [(value % 256) as byte] + Reverse(reversed);
      reversed := reversed + [(value % 256) as byte];
      QuotientDecreases(value, 256);
      value := value / 256;
    }
  }

  /** The first loop of the decoder: the number that the text spells. */
  method ReadNumber(encoded: string) returns (r: Result<nat>)
    ensures r.Ok? <==> AllInAlphabet(encoded)
    ensures r.Ok? ==> r.value == Value(Indices(encoded), 58)
  {
    var value: nat := 0;
    for i := 0 to |encoded|
      invariant AllInAlphabet(encoded[..i])
      invariant value == Value(Indices(encoded[..i]), 58)
    {
      var index := IndexOf(encoded[i]);
      if index == -1 {
        return Err("invalid base58 character");
      }
      assert encoded[..i + 1] == encoded[..i] + [encoded[i]];
      assert Indices(encoded[..i + 1]) == Indices(encoded[..i]) + [index];
      ValueConcat(Indices(encoded[..i]), index, 58);
      value := value * 58 + index;
    }
    assert encoded[..|encoded|] == encoded;
    r := Ok(value);
  }

  method Decode(encoded: string) returns (r: Result<seq<byte>>)
    ensures r.Ok? <==> Decoded(encoded).Some?
    ensures r.Ok? ==> r.value == Decoded(encoded).value
  {
    var number := ReadNumber(encoded);
    if number.Err? {
      return Err(number.error);
    }
    var leadingZeros := 0;
    while leadingZeros < |encoded| && encoded[leadingZeros] == '1'
      invariant 0 <= leadingZeros <= |encoded|
      invariant forall k :: 0 <= k < leadingZeros ==> Indices(encoded)[k] == 0
    {
      leadingZeros := leadingZeros + 1;
    }
    LeadingUnique(Indices(encoded), 0, leadingZeros);

    var reversed := LowBytes(number.value);
    var result := ZerosThenReversed(leadingZeros, reversed);
    r := Ok(result);
  }

  /** Zero bytes, then the collected bytes written from the back of the array. */
  method ZerosThenReversed(leadingZeros: nat, reversed: seq<byte>) returns (bytes: seq<byte>)
    ensures bytes == seq(leadingZeros, _ => 0) + Reverse(reversed)
  {
    var result := new byte[leadingZeros + |reversed|](_ => 0);
    for index := 0 to |reversed|
      invariant forall k :: 0 <= k < leadingZeros ==> result[k] == 0
      invariant forall k :: result.Length - index <= k < result.Length ==> result[k] == reversed[result.Length - 1 - k]
    {
      result[result.Length - index - 1] := reversed[index];
    }
    bytes := result[..];
  }

  ghost function Reverse(s: seq<byte>): (r: seq<byte>)
    ensures |r| == |s|
  {
    seq(|s|, k requires 0 <= k < |s| => s[|s| - 1 - k])
  }

  /** The payload with the first four bytes of its digest behind it. */
  ghost function WithChecksum(digest: seq<byte> -> Digest, payload: seq<byte>): seq<byte> {
    payload + digest(payload)[..4]
  }

  method CheckEncode(digest: seq<byte> -> Digest, payload: seq<byte>) returns (s: string)
    ensures s == Encoded(WithChecksum(digest, payload))
  {
    var checksum := digest(payload)[..4];
    s := Encode(payload + checksum);
  }

  datatype Checked = Checked(version: byte, payload: seq<byte>)

  ghost function CheckDecoded(digest: seq<byte> -> Digest, s: string): Option<Checked> {
    match Decoded(s)
    case None => None
    case Some(full) =>
      if |full| < 5 || WithChecksum(digest, full[..|full| - 4]) != full then None
      else Some(Checked(full[0], full[1..|full| - 4]))
  }

  method CheckDecode(digest: seq<byte> -> Digest, encoded: string) returns (r: Result<Checked>)
    ensures r.Ok? <==> CheckDecoded(digest, encoded).Some?
    ensures r.Ok? ==> r.value == CheckDecoded(digest, encoded).value
  {
    hide Decoded;
    var decoded := Decode(encoded);
    if decoded.Err? {
      return Err(decoded.error);
    }
    var full := decoded.value;
    if |full| < 5 {
      return Err("base58check payload too short");
    }
    var body, checksum := full[..|full| - 4], full[|full| - 4..];
    var expected := digest(body)[..4];
    assert full == body + checksum;
    for index := 0 to 4
      invariant forall k :: 0 <= k < index ==> checksum[k] == expected[k]
    {
      if checksum[index] != expected[index] {
        assert (body + expected)[|body| + index] != full[|body| + index];
        return Err("base58check checksum mismatch");
      }
    }
    assert checksum == expected;
    r := Ok(Checked(body[0], body[1..]));
  }

  /** Base58Check recovers a payload exactly when the payload is not empty. */
  lemma CheckDecodeOfEncode(digest: seq<byte> -> Digest, payload: seq<byte>)
    ensures
      var r := CheckDecoded(digest, Encoded(WithChecksum(digest, payload)));
      if |payload| > 0 then r == Some(Checked(payload[0], payload[1..])) else r == None
  {
    var full := WithChecksum(digest, payload);
    DecodeOfEncode(full);
    assert full[..|full| - 4] == payload;
  }

  /** Every accepted text is the encoding of what it decodes to. */
  lemma CheckEncodeOfDecode(digest: seq<byte> -> Digest, s: string)
    requires CheckDecoded(digest, s).Some?
    ensures
      var c := CheckDecoded(digest, s).value;
      s == Encoded(WithChecksum(digest, [c.version] + c.payload))
  {
    EncodeOfDecode(s);
    var full := Decoded(s).value;
    assert full[..|full| - 4] == [full[0]] + full[1..|full| - 4];
  }
}
