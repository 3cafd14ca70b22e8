/** Decimal numbers and separated fields as text. */
module Text {
  import opened Positional

  predicate IsDigit(c: char) {
    '0' <= c <= '9'
  }

  predicate AllDigits(s: string) {
    forall k :: 0 <= k < |s| ==> IsDigit(s[k])
  }

  predicate IsLowerHex(c: char) {
    IsDigit(c) || 'a' <= c <= 'f'
  }

  /** The pattern of exactly `length` lowercase hexadecimal characters. */
  predicate Hex(s: string, length: nat) {
    |s| == length && forall k :: 0 <= k < |s| ==> IsLowerHex(s[k])
  }

  function DigitValues(s: string): (d: seq<nat>)
    requires AllDigits(s)
    ensures |d| == |s| && InBase(d, 10)
  {
    seq(|s|, k requires 0 <= k < |s| => s[k] as int - '0' as int)
  }

  function DigitText(d: seq<nat>): (s: string)
    requires InBase(d, 10)
    ensures |s| == |d| && AllDigits(s)
  {
    seq(|d|, k requires 0 <= k < |d| => ('0' as int + d[k]) as char)
  }

  lemma DigitTextInverse(s: string, d: seq<nat>)
    requires AllDigits(s) && InBase(d, 10)
    ensures DigitText(DigitValues(s)) == s
    ensures DigitValues(DigitText(d)) == d
  {
  }

  function DecimalValue(s: string): nat
    requires AllDigits(s)
  {
    Value(DigitValues(s), 10)
  }

  /** How a non-negative integer prints. */
  function DecimalText(n: nat): (s: string)
    ensures AllDigits(s) && |s| > 0
  {
    if n == 0 then "0" else DigitText(Digits(n, 10))
  }

  lemma DecimalRoundTrip(n: nat)
    ensures DecimalValue(DecimalText(n)) == n
  {
    if n == 0 {
      assert DigitValues("0") == [0];
      assert Value([0], 10) == 0;
    } else {
      DigitTextInverse("", Digits(n, 10));
      ValueOfDigits(n, 10);
    }
  }

  /** A digit string is the print of its value exactly when it has no superfluous leading zero. */
  predicate CanonicalDecimal(s: string) {
    AllDigits(s) && |s| > 0 && (|s| == 1 || s[0] != '0')
  }

  lemma DecimalCanonical(s: string)
    requires AllDigits(s) && |s| > 0
    ensures DecimalText(DecimalValue(s)) == s <==> CanonicalDecimal(s)
  {
    var d := DigitValues(s);
    var v := Value(d, 10);
    if s[0] != '0' {
      DigitsOfValue(d, 10);
      DigitTextInverse(s, d);
    } else if |s| == 1 {
      assert d == [0] && s == "0" && Value([0], 10) == 0;
    } else if v != 0 {
      assert DecimalText(v)[0] != '0';
    }
  }

  /** The fields with one separator between neighbours. */
  function Join(fields: seq<string>, sep: char): string {
    if |fields| == 0 then "" else if |fields| == 1 then fields[0]
    else fields[0] + [sep] + Join(fields[1..], sep)
  }

  ghost predicate Free(fields: seq<string>, sep: char) {
    forall k :: 0 <= k < |fields| ==> sep !in fields[k]
  }

  /** Separator-free fields can be read back from the joined text. */
  lemma {:induction false} JoinInjective(a: seq<string>, b: seq<string>, sep: char)
    requires |a| > 0 && |b| > 0 && Free(a, sep) && Free(b, sep)
    requires Join(a, sep) == Join(b, sep)
    ensures a == b
  {
    var s := Join(a, sep);
    HeadOfJoin(a, sep);
    HeadOfJoin(b, sep);
    if |a| == 1 || |b| == 1 {
      assert |a| == 1 && |b| == 1;
    } else {
      assert s[..|a[0]|] == a[0] && s[..|b[0]|] == b[0];
      assert |a[0]| == |b[0]|;
      assert Join(a[1..], sep) == s[|a[0]| + 1..] == Join(b[1..], sep);
      JoinInjective(a[1..], b[1..], sep);
      assert a == [a[0]] + a[1..] && b == [b[0]] + b[1..];
    }
  }

  lemma HeadOfJoin(a: seq<string>, sep: char)
    requires |a| > 0 && Free(a, sep)
    ensures |a| == 1 ==> sep !in Join(a, sep)
    ensures |a| > 1 ==> |Join(a, sep)| > |a[0]| && Join(a, sep)[|a[0]|] == sep
  {
  }

  /** Joining the joined parts is joining everything. */
  lemma {:induction false} JoinConcat(a: seq<string>, b: seq<string>, sep: char)
    requires |a| > 0 && |b| > 0
    ensures Join(a + b, sep) == Join(a, sep) + [sep] + Join(b, sep)
  {
    if |a| == 1 {
      assert (a + b)[1..] == b;
    } else {
      JoinConcat(a[1..], b, sep);
      assert (a + b)[1..] == a[1..] + b;
    }
  }

  lemma JoinOne(a: string, sep: char)
    ensures Join([a], sep) == a
  {
  }

  lemma JoinThree(a: string, b: string, c: string, sep: char)
    ensures Join([a, b, c], sep) == a + [sep] + b + [sep] + c
  {
    assert [a, b, c][1..] == [b, c] && [b, c][1..] == [c];
    assert Join([b, c], sep) == b + [sep] + c;
    assert Join([a, b, c], sep) == a + [sep] + (b + [sep] + c);
  }

  lemma SplitAround<T>(s: seq<T>, k: nat)
    requires k < |s|
    ensures s == s[..k] + [s[k]] + s[k + 1..]
  {
  }

  /** What stands between a known prefix and the first separator is determined by the text. */
  lemma UntilSeparator<T>(p: seq<T>, a: seq<T>, s: seq<T>, b: seq<T>, t: seq<T>, sep: T)
    requires sep !in a && sep !in b && p + a + [sep] + s == p + b + [sep] + t
    ensures a == b
  {
    var u: seq<T> := p + a + [sep] + s;
    assert u[|p|..|p| + |a|] == a && u[|p| + |a|] == sep;
    assert u[|p|..|p| + |b|] == b && u[|p| + |b|] == sep;
    assert forall k :: 0 <= k < |a| ==> u[|p| + k] == a[k] && u[|p| + k] != sep;
    assert forall k :: 0 <= k < |b| ==> u[|p| + k] == b[k] && u[|p| + k] != sep;
    assert |a| == |b|;
  }
}
