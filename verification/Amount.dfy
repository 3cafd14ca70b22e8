/** The decimal wire format of EDX amounts: packages/shared/src/amount.ts. */
module Amount {
  import opened Prelude
  import opened Positional
  import opened Text

  const EDX_DECIMALS := 8

  /** Position of the decimal point, or the length when there is none. */
  function PointIndex(s: string): (k: nat)
    ensures k <= |s| && '.' !in s[..k]
    ensures k < |s| ==> s[k] == '.'
  {
    if |s| == 0 || s[0] == '.' then 0 else 1 + PointIndex(s[1..])
  }

  function Whole(s: string): string {
    s[..PointIndex(s)]
  }

  function Fraction(s: string): string {
    if PointIndex(s) < |s| then s[PointIndex(s) + 1..] else ""
  }

  /** Digits, optionally followed by a point and one to eight digits. */
  predicate IsAmount(s: string) {
    && |Whole(s)| > 0 && AllDigits(Whole(s)) && AllDigits(Fraction(s))
    && (PointIndex(s) < |s| ==> 1 <= |Fraction(s)| <= EDX_DECIMALS)
  }

  function Zeros(n: nat): (s: string)
    ensures |s| == n && AllDigits(s) && (forall k :: 0 <= k < n ==> s[k] == '0')
  {
    seq(n, _ => '0')
  }

  function PadEnd(s: string, width: nat): string {
    if |s| < width then s + Zeros(width - |s|) else s
  }

  function PadStart(s: string, width: nat): string {
    if |s| < width then Zeros(width - |s|) + s else s
  }

  /** Parse into integer photons. */
  function Parse(s: string): (r: Option<nat>) {
    if !IsAmount(s) then None else
      Some(DecimalValue(Whole(s)) * EDX_UNIT + DecimalValue(PadEnd(Fraction(s), EDX_DECIMALS)))
  }

  function StripZeros(s: string): (r: string)
    ensures |r| <= |s| && r == s[..|r|]
    ensures forall k :: |r| <= k < |s| ==> s[k] == '0'
    ensures |r| > 0 ==> r[|r| - 1] != '0'
  {
    if |s| > 0 && s[|s| - 1] == '0' then StripZeros(s[..|s| - 1]) else s
  }

  /** Print photons without trailing zeros; a negative amount is refused. */
  function Format(v: int): (r: Result<string>) {
    if v < 0 then Err("negative EDX amount") else Ok(Print(v))
  }

  function Print(v: nat): string {
    Pieces(DecimalText(v / EDX_UNIT), StripZeros(PadStart(DecimalText(v % EDX_UNIT), EDX_DECIMALS)))
  }

  function Pieces(whole: string, fraction: string): string {
    if |fraction| > 0 then whole + ['.'] + fraction else whole
  }

  lemma PointOfPieces(whole: string, fraction: string)
    requires AllDigits(whole)
    ensures Whole(Pieces(whole, fraction)) == whole
    ensures Fraction(Pieces(whole, fraction)) == fraction
    ensures PointIndex(Pieces(whole, fraction)) == |whole|
  {
    PointAfterDigits(Pieces(whole, fraction), |whole|);
  }

  lemma {:induction false} PointAfterDigits(s: string, k: nat)
    requires k <= |s| && '.' !in s[..k] && (k < |s| ==> s[k] == '.')
    ensures PointIndex(s) == k
  {
    if k > 0 {
      assert s[..k][0] == s[0] && s[0] != '.';
      assert s[1..][..k - 1] == s[..k][1..];
      PointAfterDigits(s[1..], k - 1);
    }
  }

  /** Padding in front with zeros keeps the value. */
  lemma PaddedValue(s: string, width: nat)
    requires AllDigits(s)
    ensures AllDigits(PadStart(s, width)) && DecimalValue(PadStart(s, width)) == DecimalValue(s)
  {
    if |s| < width {
      var p := PadStart(s, width);
      ValueSkipsZeros(DigitValues(p), width - |s|, 10);
      assert DigitValues(p)[width - |s|..] == DigitValues(s);
    }
  }

  /** The eight fraction digits of a remainder. */
  lemma FractionDigits(r: nat)
    requires r < EDX_UNIT
    ensures |PadStart(DecimalText(r), EDX_DECIMALS)| == EDX_DECIMALS
  {
    if r > 0 {
      var d := Digits(r, 10);
      ValueOfDigits(r, 10);
      if |d| > EDX_DECIMALS {
        LongDigitsAreLarge(d);
        assert false;
      }
    }
  }

  lemma LongDigitsAreLarge(d: seq<nat>)
    requires |d| > EDX_DECIMALS && d[0] > 0
    ensures Value(d, 10) >= EDX_UNIT
  {
    if |d| == EDX_DECIMALS + 1 {
      ValueAtLeastPower(d);
      assert Power(10, 8) == 10 * Power(10, 7);
      assert Power(10, 7) == 10 * Power(10, 6);
      assert Power(10, 6) == 10 * Power(10, 5);
      assert Power(10, 5) == 10 * Power(10, 4);
      assert Power(10, 4) == 10 * Power(10, 3);
      assert Power(10, 3) == 10 * Power(10, 2);
    } else {
      LongDigitsAreLarge(d[..|d| - 1]);
    }
  }

  lemma {:induction false} ValueAtLeastPower(d: seq<nat>)
    requires |d| > 0 && d[0] > 0
    ensures Value(d, 10) >= Power(10, |d| - 1)
  {
    if |d| == 1 {
      assert d[..0] == [];
    } else {
      ValueAtLeastPower(d[..|d| - 1]);
    }
  }

  /** The fraction digits survive stripping and padding. */
  lemma StripThenPad(s: string)
    requires |s| == EDX_DECIMALS
    ensures PadEnd(StripZeros(s), EDX_DECIMALS) == s
  {
  }

  lemma ParseOfPieces(whole: string, fraction: string)
    requires AllDigits(whole) && |whole| > 0 && AllDigits(fraction) && |fraction| <= EDX_DECIMALS
    ensures
      Parse(Pieces(whole, fraction))
        == Some(DecimalValue(whole) * EDX_UNIT + DecimalValue(PadEnd(fraction, EDX_DECIMALS)))
  {
    PointOfPieces(whole, fraction);
  }

  /** Printing and parsing again gives the amount back, for every non-negative amount. */
  lemma ParseOfFormat(v: nat)
    ensures Format(v).Ok? && Parse(Format(v).value) == Some(v)
  {
    hide Parse;
    var q, r := v / EDX_UNIT, v % EDX_UNIT;
    var padded := PadStart(DecimalText(r), EDX_DECIMALS);
    FractionDigits(r);
    PaddedValue(DecimalText(r), EDX_DECIMALS);
    DecimalRoundTrip(r);
    DecimalRoundTrip(q);
    StripThenPad(padded);
    ParseOfPieces(DecimalText(q), StripZeros(padded));
  }

  /** The texts that printing produces: no superfluous zero on either side. */
  predicate CanonicalAmount(s: string) {
    && IsAmount(s)
    && CanonicalDecimal(s[..PointIndex(s)])
    && (PointIndex(s) < |s| ==> s[|s| - 1] != '0')
  }

  /** What an amount text prints as once parsed. */
  lemma PrintOfParse(s: string)
    requires IsAmount(s)
    ensures
      var f := StripZeros(PadEnd(Fraction(s), EDX_DECIMALS));
      Print(Parse(s).value) == Pieces(DecimalText(DecimalValue(Whole(s))), f)
  {
    var padded := PadEnd(Fraction(s), EDX_DECIMALS);
    var q, r := DecimalValue(Whole(s)), DecimalValue(padded);
    FractionBelowUnit(padded);
    assert Parse(s).value == q * EDX_UNIT + r;
    assert Parse(s).value / EDX_UNIT == q && Parse(s).value % EDX_UNIT == r;
    PadStartRecovers(padded);
  }

  lemma SplitAtPoint(s: string)
    ensures PointIndex(s) < |s| ==> s == Whole(s) + ['.'] + Fraction(s)
    ensures PointIndex(s) == |s| ==> s == Whole(s)
  {
    if PointIndex(s) < |s| {
      SplitAround(s, PointIndex(s));
    }
  }

  lemma CanonicalFraction(s: string)
    requires CanonicalAmount(s)
    ensures StripZeros(PadEnd(Fraction(s), EDX_DECIMALS)) == Fraction(s)
  {
    hide DecimalValue, CanonicalDecimal, Parse;
    if PointIndex(s) == |s| {
      StripOfZeros(EDX_DECIMALS);
      assert PadEnd("", EDX_DECIMALS) == Zeros(EDX_DECIMALS);
    } else {
      StripRecovers(Fraction(s));
    }
  }

  lemma CanonicalWhole(s: string)
    requires CanonicalAmount(s)
    ensures AllDigits(Whole(s)) && DecimalText(DecimalValue(Whole(s))) == Whole(s)
  {
    hide DecimalValue, DecimalText, Parse;
    DecimalCanonical(Whole(s));
  }

  lemma PartsRejoin(s: string)
    requires CanonicalAmount(s)
    ensures Pieces(Whole(s), Fraction(s)) == s
  {
    hide CanonicalDecimal, Parse;
    SplitAtPoint(s);
  }

  lemma CanonicalPrints(s: string)
    requires CanonicalAmount(s)
    ensures Print(Parse(s).value) == s
  {
    hide Parse, Print, DecimalText, DecimalValue, StripZeros, PadEnd, Fraction, Whole, Pieces;
    CanonicalFraction(s);
    CanonicalWhole(s);
    PartsRejoin(s);
    PrintOfParse(s);
  }

  lemma PrintedIsCanonical(s: string)
    requires IsAmount(s) && Print(Parse(s).value) == s
    ensures CanonicalAmount(s)
  {
    hide DecimalText, DecimalValue, Pieces, Print, StripZeros, PadEnd;
    PrintOfParse(s);
    PointOfPieces(DecimalText(DecimalValue(Whole(s))), StripZeros(PadEnd(Fraction(s), EDX_DECIMALS)));
    DecimalCanonical(Whole(s));
    PrintEnd(Parse(s).value);
  }

  /** An amount text survives parsing and printing exactly when it is canonical. */
  lemma FormatOfParse(s: string)
    requires IsAmount(s)
    ensures Format(Parse(s).value) == Ok(s) <==> CanonicalAmount(s)
  {
    if CanonicalAmount(s) {
      CanonicalPrints(s);
    } else if Print(Parse(s).value) == s {
      PrintedIsCanonical(s);
    }
  }

  lemma PrintEnd(v: nat)
    ensures PointIndex(Print(v)) < |Print(v)| ==> Print(v)[|Print(v)| - 1] != '0'
  {
    PointOfPieces(DecimalText(v / EDX_UNIT), StripZeros(PadStart(DecimalText(v % EDX_UNIT), EDX_DECIMALS)));
  }

  lemma FractionBelowUnit(s: string)
    requires AllDigits(s) && |s| == EDX_DECIMALS
    ensures DecimalValue(s) < EDX_UNIT
  {
    ValueBound(DigitValues(s), 10);
    assert Power(10, 8) == 10 * Power(10, 7);
    assert Power(10, 7) == 10 * Power(10, 6);
    assert Power(10, 6) == 10 * Power(10, 5);
    assert Power(10, 5) == 10 * Power(10, 4);
    assert Power(10, 4) == 10 * Power(10, 3);
    assert Power(10, 3) == 10 * Power(10, 2);
  }

  /** Eight digits are recovered from their value by printing and padding in front. */
  lemma PadStartRecovers(s: string)
    requires AllDigits(s) && |s| == EDX_DECIMALS
    ensures PadStart(DecimalText(DecimalValue(s)), EDX_DECIMALS) == s
  {
    var v := DecimalValue(s);
    FractionBelowUnit(s);
    var p := PadStart(DecimalText(v), EDX_DECIMALS);
    FractionDigits(v);
    PaddedValue(DecimalText(v), EDX_DECIMALS);
    DecimalRoundTrip(v);
    FixedOfValue(DigitValues(s), 10);
    FixedOfValue(DigitValues(p), 10);
    DigitTextInverse(s, DigitValues(s));
    DigitTextInverse(p, DigitValues(p));
  }

  lemma {:induction false} StripUnique(s: string, k: nat)
    requires k <= |s| && (forall j :: k <= j < |s| ==> s[j] == '0') && (k > 0 ==> s[k - 1] != '0')
    ensures StripZeros(s) == s[..k]
  {
    var r := StripZeros(s);
    assert |r| == k;
  }

  lemma StripRecovers(f: string)
    requires 1 <= |f| <= EDX_DECIMALS && f[|f| - 1] != '0'
    ensures StripZeros(PadEnd(f, EDX_DECIMALS)) == f
  {
    StripUnique(PadEnd(f, EDX_DECIMALS), |f|);
  }

  lemma StripOfZeros(n: nat)
    ensures StripZeros(Zeros(n)) == ""
  {
    StripUnique(Zeros(n), 0);
  }

  // ---- what an amount text means ----

  lemma DigitsOfZeros(n: nat)
    ensures Value(DigitValues(Zeros(n)), 10) == 0
  {
    var d := DigitValues(Zeros(n));
    ValueSkipsZeros(d, n, 10);
    assert d[n..] == [];
  }

  /** Padding multiplies by a power of ten. */
  lemma PaddedEndValue(f: string, width: nat)
    requires AllDigits(f) && |f| <= width
    ensures AllDigits(PadEnd(f, width)) && DecimalValue(PadEnd(f, width)) == DecimalValue(f) * Power(10, width - |f|)
  {
    hide Value, Power;
    var zeros := Zeros(width - |f|);
    assert PadEnd(f, width) == f + zeros;
    assert DigitValues(f + zeros) == DigitValues(f) + DigitValues(zeros);
    ValueAppend(DigitValues(f), DigitValues(zeros), 10);
    DigitsOfZeros(width - |f|);
  }

  lemma DigitsJoin(a: string, b: string)
    requires AllDigits(a) && AllDigits(b)
    ensures AllDigits(a + b) && DigitValues(a + b) == DigitValues(a) + DigitValues(b)
  {
  }

  lemma JoinedValue(a: string, b: string)
    requires AllDigits(a) && AllDigits(b)
    ensures AllDigits(a + b) && DecimalValue(a + b) == DecimalValue(a) * Power(10, |b|) + DecimalValue(b)
  {
    hide Value, Power, DigitValues, AllDigits;
    DigitsJoin(a, b);
    ValueAppend(DigitValues(a), DigitValues(b), 10);
    SameLength(b);
  }

  lemma SameLength(s: string)
    requires AllDigits(s)
    ensures |DigitValues(s)| == |s|
  {
  }

  lemma {:induction false} PowersMultiply(a: nat, b: nat)
    ensures Power(10, a) * Power(10, b) == Power(10, a + b)
  {
    hide Power;
    if b > 0 {
      PowersMultiply(a, b - 1);
      PowerStep(10, b);
      PowerStep(10, a + b);
      assert Power(10, a) * (Power(10, b - 1) * 10) == Power(10, a) * Power(10, b - 1) * 10;
    } else {
      NothingToAppend(10);
    }
  }

  lemma UnitIsPower()
    ensures Power(10, 8) == 100_000_000
  {
    assert Power(10, 2) == 100 && Power(10, 4) == 10_000 && Power(10, 6) == 1_000_000;
  }

  /**
   * An amount text with `n` digits behind its point names the number its digits spell, times 100,000,000, over the
   * `n`th power of ten.
   */
  lemma ParseMeans(s: string)
    requires IsAmount(s)
    ensures |Fraction(s)| <= 8
    ensures
      Parse(s).Some? && Parse(s).value * Power(10, |Fraction(s)|) == DecimalValue(Whole(s) + Fraction(s)) * 100_000_000
  {
    hide Power, DecimalValue, Whole, PadEnd;
    var w, f := Whole(s), Fraction(s);
    PaddedEndValue(f, 8);
    JoinedValue(w, f);
    PowersMultiply(8 - |f|, |f|);
    UnitIsPower();
    var p, q := Power(10, |f|), Power(10, 8 - |f|);
    assert (DecimalValue(w) * 100_000_000 + DecimalValue(f) * q) * p
      == DecimalValue(w) * p * 100_000_000 + DecimalValue(f) * (q * p);
  }

  lemma SplitGrows(s: string, p: nat)
    requires p < |s|
    ensures (s + "0")[..p] == s[..p] && (s + "0")[p + 1..] == s[p + 1..] + "0"
  {
  }

  lemma PointStays(s: string)
    requires PointIndex(s) < |s|
    ensures PointIndex(s + "0") == PointIndex(s)
    ensures Whole(s + "0") == Whole(s) && Fraction(s + "0") == Fraction(s) + "0"
  {
    hide PointIndex;
    SamePoint(s);
    SplitGrows(s, PointIndex(s));
  }

  lemma {:induction false} SamePoint(s: string)
    requires PointIndex(s) < |s|
    ensures PointIndex(s + "0") == PointIndex(s)
  {
    if s[0] != '.' {
      assert (s + "0")[1..] == s[1..] + "0";
      SamePoint(s[1..]);
    }
  }

  /** A zero at the end of a fraction changes nothing. */
  lemma TrailingZero(s: string)
    requires IsAmount(s) && 1 <= |Fraction(s)| <= 7
    ensures IsAmount(s + "0") && Parse(s + "0") == Parse(s)
  {
    hide DecimalValue, PointIndex, AllDigits;
    PointStays(s);
    OneMoreDigitOk(Fraction(s));
    var f := Fraction(s);
    assert PadEnd(f + "0", 8) == PadEnd(f, 8) by {
      assert (f + "0") + Zeros(8 - |f| - 1) == f + Zeros(8 - |f|);
    }
  }

  lemma OneMoreDigitOk(f: string)
    requires AllDigits(f)
    ensures AllDigits(f + "0")
  {
  }
}
