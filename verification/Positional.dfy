/**
 * Positional notation, most significant digit first. Base 10 is the text of a number,
 * base 256 its big-endian bytes, base 58 the address alphabet.
 */
module Positional {

  function Value(d: seq<nat>, base: nat): nat
    requires base >= 2
  {
    if |d| == 0 then 0 else Value(d[..|d| - 1], base) * base + d[|d| - 1]
  }

  ghost predicate InBase(d: seq<nat>, base: nat) {
    forall k :: 0 <= k < |d| ==> d[k] < base
  }

  /** The digits of `v` without leading zeros; no digit at all for zero. */
  function Digits(v: nat, base: nat): (d: seq<nat>)
    requires base >= 2
    decreases v
    ensures InBase(d, base)
    ensures |d| > 0 ==> d[0] != 0
    ensures v == 0 <==> d == []
  {
    if v == 0 then [] else
      QuotientDecreases(v, base);
      Digits(v / base, base) + [v % base]
  }

  lemma QuotientDecreases(v: nat, base: nat)
    requires base >= 2 && v > 0
    ensures 0 <= v / base < v
  {
    Euclid(v, base);
    MulMonotone(2, base, v / base);
  }

  lemma Euclid(n: nat, base: nat)
    requires base > 0
    ensures n == (n / base) * base + n % base
    ensures 0 <= n % base < base
  {
  }

  lemma MulMonotone(x: int, y: int, k: nat)
    requires x <= y
    ensures x * k <= y * k
  {
  }

  lemma QuotientAtLeast(a: nat, k: nat, b: nat)
    requires b > 0 && k * b <= a
    ensures k <= a / b
  {
    Euclid(a, b);
    if a / b < k {
      MulMonotone(a / b + 1, k, b);
    }
  }

  lemma QuotientUnique(q: nat, r: nat, base: nat)
    requires r < base
    ensures (q * base + r) / base == q && (q * base + r) % base == r
  {
    var n := q * base + r;
    Euclid(n, base);
    var p := n / base;
    if p < q {
      MulMonotone(p + 1, q, base);
    } else if p > q {
      MulMonotone(q + 1, p, base);
    }
  }

  lemma {:induction false} ValueConcat(a: seq<nat>, x: nat, base: nat)
    requires base >= 2
    ensures Value(a + [x], base) == Value(a, base) * base + x
  {
    assert (a + [x])[..|a|] == a;
    assert |a + [x]| == |a| + 1 && (a + [x])[|a|] == x;
  }

  lemma {:induction false} ValueOfDigits(v: nat, base: nat)
    requires base >= 2
    ensures Value(Digits(v, base), base) == v
    decreases v
  {
    if v > 0 {
      QuotientDecreases(v, base);
      ValueOfDigits(v / base, base);
      ValueConcat(Digits(v / base, base), v % base, base);
      Euclid(v, base);
    }
  }

  lemma ValueSnoc(d: seq<nat>, base: nat)
    requires base >= 2 && |d| > 0
    ensures Value(d, base) == Value(d[..|d| - 1], base) * base + d[|d| - 1]
  {
  }

  lemma DigitsSnoc(q: nat, r: nat, base: nat)
    requires base >= 2 && r < base && (q > 0 || r > 0)
    ensures q * base + r > 0 && Digits(q * base + r, base) == Digits(q, base) + [r]
  {
    QuotientUnique(q, r, base);
    if q > 0 {
      MulMonotone(1, q, base);
    }
  }

  /** Digits without leading zeros are the digits of their value. */
  lemma {:induction false} DigitsOfValue(d: seq<nat>, base: nat)
    requires base >= 2 && InBase(d, base)
    requires |d| > 0 ==> d[0] != 0
    ensures Digits(Value(d, base), base) == d
    ensures |d| > 0 ==> Value(d, base) > 0
  {
    hide Value, Digits;
    if |d| > 0 {
      var init, last := d[..|d| - 1], d[|d| - 1];
      DigitsOfValue(init, base);
      ValueSnoc(d, base);
      DigitsSnoc(Value(init, base), last, base);
      assert d == init + [last];
    } else {
      NoValue(base);
    }
  }

  lemma NoValue(base: nat)
    requires base >= 2
    ensures Value([], base) == 0 && Digits(0, base) == []
  {
  }

  lemma QuotientBelow(v: nat, base: nat, n: nat)
    requires base >= 2 && 0 < v < Power(base, n)
    ensures n > 0 && 0 <= v / base < Power(base, n - 1)
  {
    Euclid(v, base);
    if v / base >= Power(base, n - 1) {
      MulMonotone(Power(base, n - 1), v / base, base);
      assert false;
    }
  }

  lemma OneMoreDigit(v: nat, base: nat)
    requires base >= 2 && v > 0
    ensures 0 <= v / base < v && |Digits(v, base)| == |Digits(v / base, base)| + 1
  {
    QuotientDecreases(v, base);
  }

  lemma {:induction false} FewDigits(v: nat, base: nat, n: nat)
    requires base >= 2 && v < Power(base, n)
    ensures |Digits(v, base)| <= n
  {
    hide Power, Digits;
    if v > 0 {
      QuotientBelow(v, base, n);
      OneMoreDigit(v, base);
      FewDigits(v / base, base, n - 1);
    } else {
      assert Digits(0, base) == [];
    }
  }

  /** Leading zeros do not change the value. */
  lemma {:induction false} ValueSkipsZeros(d: seq<nat>, zeros: nat, base: nat)
    requires base >= 2 && zeros <= |d|
    requires forall k :: 0 <= k < zeros ==> d[k] == 0
    ensures Value(d, base) == Value(d[zeros..], base)
    decreases |d|
  {
    if zeros < |d| {
      var init := d[..|d| - 1];
      ValueSkipsZeros(init, zeros, base);
      assert d[zeros..][..|d| - zeros - 1] == init[zeros..];
    } else if |d| > 0 {
      ValueSkipsZeros(d[..|d| - 1], zeros - 1, base);
      assert d[..|d| - 1][zeros - 1..] == [];
    }
  }

  function Power(base: nat, n: nat): nat {
    if n == 0 then 1 else Power(base, n - 1) * base
  }

  /** Appending digits shifts those before them. */
  lemma {:induction false} ValueAppend(a: seq<nat>, b: seq<nat>, base: nat)
    requires base >= 2
    ensures Value(a + b, base) == Value(a, base) * Power(base, |b|) + Value(b, base)
  {
    hide Value, Power;
    if |b| == 0 {
      assert a + b == a && b == [];
      assert Power(base, 0) == 1 && Value(b, base) == 0 by { NothingToAppend(base); }
    } else {
      var init, last, p := b[..|b| - 1], b[|b| - 1], Power(base, |b| - 1);
      assert b == init + [last] && a + b == (a + init) + [last];
      ValueAppend(a, init, base);
      ValueConcat(a + init, last, base);
      ValueConcat(init, last, base);
      PowerStep(base, |b|);
      assert (Value(a, base) * p + Value(init, base)) * base == Value(a, base) * (p * base) + Value(init, base) * base;
    }
  }

  lemma NothingToAppend(base: nat)
    requires base >= 2
    ensures Power(base, 0) == 1 && Value([], base) == 0
  {
  }

  lemma PowerStep(base: nat, n: nat)
    requires n > 0
    ensures Power(base, n) == Power(base, n - 1) * base
  {
  }

  /** Exactly `width` digits, high-order digits cut off: how a fixed-width field is filled. */
  function Fixed(v: nat, base: nat, width: nat): (d: seq<nat>)
    requires base >= 2
    decreases width
    ensures |d| == width && InBase(d, base)
  {
    if width == 0 then [] else Fixed(v / base, base, width - 1) + [v % base]
  }

  lemma {:induction false} ValueOfFixed(v: nat, base: nat, width: nat)
    requires base >= 2 && v < Power(base, width)
    ensures Value(Fixed(v, base, width), base) == v
    decreases width
  {
    if width > 0 {
      var q := v / base;
      Euclid(v, base);
      if q >= Power(base, width - 1) {
        MulMonotone(Power(base, width - 1), q, base);
        assert false;
      }
      ValueOfFixed(q, base, width - 1);
      ValueConcat(Fixed(q, base, width - 1), v % base, base);
    }
  }

  lemma {:induction false} ValueBound(d: seq<nat>, base: nat)
    requires base >= 2 && InBase(d, base)
    ensures Value(d, base) < Power(base, |d|)
  {
    if |d| > 0 {
      var init := d[..|d| - 1];
      ValueBound(init, base);
      BoundStep(Value(init, base), d[|d| - 1], Power(base, |init|), base);
    }
  }

  lemma BoundStep(q: nat, r: nat, p: nat, base: nat)
    requires q < p && r < base
    ensures q * base + r < p * base
  {
    MulMonotone(q + 1, p, base);
  }

  lemma {:induction false} FixedOfValue(d: seq<nat>, base: nat)
    requires base >= 2 && InBase(d, base)
    ensures Fixed(Value(d, base), base, |d|) == d
  {
    if |d| > 0 {
      var init, last := d[..|d| - 1], d[|d| - 1];
      FixedOfValue(init, base);
      QuotientUnique(Value(init, base), last, base);
      FixedUnfold(Value(d, base), base, |d|);
      assert d == init + [last];
    }
  }

  lemma FixedUnfold(v: nat, base: nat, width: nat)
    requires base >= 2 && width > 0
    ensures Fixed(v, base, width) == Fixed(v / base, base, width - 1) + [v % base]
  {
  }
}
