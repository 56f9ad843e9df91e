/** The decimal printers of src/libtrading/stringencoders/modp_numtoa.c, on mathematical reals. */
module Modp {
  import opened Bytes
  import opened Decimal
  import opened Atoi

  const THRES_MAX: real := 2147483647.0

  function Rev(s: seq<byte>): seq<byte> {
    seq(|s|, i requires 0 <= i < |s| => s[|s| - 1 - i])
  }

  function Zeros(k: int): seq<byte> {
    if k <= 0 then [] else Zeros(k - 1) + [ZERO]
  }

  function Clamp(prec: int): nat {
    if prec < 0 then 0 else if prec > 9 then 9 else prec
  }

  function Abs(x: real): real {
    if x < 0.0 then -x else x
  }

  /** Whole part and fraction (in units of 10^-prec) that the printers settle on. */
  datatype Rounded = Rounded(whole: nat, frac: nat)

  function RoundFraction(value: real, prec: nat): Rounded
    requires value >= 0.0
  {
    var whole := value.Floor;
    ScaledFractionRange(value, prec);
    RoundScaled(whole, ScaledFraction(value, prec), Pow10(prec))
  }

  /** Rounding of the scaled fraction `tmp`, where `limit` is the power of ten it was scaled by. */
  function RoundScaled(whole: nat, tmp: real, limit: nat): Rounded
    requires tmp >= 0.0
  {
    var frac := Floored(tmp);
    var diff := tmp - frac as real;
    if diff > 0.5 then
      if frac + 1 >= limit then Rounded(whole + 1, 0) else Rounded(whole, frac + 1)
    else if diff == 0.5 && (frac == 0 || frac % 2 == 1) then Rounded(whole, frac + 1)
    else Rounded(whole, frac)
  }

  function Floored(x: real): (n: nat)
    requires x >= 0.0
    ensures n as real <= x < n as real + 1.0
  {
    x.Floor
  }

  function Round(value: real, prec: nat): Rounded
    requires value >= 0.0
  {
    var r := RoundFraction(value, prec);
    if prec > 0 then r
    else
      var diff := value - r.whole as real;
      if diff > 0.5 || (diff == 0.5 && r.whole % 2 == 1) then Rounded(r.whole + 1, 0)
      else Rounded(r.whole, 0)
  }

  /** `frac` without its trailing zeros, and how many places are then left. */
  function Strip(frac: nat, places: int): (nat, int)
    requires frac > 0
  {
    if frac % 10 == 0 then Strip(frac / 10, places - 1) else (frac, places)
  }

  function Padded(frac: nat, places: int): seq<byte> {
    Zeros(places - |Digits(frac)|) + Digits(frac)
  }

  function Sign(neg: bool): seq<byte> {
    if neg then [DASH] else []
  }

  /** Text of `modp_dtoa`. */
  function DtoaText(value: real, prec: int): seq<byte> {
    var p := Clamp(prec);
    var r := Round(Abs(value), p);
    Sign(value < 0.0) + Digits(r.whole) + if p == 0 then [] else [DOT] + Padded(r.frac, p)
  }

  /** Text of `modp_dtoa2`. */
  function Dtoa2Text(value: real, prec: int): seq<byte> {
    var p := Clamp(prec);
    var r := Round(Abs(value), p);
    Sign(value < 0.0) + Digits(r.whole) +
    if p == 0 || r.frac == 0 then [] else
    var (f, places) := Strip(r.frac, p);
    [DOT] + Padded(f, places)
  }

  /** The number a decimal text `[-]digits[.digits]` denotes. */
  function TextValue(t: seq<byte>): real {
    if t != [] && t[0] == DASH then -UnsignedValue(t[1..]) else UnsignedValue(t)
  }

  function UnsignedValue(t: seq<byte>): real {
    var k := DigitRun(t);
    Value(t[..k]) as real +
    if k < |t| && t[k] == DOT then
      var f := t[k + 1..];
      var n := DigitRun(f);
      Value(f[..n]) as real / Pow10(n) as real
    else 0.0
  }

  // ---- what the texts denote

  function Number(r: Rounded, prec: nat): real {
    r.whole as real + r.frac as real / Pow10(prec) as real
  }

  /** The one rounding case without a carry: fraction 1 - 10^-prec / 2. */
  predicate Tie(value: real, prec: int) {
    var p, a := Clamp(prec), Abs(value);
    p > 0 && ScaledFraction(a, p) == Pow10(p) as real - 0.5
  }

  lemma PositiveProduct(x: real, y: real)
    requires x > 0.0 && y > 0.0
    ensures x * y > 0.0
  {
  }

  lemma MulBelow(d: real, q: real)
    requires 0.0 <= d < 1.0 && q > 0.0
    ensures 0.0 <= d * q < q
  {
    PositiveProduct(1.0 - d, q);
    assert (1.0 - d) * q == q - d * q;
    if d > 0.0 {
      PositiveProduct(d, q);
    }
  }

  lemma RoundScaledNear(whole: nat, tmp: real, limit: nat)
    requires 0.0 <= tmp < limit as real && limit >= 1
    ensures var r := RoundScaled(whole, tmp, limit);
      && r.frac <= limit
      && (r.whole == whole ==> -0.5 <= r.frac as real - tmp <= 0.5)
      && (r.whole != whole ==> r.whole == whole + 1 && r.frac == 0 && tmp >= limit as real - 0.5)
  {
  }

  /** Without a carry the fraction reaches `limit` exactly half a unit below it. */
  lemma RoundScaledTie(whole: nat, tmp: real, limit: nat)
    requires 0.0 <= tmp < limit as real && limit >= 1 && limit % 2 == 0
    ensures var r := RoundScaled(whole, tmp, limit);
      && (r.frac == limit <==> tmp == limit as real - 0.5)
      && (r.frac == limit ==> r.whole == whole)
  {
    var frac := Floored(tmp);
    if tmp == limit as real - 0.5 {
      assert frac == limit - 1;
    }
  }

  /** The fraction of `value`, in units of 10^-prec. */
  function ScaledFraction(value: real, prec: nat): real {
    (value - value.Floor as real) * Pow10(prec) as real
  }

  lemma ScaledFractionRange(value: real, prec: nat)
    ensures 0.0 <= ScaledFraction(value, prec) < Pow10(prec) as real
  {
    MulBelow(value - value.Floor as real, Pow10(prec) as real);
  }

  lemma OddBelowPow10(prec: nat)
    requires prec > 0
    ensures Pow10(prec) >= 10 && Pow10(prec) % 2 == 0
  {
    hide Pow10;
    var x := Pow10(prec - 1);
    TenTimesEven(x);
    assert Pow10(prec) == 10 * x by { Pow10Step(prec); }
  }

  lemma Pow10Step(k: nat)
    requires k > 0
    ensures Pow10(k) == 10 * Pow10(k - 1)
  {
  }

  lemma TenTimesEven(x: int)
    ensures 10 * x % 2 == 0
  {
    assert 10 * x == 2 * (5 * x);
  }

  /** The fraction reaches 10^prec, one digit too many, exactly in the tie case. */
  lemma TieIsOverflow(value: real, prec: nat)
    requires value >= 0.0 && 0 < prec <= 9
    ensures Round(value, prec).frac == Pow10(prec) <==> Tie(value, prec)
    ensures Tie(value, prec) ==> Round(value, prec).whole == value.Floor
  {
    ScaledFractionRange(value, prec);
    OddBelowPow10(prec);
    RoundScaledTie(value.Floor, ScaledFraction(value, prec), Pow10(prec));
  }

  lemma {:induction false} ZerosAreZero(k: nat)
    ensures |Zeros(k)| == k && AllDigits(Zeros(k)) && Value(Zeros(k)) == 0
  {
    if k > 0 {
      ZerosAreZero(k - 1);
      assert Zeros(k)[..k - 1] == Zeros(k - 1);
    }
  }

  lemma PrependZeros(k: nat, ds: seq<byte>)
    requires AllDigits(ds)
    ensures AllDigits(Zeros(k) + ds) && Value(Zeros(k) + ds) == Value(ds)
  {
    ZerosAreZero(k);
    ValueConcat(Zeros(k), ds);
    assert 0 * Pow10(|ds|) == 0;
  }

  lemma PaddedValue(frac: nat, places: nat)
    requires places >= 1 && frac < Pow10(places)
    ensures |Padded(frac, places)| == places && AllDigits(Padded(frac, places))
    ensures Value(Padded(frac, places)) == frac
  {
    DigitsLength(frac, places);
    ZerosAreZero(places - |Digits(frac)|);
    PrependZeros(places - |Digits(frac)|, Digits(frac));
    ValueOfDigits(frac);
  }

  lemma Pow10Split(i: nat, k: nat)
    requires i <= k
    ensures Pow10(k) == Pow10(k - i) * Pow10(i)
  {
    if i > 0 {
      Pow10Split(i - 1, k - 1);
      TenTimes(Pow10(k - i), Pow10(i - 1));
    }
  }

  lemma {:induction false} StripKeepsNumber(frac: nat, places: nat)
    requires 0 < frac < Pow10(places)
    ensures var (f, q) := Strip(frac, places);
      && f % 10 != 0 && 1 <= q <= places && 0 < f < Pow10(q)
      && f * Pow10(places - q) == frac
  {
    if frac % 10 == 0 {
      assert frac / 10 < Pow10(places - 1);
      StripKeepsNumber(frac / 10, places - 1);
      var (f, q) := Strip(frac / 10, places - 1);
      assert f * (10 * Pow10(places - 1 - q)) == 10 * (f * Pow10(places - 1 - q));
    }
  }

  lemma {:induction false} StripOfPow10(places: nat)
    ensures Strip(Pow10(places), places) == (1, 0)
  {
    if places > 0 {
      StripOfPow10(places - 1);
    }
  }

  lemma {:induction false} DigitsOfPow10(places: nat)
    ensures Digits(Pow10(places)) == [ZERO + 1] + Zeros(places)
  {
    if places > 0 {
      DigitsOfPow10(places - 1);
      assert Pow10(places) / 10 == Pow10(places - 1) && Pow10(places) % 10 == 0;
    }
  }

  /** Where the parts of a text with a point begin and end. */
  lemma DotParts(w: nat, ds: seq<byte>)
    requires AllDigits(ds)
    ensures var t, k := Digits(w) + [DOT] + ds, |Digits(w)|;
      && t[0] != DASH && t[k] == DOT && DigitRun(t) == k
      && t[..k] == Digits(w) && t[k + 1..] == ds && ds[..DigitRun(ds)] == ds
  {
    var t, k := Digits(w) + [DOT] + ds, |Digits(w)|;
    assert t[0] == Digits(w)[0] && t[k] == DOT;
    DigitRunUnique(t, k);
    DigitRunAll(ds);
  }

  lemma DotValue(w: nat, ds: seq<byte>)
    requires AllDigits(ds)
    ensures TextValue(Digits(w) + [DOT] + ds) == UnsignedValue(Digits(w) + [DOT] + ds)
    ensures UnsignedValue(Digits(w) + [DOT] + ds) == w as real + Value(ds) as real / Pow10(|ds|) as real
  {
    DotParts(w, ds);
    DigitRunAll(ds);
    ValueOfDigits(w);
  }

  lemma WholeValue(w: nat)
    ensures TextValue(Digits(w)) == UnsignedValue(Digits(w)) == w as real
  {
    DigitRunAll(Digits(w));
    assert Digits(w)[..|Digits(w)|] == Digits(w);
    ValueOfDigits(w);
  }

  lemma DigitRunAll(ds: seq<byte>)
    requires AllDigits(ds)
    ensures DigitRun(ds) == |ds|
  {
  }

  lemma SignedText(neg: bool, t: seq<byte>)
    requires t != [] && t[0] != DASH
    ensures TextValue(Sign(neg) + t) == if neg then -UnsignedValue(t) else UnsignedValue(t)
  {
    assert neg ==> (Sign(neg) + t)[1..] == t;
    assert !neg ==> Sign(neg) + t == t;
  }

  lemma CastMul(x: nat, y: nat)
    ensures (x * y) as real == x as real * y as real
  {
  }

  lemma Cancel(f: nat, a: nat, b: nat, c: nat)
    requires a > 0 && b > 0 && c == b * a
    ensures c > 0 && (f * a) as real / c as real == f as real / b as real
  {
    CastMul(f, a);
    CastMul(b, a);
    var x := f as real / b as real;
    assert x * b as real == f as real;
    PositiveProduct(b as real, a as real);
    assert x * (b as real * a as real) == (x * b as real) * a as real;
    Quotient((f * a) as real, x, c as real);
  }

  lemma Quotient(x: real, y: real, z: real)
    requires z > 0.0 && x == y * z
    ensures x / z == y
  {
  }

  lemma DivideOut(f: nat, i: nat, k: nat)
    requires i <= k
    ensures (f * Pow10(i)) as real / Pow10(k) as real == f as real / Pow10(k - i) as real
  {
    Pow10Split(i, k);
    Cancel(f, Pow10(i), Pow10(k - i), Pow10(k));
  }

  /** The unsigned part of each text, and the number it denotes. */
  lemma FractionText(r: Rounded, p: nat)
    requires p > 0 && r.frac < Pow10(p)
    ensures UnsignedValue(Digits(r.whole) + [DOT] + Padded(r.frac, p)) == Number(r, p)
    ensures r.frac > 0 ==> var (f, q) := Strip(r.frac, p);
      UnsignedValue(Digits(r.whole) + [DOT] + Padded(f, q)) == Number(r, p)
  {
    PaddedValue(r.frac, p);
    DotValue(r.whole, Padded(r.frac, p));
    if r.frac > 0 {
      StripKeepsNumber(r.frac, p);
      var (f, q) := Strip(r.frac, p);
      PaddedValue(f, q);
      DotValue(r.whole, Padded(f, q));
      DivideOut(f, p - q, p);
    }
  }

  /** In the tie case both texts read ".1" or ".10...0" after the uncarried whole part. */
  lemma OverflowText(w: nat, p: nat)
    requires p > 0
    ensures UnsignedValue(Digits(w) + [DOT] + Padded(Pow10(p), p)) == w as real + 0.1
    ensures Strip(Pow10(p), p) == (1, 0)
    ensures UnsignedValue(Digits(w) + [DOT] + Padded(1, 0)) == w as real + 0.1
  {
    OverflowPadded(p);
    DotValue(w, Digits(Pow10(p)));
    TenthOf(p);
    StripOfPow10(p);
    DotValue(w, Digits(1));
    TenthOf(0);
  }

  lemma OverflowPadded(p: nat)
    ensures Padded(Pow10(p), p) == Digits(Pow10(p)) && |Digits(Pow10(p))| == p + 1
    ensures Padded(1, 0) == Digits(1) && |Digits(1)| == 1
    ensures Value(Digits(Pow10(p))) == Pow10(p) && Value(Digits(1)) == 1 == Pow10(0)
  {
    DigitsOfPow10(p);
    ZerosAreZero(p);
    ValueOfDigits(Pow10(p));
    ValueOfDigits(1);
  }

  lemma TenthOf(p: nat)
    ensures Pow10(p) as real / Pow10(p + 1) as real == 0.1
  {
    DivideOut(1, p, p + 1);
    assert Pow10(1) == 10 * Pow10(0);
  }

  /** What both printers print for |value|: the rounded number, except in the tie case. */
  function Printed(a: real, p: nat): real
    requires a >= 0.0
  {
    var r := Round(a, p);
    if p == 0 then r.whole as real else if r.frac == Pow10(p) then r.whole as real + 0.1 else Number(r, p)
  }

  lemma DtoaDenotes(value: real, prec: int)
    ensures var v := Printed(Abs(value), Clamp(prec));
      TextValue(DtoaText(value, prec)) == if value < 0.0 then -v else v
  {
    var p := Clamp(prec);
    var r := Round(Abs(value), p);
    var t := Digits(r.whole) + if p == 0 then [] else [DOT] + Padded(r.frac, p);
    assert DtoaText(value, prec) == Sign(value < 0.0) + t;
    assert t[0] == Digits(r.whole)[0];
    SignedText(value < 0.0, t);
    if p == 0 {
      assert t == Digits(r.whole);
      WholeValue(r.whole);
    } else {
      assert t == Digits(r.whole) + [DOT] + Padded(r.frac, p);
      ScaledFractionRange(Abs(value), p);
      RoundScaledNear(Abs(value).Floor, ScaledFraction(Abs(value), p), Pow10(p));
      if r.frac == Pow10(p) { OverflowText(r.whole, p); } else { FractionText(r, p); }
    }
  }

  lemma Dtoa2Denotes(value: real, prec: int)
    ensures var v := Printed(Abs(value), Clamp(prec));
      TextValue(Dtoa2Text(value, prec)) == if value < 0.0 then -v else v
  {
    var p := Clamp(prec);
    var r := Round(Abs(value), p);
    if p == 0 || r.frac == 0 {
      assert Dtoa2Text(value, prec) == Sign(value < 0.0) + Digits(r.whole);
      SignedText(value < 0.0, Digits(r.whole));
      WholeValue(r.whole);
    } else {
      var (f, q) := Strip(r.frac, p);
      var t := Digits(r.whole) + [DOT] + Padded(f, q);
      assert Dtoa2Text(value, prec) == Sign(value < 0.0) + t;
      assert t[0] == Digits(r.whole)[0];
      SignedText(value < 0.0, t);
      ScaledFractionRange(Abs(value), p);
      RoundScaledNear(Abs(value).Floor, ScaledFraction(Abs(value), p), Pow10(p));
      if r.frac == Pow10(p) { OverflowText(r.whole, p); } else { FractionText(r, p); }
    }
  }

  /** Dropping trailing zeros does not change the number printed. */
  lemma SameNumber(value: real, prec: int)
    ensures TextValue(Dtoa2Text(value, prec)) == TextValue(DtoaText(value, prec))
  {
    DtoaDenotes(value, prec);
    Dtoa2Denotes(value, prec);
  }

  lemma PrintedNear(a: real, p: nat)
    requires a >= 0.0 && p <= 9
    ensures Abs(Printed(a, p) - a) <= 0.5 / Pow10(p) as real <==> !Tie(a, p)
  {
    if p > 0 {
      var r, w, tmp := Round(a, p), a.Floor, ScaledFraction(a, p);
      ScaledFractionRange(a, p);
      RoundScaledNear(w, tmp, Pow10(p));
      TieIsOverflow(a, p);
      OddBelowPow10(p);
      NearScaled(a, p, r.frac as real);
    }
  }

  lemma NearScaled(a: real, p: nat, frac: real)
    requires Pow10(p) >= 10
    ensures var w, q, tmp := a.Floor as real, Pow10(p) as real, ScaledFraction(a, p);
      && (-0.5 <= frac - tmp <= 0.5 ==> Abs(w + frac / q - a) <= 0.5 / q)
      && (q - 0.5 <= tmp < q ==> Abs(w + 1.0 + 0.0 / q - a) <= 0.5 / q)
      && (tmp == q - 0.5 ==> Abs(w + 0.1 - a) > 0.5 / q)
  {
    NearBy(a, a.Floor as real, Pow10(p) as real, ScaledFraction(a, p), frac);
  }

  /** The distance of each possible result from `a`, given the scaled fraction `tmp`. */
  lemma NearBy(a: real, w: real, q: real, tmp: real, frac: real)
    requires q >= 10.0 && (a - w) * q == tmp
    ensures -0.5 <= frac - tmp <= 0.5 ==> Abs(w + frac / q - a) <= 0.5 / q
    ensures q - 0.5 <= tmp < q ==> Abs(w + 1.0 + 0.0 / q - a) <= 0.5 / q
    ensures tmp == q - 0.5 ==> Abs(w + 0.1 - a) > 0.5 / q
  {
    var x := frac / q;
    assert x * q == frac;
    assert (w + x - a) * q == x * q - (a - w) * q;
    ScaledBound(w + x - a, q, frac - tmp);
    assert (w + 1.0 - a) * q == q - (a - w) * q;
    ScaledBound(w + 1.0 - a, q, q - tmp);
    if tmp == q - 0.5 {
      TieError(a - w, q);
    }
  }

  lemma TieError(f: real, q: real)
    requires q >= 10.0 && f * q == q - 0.5
    ensures f - 0.1 > 0.5 / q
  {
    var h := 0.5 / q;
    assert h * q == 0.5;
    assert (f + h - 1.0) * q == 0.0;
    assert f == 1.0 - h;
    assert (q - 10.0) * h >= 0.0;
  }

  lemma ScaledBound(e: real, q: real, scaled: real)
    requires q > 0.0 && e * q == scaled
    ensures -0.5 <= scaled <= 0.5 ==> Abs(e) <= 0.5 / q
  {
    var h := 0.5 / q;
    assert h * q == 0.5;
    WithinHalf(e, q, h);
  }

  lemma WithinHalf(e: real, q: real, h: real)
    requires q > 0.0 && h * q == 0.5
    ensures -0.5 <= e * q <= 0.5 ==> -h <= e <= h
  {
    if e > h {
      PositiveProduct(e - h, q);
      assert (e - h) * q == e * q - h * q;
    } else if -e > h {
      PositiveProduct(-e - h, q);
      assert (-e - h) * q == -(e * q) - h * q;
    }
  }

  /** The printed number is within half a unit of the last place exactly outside the tie case. */
  lemma RoundingBound(value: real, prec: int)
    ensures Abs(TextValue(Dtoa2Text(value, prec)) - value) <= 0.5 / Pow10(Clamp(prec)) as real <==> !Tie(value, prec)
    ensures Clamp(prec) == if prec <= 0 then 0 else if prec < 9 then prec else 9
  {
    var a, p := Abs(value), Clamp(prec);
    Dtoa2Denotes(value, prec);
    PrintedNear(a, p);
    assert Tie(value, prec) <==> Tie(a, p);
    assert Abs(TextValue(Dtoa2Text(value, prec)) - value) == Abs(Printed(a, p) - a);
  }

  /** 0.95 with one place is printed as 0.1. */
  lemma TieExample()
    ensures Tie(0.95, 1) && TextValue(Dtoa2Text(0.95, 1)) == 0.1
  {
    assert Pow10(1) == 10 * Pow10(0);
    assert 0.95.Floor == 0;
    Dtoa2Denotes(0.95, 1);
    TieIsOverflow(0.95, 1);
  }

  /** A text with a decimal point ends in a digit other than zero. */
  lemma NoTrailingZero(value: real, prec: int)
    ensures var t := Dtoa2Text(value, prec);
      DOT in t ==> t[|t| - 1] != ZERO && IsDigit(t[|t| - 1])
  {
    var t, p := Dtoa2Text(value, prec), Clamp(prec);
    var r := Round(Abs(value), p);
    if p == 0 || r.frac == 0 {
      assert t == Sign(value < 0.0) + Digits(r.whole);
      assert DOT !in Digits(r.whole);
    } else {
      var (f, q) := Strip(r.frac, p);
      StripEndsNonzero(r.frac, p);
      assert t[|t| - 1] == Digits(f)[|Digits(f)| - 1] == ZERO + f % 10;
    }
  }

  lemma {:induction false} StripEndsNonzero(frac: nat, places: int)
    requires frac > 0
    ensures Strip(frac, places).0 % 10 != 0
  {
    if frac % 10 == 0 {
      StripEndsNonzero(frac / 10, places - 1);
    }
  }
}
