/** `modp_dtoa` and `modp_dtoa2` writing through a moving position, then reversing in place. */
module ModpPrint {
  import opened Bytes
  import opened Decimal
  import opened Atoi
  import opened Itoa
  import opened Modp

  lemma RevConcat(s: seq<byte>, t: seq<byte>)
    ensures Rev(s + t) == Rev(t) + Rev(s)
  {
  }

  lemma RevZeros(k: nat)
    ensures Rev(Zeros(k)) == Zeros(k) && |Zeros(k)| == k
  {
    ZerosAreZero(k);
    AllZeros(k);
  }

  lemma AllZeros(k: nat)
    ensures forall i :: 0 <= i < |Zeros(k)| ==> Zeros(k)[i] == ZERO
  {
  }

  method RoundParts(value: real, prec: nat) returns (whole: nat, frac: nat)
    requires value >= 0.0
    ensures whole == Round(value, prec).whole
    ensures prec > 0 ==> frac == Round(value, prec).frac
  {
    ScaledFractionRange(value, prec);
    whole := value.Floor;
    var tmp := (value - whole as real) * Pow10(prec) as real;
    assert tmp == ScaledFraction(value, prec);
    frac := tmp.Floor;
    assert frac == Floored(tmp);
    var diff := tmp - frac as real;
    if diff > 0.5 {
      frac := frac + 1;
      if frac >= Pow10(prec) {
        frac := 0;
        whole := whole + 1;
      }
    } else if diff == 0.5 && (frac == 0 || frac % 2 == 1) {
      frac := frac + 1;
    }
    assert Rounded(whole, frac) == RoundFraction(value, prec);
    if prec == 0 {
      diff := value - whole as real;
      if diff > 0.5 {
        whole := whole + 1;
      } else if diff == 0.5 && whole % 2 == 1 {
        whole := whole + 1;
      }
    }
  }

  /** Least significant digit first. */
  method EmitReversed(v0: nat, s: array<byte>, at: nat) returns (w: nat)
    requires at + |Digits(v0)| <= s.Length
    modifies s
    ensures w == at + |Digits(v0)|
    ensures Wrote(s[..], old(s[..]), at, Rev(Digits(v0)))
  {
    hide Digits;
    ghost var r := Rev(Digits(v0));
    var v := v0;
    w := at;
    FirstOfRev(v0, v0, 0);
    s[w], w, v := ZERO + v % 10, w + 1, v / 10;
    while v != 0
      invariant 1 <= w - at <= |r|
      invariant v == 0 <==> w - at == |r|
      invariant v != 0 ==> Rev(Digits(v)) == r[w - at..]
      invariant forall i :: 0 <= i < w - at ==> s[at + i] == r[i]
      invariant forall i :: 0 <= i < s.Length && !(at <= i < w) ==> s[i] == old(s[i])
    {
      FirstOfRev(v0, v, w - at);
      s[w], w, v := ZERO + v % 10, w + 1, v / 10;
    }
  }

  /** What is left to write of `v0` after `k` digits starts with the last digit of `v`. */
  lemma FirstOfRev(v0: nat, v: nat, k: nat)
    requires k < |Digits(v0)| && Rev(Digits(v)) == Rev(Digits(v0))[k..]
    ensures Rev(Digits(v0))[k] == ZERO + v % 10
    ensures if v < 10 then k + 1 == |Digits(v0)| else Rev(Digits(v / 10)) == Rev(Digits(v0))[k + 1..]
  {
    assert Rev(Digits(v0))[k] == Rev(Digits(v))[0];
    assert Rev(Digits(v0))[k + 1..] == Rev(Digits(v))[1..];
    if v >= 10 {
      RevConcat(Digits(v / 10), [ZERO + v % 10]);
    }
  }

  method EmitZeros(count0: int, s: array<byte>, at: nat) returns (w: nat)
    requires at + (if count0 > 0 then count0 else 0) <= s.Length
    modifies s
    ensures w == at + |Zeros(count0)|
    ensures Wrote(s[..], old(s[..]), at, Rev(Zeros(count0)))
  {
    var count := count0;
    w := at;
    while count > 0
      invariant w == at + (if count0 > 0 then count0 - count else 0)
      invariant count0 > 0 ==> 0 <= count <= count0
      invariant count0 <= 0 ==> count == count0
      invariant forall i :: at <= i < w ==> s[i] == ZERO
      invariant forall i :: 0 <= i < s.Length && !(at <= i < w) ==> s[i] == old(s[i])
    {
      s[w], w, count := ZERO, w + 1, count - 1;
    }
    if count0 > 0 {
      RevZeros(count0);
      AllZeros(count0);
    }
  }

  /** `done` stands at `start`, and `at` is the next free position. */
  ghost predicate Ready(s: seq<byte>, before: seq<byte>, start: nat, done: seq<byte>, at: nat) {
    at == start + |done| && Wrote(s, before, start, done)
  }

  method PutByte(b: byte, s: array<byte>, at: nat, ghost before: seq<byte>, ghost start: nat, ghost done: seq<byte>)
    requires Ready(s[..], before, start, done, at) && at < s.Length
    modifies s
    ensures Ready(s[..], before, start, done + [b], at + 1)
  {
    ghost var was := s[..];
    s[at] := b;
    WroteTwice(s[..], was, before, start, done, [b]);
  }

  /** The fraction backwards: its digits, the padding zeros, the point. */
  method EmitFraction(frac: nat, places: int, s: array<byte>, at: nat) returns (w: nat)
    requires at + 1 + |Padded(frac, places)| <= s.Length
    modifies s
    ensures Ready(s[..], old(s[..]), at, Rev([DOT] + Padded(frac, places)), w)
  {
    ghost var a := s[..];
    w := EmitReversed(frac, s, at);
    var count := places - (w - at);
    w := EmitPadding(count, s, w, a, at, Rev(Digits(frac)));
    RevConcat(Zeros(count), Digits(frac));
    PutByte(DOT, s, w, a, at, Rev(Padded(frac, places)));
    RevConcat([DOT], Padded(frac, places));
    assert Rev([DOT]) == [DOT];
    w := w + 1;
  }

  method EmitPadding(count: int, s: array<byte>, at: nat,
                     ghost before: seq<byte>, ghost start: nat, ghost done: seq<byte>)
    returns (w: nat)
    requires Ready(s[..], before, start, done, at) && at + |Zeros(count)| <= s.Length
    modifies s
    ensures Ready(s[..], before, start, done + Rev(Zeros(count)), w)
  {
    if count > 0 {
      RevZeros(count);
    }
    ghost var was := s[..];
    w := EmitZeros(count, s, at);
    WroteTwice(s[..], was, before, start, done, Rev(Zeros(count)));
  }

  /** The whole part and the sign, backwards, after an already written fraction. */
  method EmitWhole(whole: nat, neg: bool, s: array<byte>, at: nat,
                   ghost before: seq<byte>, ghost start: nat, ghost done: seq<byte>)
    returns (w: nat)
    requires Ready(s[..], before, start, Rev(done), at)
    requires at + |Digits(whole)| + |Sign(neg)| <= s.Length
    modifies s
    ensures Ready(s[..], before, start, Rev(Sign(neg) + Digits(whole) + done), w)
  {
    ghost var was := s[..];
    w := EmitReversed(whole, s, at);
    WroteTwice(s[..], was, before, start, Rev(done), Rev(Digits(whole)));
    RevConcat(Digits(whole), done);
    ghost var sofar := Digits(whole) + done;
    assert Sign(neg) + Digits(whole) + done == Sign(neg) + sofar;
    if neg {
      PutByte(DASH, s, w, before, start, Rev(sofar));
      RevConcat([DASH], sofar);
      assert Rev([DASH]) == [DASH];
      w := w + 1;
    } else {
      assert Sign(neg) + sofar == sofar;
    }
  }

  method StrReverse(s: array<byte>, begin0: nat, end0: int)
    requires begin0 <= end0 + 1 <= s.Length
    modifies s
    ensures forall i :: begin0 <= i <= end0 ==> s[i] == old(s[begin0 + end0 - i])
    ensures forall i :: 0 <= i < s.Length && !(begin0 <= i <= end0) ==> s[i] == old(s[i])
  {
    var begin, end := begin0, end0;
    while end > begin
      invariant begin0 <= begin && end <= end0 && begin - begin0 == end0 - end
      invariant forall i :: begin0 <= i <= end0 && !(begin <= i <= end) ==> s[i] == old(s[begin0 + end0 - i])
      invariant forall i :: begin <= i <= end ==> s[i] == old(s[i])
      invariant forall i :: 0 <= i < s.Length && !(begin0 <= i <= end0) ==> s[i] == old(s[i])
    {
      var aux := s[end];
      s[end] := s[begin];
      s[begin] := aux;
      end, begin := end - 1, begin + 1;
    }
  }

  /** Turns the text round. */
  method Turn(s: array<byte>, at: nat, w: nat, ghost before: seq<byte>, ghost text: seq<byte>)
    requires text != [] && Ready(s[..], before, at, Rev(text), w)
    modifies s
    ensures Wrote(s[..], before, at, text)
  {
    ghost var b := s[..];
    StrReverse(s, at, w - 1);
    forall i | 0 <= i < |text| ensures s[at + i] == text[i] {
      assert s[at + i] == b[at + (|text| - 1 - i)] == Rev(text)[|text| - 1 - i];
    }
  }

  /** Ends the text with a NUL and turns it round. */
  method Finish(s: array<byte>, at: nat, w: nat, ghost before: seq<byte>, ghost text: seq<byte>)
    requires text != [] && w < s.Length
    requires Ready(s[..], before, at, Rev(text), w)
    modifies s
    ensures Wrote(s[..], before, at, text + [NUL])
  {
    ghost var mid := before[w := NUL];
    s[w] := NUL;
    Turn(s, at, w, mid, text);
    assert Wrote(s[..], before, at, text + [NUL]);
  }

  method Dtoa(value0: real, str: array<byte>, at: nat, prec0: int) returns (len: nat)
    requires Abs(value0) <= THRES_MAX
    requires at + |DtoaText(value0, prec0)| < str.Length
    modifies str
    ensures len == |DtoaText(value0, prec0)|
    ensures Wrote(str[..], old(str[..]), at, DtoaText(value0, prec0) + [NUL])
  {
    var prec := if prec0 < 0 then 0 else if prec0 > 9 then 9 else prec0;
    var neg := value0 < 0.0;
    var value := if neg then -value0 else value0;
    var whole, frac := RoundParts(value, prec);
    ghost var before, text := str[..], DtoaText(value0, prec0);
    ghost var tail := if prec == 0 then [] else [DOT] + Padded(frac, prec);
    assert text == Sign(neg) + Digits(whole) + tail;
    var w := at;
    if prec != 0 {
      w := EmitFraction(frac, prec, str, at);
    }
    w := EmitWhole(whole, neg, str, w, before, at, tail);
    Finish(str, at, w, before, text);
    len := w - at;
  }

  method Dtoa2(value0: real, str: array<byte>, at: nat, prec0: int) returns (len: nat)
    requires Abs(value0) <= THRES_MAX
    requires at + |Dtoa2Text(value0, prec0)| < str.Length
    modifies str
    ensures len == |Dtoa2Text(value0, prec0)|
    ensures Wrote(str[..], old(str[..]), at, Dtoa2Text(value0, prec0) + [NUL])
  {
    var prec := if prec0 < 0 then 0 else if prec0 > 9 then 9 else prec0;
    var neg := value0 < 0.0;
    var value := if neg then -value0 else value0;
    var whole, frac := RoundParts(value, prec);
    ghost var before, text, tail := str[..], Dtoa2Text(value0, prec0), [];
    var w := at;
    if prec != 0 && frac != 0 {
      var count: int := prec;
      ghost var stripped := Strip(frac, prec);
      while frac % 10 == 0
        invariant frac > 0 && Strip(frac, count) == stripped
        decreases frac
      {
        count := count - 1;
        frac := frac / 10;
      }
      tail := [DOT] + Padded(frac, count);
      assert text == Sign(neg) + Digits(whole) + tail;
      w := EmitFraction(frac, count, str, at);
    }
    assert text == Sign(neg) + Digits(whole) + tail;
    w := EmitWhole(whole, neg, str, w, before, at, tail);
    Finish(str, at, w, before, text);
    len := w - at;
  }

  // ---- integers

  /** The text of a signed number, filled up with zeros after the sign to `zpad` characters. */
  function ZpadText(value: int, zpad: int): seq<byte> {
    var ds := Digits(if value < 0 then -value else value);
    Sign(value < 0) + (Zeros(zpad - |ds| - |Sign(value < 0)|) + ds)
  }

  method Litoa(value: int, str: array<byte>, at: nat) returns (len: nat)
    requires -TWO_63 <= value < TWO_63 && at + |SignedDigits(value)| < str.Length
    modifies str
    ensures len == |SignedDigits(value)|
    ensures Wrote(str[..], old(str[..]), at, SignedDigits(value) + [NUL])
  {
    ghost var before, text := str[..], SignedDigits(value);
    var uvalue := if value < 0 then -value else value;
    assert Rev([]) == [] && Sign(value < 0) + Digits(uvalue) + [] == text;
    var w := EmitWhole(uvalue, value < 0, str, at, before, at, []);
    Finish(str, at, w, before, text);
    len := w - at;
  }

  /** `i64toa`: beyond an `int` it goes through the C library, which writes the same text and a NUL. */
  method PrintInt64(n: int, s: array<byte>, at: nat) returns (len: nat, ghost end: seq<byte>)
    requires -TWO_63 <= n < TWO_63 && at + |SignedDigits(n)| < s.Length
    modifies s
    ensures len == |SignedDigits(n)| && end == if -TWO_31 <= n < TWO_31 then [] else [NUL]
    ensures Wrote(s[..], old(s[..]), at, SignedDigits(n) + end)
  {
    hide SignedDigits;
    if n >= TWO_31 || n < -TWO_31 {
      len := Litoa(n, s, at);
      end := [NUL];
    } else {
      assert SignedDigits(n) + [] == SignedDigits(n);
      len := PrintInt(n, s, at);
      end := [];
    }
  }

  method LitoaZpad(value: int, zpad: int, str: array<byte>, at: nat) returns (len: nat)
    requires -TWO_63 <= value < TWO_63 && at + |ZpadText(value, zpad)| <= str.Length
    modifies str
    ensures len == |ZpadText(value, zpad)|
    ensures Wrote(str[..], old(str[..]), at, ZpadText(value, zpad))
  {
    hide Digits;
    ghost var before, text := str[..], ZpadText(value, zpad);
    var uvalue := if value < 0 then -value else value;
    ghost var ds := Digits(uvalue);
    var w := EmitReversed(uvalue, str, at);
    var pad := zpad - (w - at + if value < 0 then 1 else 0);
    RevConcat(Zeros(pad), ds);
    w := EmitPadding(pad, str, w, before, at, Rev(ds));
    if value < 0 {
      PutByte(DASH, str, w, before, at, Rev(Zeros(pad) + ds));
      RevConcat([DASH], Zeros(pad) + ds);
      assert Rev([DASH]) == [DASH];
      w := w + 1;
    } else {
      assert text == Zeros(pad) + ds;
    }
    Turn(str, at, w, before, text);
    len := w - at;
  }

  lemma MagnitudeOf(body: seq<byte>, rest: seq<byte>)
    requires AllDigits(body) && rest != [] && !IsDigit(rest[0])
    ensures Magnitude64(body + rest) == Wrap64(Value(body))
  {
    hide Value, Wrap64;
    var s := body + rest;
    assert s[..|body|] == body;
    assert forall i :: 0 <= i < |body| ==> s[i] == body[i];
    DigitRunUnique(s, |body|);
  }

  lemma SignedReading(neg: bool, body: seq<byte>, rest: seq<byte>)
    requires AllDigits(body) && body != [] && rest != [] && !IsDigit(rest[0])
    ensures Atoi64Of(Sign(neg) + body + rest) == if neg then Wrap64(-Wrap64(Value(body))) else Wrap64(Value(body))
  {
    hide Value, Wrap64, Magnitude64;
    MagnitudeOf(body, rest);
    var u := Sign(neg) + body + rest;
    if neg {
      assert u[0] == DASH && u[1..] == body + rest;
    } else {
      assert u == body + rest && u[0] == body[0];
    }
  }

  /** Padding gives the width asked for, unless the number is wider, and `fix_atoi64` reads the number back. */
  lemma ZpadReadsBack(value: int, zpad: int, rest: seq<byte>)
    requires -TWO_63 <= value < TWO_63 && rest != [] && !IsDigit(rest[0])
    ensures |ZpadText(value, zpad)| == if zpad > |SignedDigits(value)| then zpad else |SignedDigits(value)|
    ensures Atoi64Of(ZpadText(value, zpad) + rest) == value
  {
    hide Digits, Value, Wrap64, Atoi64Of;
    var n := if value < 0 then -value else value;
    var ds, sign := Digits(n), Sign(value < 0);
    var pad := zpad - |ds| - |sign|;
    var z := if pad > 0 then pad else 0;
    ZerosAreZero(z);
    assert Zeros(pad) == Zeros(z);
    PrependZeros(z, ds);
    ValueOfDigits(n);
    SignedReading(value < 0, Zeros(z) + ds, rest);
    Wrap64Negate(value);
    Wrap64Negate(n);
  }
}
