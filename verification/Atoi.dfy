/** The decimal readers of src/libtrading/proto/fix_message.c, including their integer widths. */
module Atoi {
  import opened Bytes
  import opened Decimal

  const TWO_31: int := 0x8000_0000
  const TWO_32: int := 0x1_0000_0000
  const TWO_63: int := 0x8000_0000_0000_0000
  const TWO_64: int := 0x1_0000_0000_0000_0000

  /** Reduction to a two's-complement `int`. */
  function Wrap32(x: int): int {
    (x + TWO_31) % TWO_32 - TWO_31
  }

  /** Reduction to a two's-complement `int64_t`. */
  function Wrap64(x: int): int {
    (x + TWO_63) % TWO_64 - TWO_63
  }

  lemma Wrap32Step(a: int, d: int)
    ensures Wrap32(Wrap32(a) * 10 + d) == Wrap32(a * 10 + d)
  {
    var k := (a + TWO_31) / TWO_32;
    assert Wrap32(a) == a - k * TWO_32;
    assert Wrap32(a) * 10 + d + TWO_31 == (a * 10 + d + TWO_31) - (k * 10) * TWO_32;
  }

  lemma Wrap64Step(a: int, d: int)
    ensures Wrap64(Wrap64(a) * 10 + d) == Wrap64(a * 10 + d)
  {
    var k := (a + TWO_63) / TWO_64;
    assert Wrap64(a) == a - k * TWO_64;
    assert Wrap64(a) * 10 + d + TWO_63 == (a * 10 + d + TWO_63) - (k * 10) * TWO_64;
  }

  /** How many digits stand at the head of `s`. */
  function DigitRun(s: seq<byte>): (k: nat)
    ensures k <= |s|
    ensures forall i :: 0 <= i < k ==> IsDigit(s[i])
    ensures k < |s| ==> !IsDigit(s[k])
  {
    if s == [] || !IsDigit(s[0]) then 0 else 1 + DigitRun(s[1..])
  }

  lemma DigitRunUnique(s: seq<byte>, k: nat)
    requires k < |s| && !IsDigit(s[k])
    requires forall i :: 0 <= i < k ==> IsDigit(s[i])
    ensures DigitRun(s) == k
  {
    var r := DigitRun(s);
    assert r == k || r < k || k < r;
  }

  lemma ValueSnoc(s: seq<byte>, k: nat)
    requires k < |s| && forall i :: 0 <= i <= k ==> IsDigit(s[i])
    ensures Value(s[..k + 1]) == Value(s[..k]) * 10 + (s[k] - ZERO)
  {
    assert s[..k + 1][..k] == s[..k];
  }

  /** What `fix_uatoi` returns on text that starts with `s`. */
  function UatoiOf(s: seq<byte>): int {
    Wrap32(Value(s[..DigitRun(s)]))
  }

  /** The digits at the head of `s`, accumulated in an `int64_t`. */
  function Magnitude64(s: seq<byte>): int {
    Wrap64(Value(s[..DigitRun(s)]))
  }

  /** What `fix_atoi64` returns on text that starts with `s`. */
  function Atoi64Of(s: seq<byte>): int {
    if s != [] && s[0] == DASH then Wrap64(-Magnitude64(s[1..])) else Magnitude64(s)
  }

  /** The decimal text of a signed number. */
  function SignedDigits(n: int): seq<byte> {
    if n < 0 then [DASH] + Digits(-n) else Digits(n)
  }

  method FixUatoi(a: array<byte>, p: nat, ghost limit: nat) returns (ret: int, end: nat)
    requires p <= limit <= a.Length
    requires DigitRun(a[p..limit]) < limit - p
    ensures end == p + DigitRun(a[p..limit])
    ensures ret == UatoiOf(a[p..limit])
  {
    ghost var s := a[p..limit];
    ret, end := 0, p;
    while ZERO <= a[end] <= NINE
      invariant p <= end <= p + DigitRun(s)
      invariant forall i :: 0 <= i < end - p ==> IsDigit(s[i])
      invariant ret == Wrap32(Value(s[..end - p]))
      decreases limit - end
    {
      assert a[end] == s[end - p];
      ValueSnoc(s, end - p);
      Wrap32Step(Value(s[..end - p]), a[end] - ZERO);
      ret := Wrap32(ret * 10 + (a[end] - ZERO));
      end := end + 1;
    }
    assert a[end] == s[end - p];
    DigitRunUnique(s, end - p);
  }

  /** `ret` is the 64-bit reading of the first `k` bytes, all digits. */
  ghost predicate Reads64(s: seq<byte>, k: nat, ret: int) {
    k <= |s| && AllDigits(s[..k]) && ret == Wrap64(Value(s[..k]))
  }

  lemma Reads64Step(s: seq<byte>, k: nat, ret: int)
    requires Reads64(s, k, ret) && k < |s| && IsDigit(s[k])
    ensures Reads64(s, k + 1, Wrap64(ret * 10 + (s[k] - ZERO)))
  {
    assert forall i :: 0 <= i < k ==> s[i] == s[..k][i];
    ValueSnoc(s, k);
    Wrap64Step(Value(s[..k]), s[k] - ZERO);
  }

  lemma Reads64Done(s: seq<byte>, k: nat, ret: int)
    requires Reads64(s, k, ret) && k < |s| && !IsDigit(s[k])
    ensures ret == Magnitude64(s)
  {
    assert forall i :: 0 <= i < k ==> s[i] == s[..k][i];
    DigitRunUnique(s, k);
  }

  lemma Atoi64Cases(s: seq<byte>, from: nat, v: int)
    requires s != [] && from == (if s[0] == DASH then 1 else 0)
    requires v == Magnitude64(s[from..])
    ensures Atoi64Of(s) == if from == 1 then Wrap64(-v) else v
  {
    assert s[0..] == s;
  }

  method FixAtoi64(a: array<byte>, start: nat, ghost limit: nat) returns (ret: int)
    requires start < limit <= a.Length && a[limit - 1] == SOH
    ensures ret == Atoi64Of(a[start..limit])
  {
    hide Magnitude64, Atoi64Of;
    var p := start;
    ret := 0;
    var neg := false;
    if a[p] == DASH {
      neg := true;
      p := p + 1;
    }
    ghost var from, s := p, a[p..limit];
    assert s == a[start..limit][from - start..];
    assert s[|s| - 1] == SOH;
    while ZERO <= a[p] <= NINE
      invariant from <= p < limit
      invariant Reads64(s, p - from, ret)
      decreases limit - p
    {
      assert a[p] == s[p - from];
      Reads64Step(s, p - from, ret);
      ret := Wrap64(ret * 10 + (a[p] - ZERO));
      p := p + 1;
    }
    assert a[p] == s[p - from];
    Reads64Done(s, p - from, ret);
    Atoi64Cases(a[start..limit], from - start, ret);
    if neg {
      ret := Wrap64(-ret);
    }
  }

  /** Reading a number back from its canonical digits, whatever follows them. */
  lemma UatoiReadsDigits(n: nat, rest: seq<byte>)
    requires rest != [] && !IsDigit(rest[0])
    ensures DigitRun(Digits(n) + rest) == |Digits(n)|
    ensures UatoiOf(Digits(n) + rest) == Wrap32(n)
    ensures UatoiOf(Digits(n) + rest) == n <==> n < TWO_31
  {
    var s := Digits(n) + rest;
    assert s[..|Digits(n)|] == Digits(n);
    DigitRunUnique(s, |Digits(n)|);
    ValueOfDigits(n);
  }

  lemma Magnitude64OfDigits(n: nat, rest: seq<byte>)
    requires rest != [] && !IsDigit(rest[0])
    ensures Magnitude64(Digits(n) + rest) == Wrap64(n)
  {
    var s := Digits(n) + rest;
    assert s[..|Digits(n)|] == Digits(n);
    DigitRunUnique(s, |Digits(n)|);
    ValueOfDigits(n);
  }

  lemma Atoi64OfSigned(n: int, rest: seq<byte>)
    requires rest != [] && !IsDigit(rest[0])
    ensures Atoi64Of(SignedDigits(n) + rest) == if n < 0 then Wrap64(-Wrap64(-n)) else Wrap64(n)
  {
    hide Digits, Magnitude64, Wrap64;
    var s := SignedDigits(n) + rest;
    if n < 0 {
      assert s[1..] == Digits(-n) + rest && s[0] == DASH;
      Magnitude64OfDigits(-n, rest);
    } else {
      assert s == Digits(n) + rest && s[0] == Digits(n)[0];
      Magnitude64OfDigits(n, rest);
    }
  }

  lemma Wrap64Negate(n: int)
    ensures Wrap64(n) == n <==> -TWO_63 <= n < TWO_63
    ensures n >= 0 ==> (Wrap64(-Wrap64(n)) == -n <==> n <= TWO_63)
  {
    var k := (n + TWO_63) / TWO_64;
    assert Wrap64(n) == n - k * TWO_64;
  }

  lemma Atoi64ReadsDigits(n: int, rest: seq<byte>)
    requires rest != [] && !IsDigit(rest[0])
    ensures Atoi64Of(SignedDigits(n) + rest) == n <==> -TWO_63 <= n < TWO_63
  {
    hide SignedDigits, Atoi64Of, Wrap64;
    Atoi64OfSigned(n, rest);
    Wrap64Negate(n);
    Wrap64Negate(-n);
  }
}
