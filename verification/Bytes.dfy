/** Bytes of a C `char` buffer, and the few ASCII codes the wire format uses. */
module Bytes {
  type byte = x: int | 0 <= x < 256

  const NUL: byte := 0
  const SOH: byte := 1
  const DASH: byte := 45
  const DOT: byte := 46
  const ZERO: byte := 48
  const NINE: byte := 57
  const EQ: byte := 61

  predicate IsDigit(b: byte) {
    ZERO <= b <= NINE
  }

  predicate AllDigits(s: seq<byte>) {
    forall i :: 0 <= i < |s| ==> IsDigit(s[i])
  }

  /** The value of a byte read through a signed `char`. */
  function SignedChar(b: byte): int {
    if b < 128 then b else b - 256
  }

  function ByteSum(s: seq<byte>): nat {
    if s == [] then 0 else ByteSum(s[..|s| - 1]) + s[|s| - 1]
  }

  lemma {:induction false} ByteSumConcat(s: seq<byte>, t: seq<byte>)
    ensures ByteSum(s + t) == ByteSum(s) + ByteSum(t)
  {
    if t == [] {
      assert s + t == s;
    } else {
      ByteSumConcat(s, t[..|t| - 1]);
      assert (s + t)[..|s + t| - 1] == s + t[..|t| - 1];
    }
  }

  /** Replacing one byte moves the sum by the difference of the two bytes. */
  lemma ByteSumUpdate(s: seq<byte>, i: nat, b: byte)
    requires i < |s|
    ensures ByteSum(s[i := b]) == ByteSum(s) - s[i] + b
  {
    var l, r := s[..i], s[i + 1..];
    assert s == l + ([s[i]] + r) && s[i := b] == l + ([b] + r);
    ByteSumConcat(l, [s[i]] + r);
    ByteSumConcat([s[i]], r);
    ByteSumConcat(l, [b] + r);
    ByteSumConcat([b], r);
    assert [s[i]][..0] == [] && [b][..0] == [];
  }

  /** The bytes of an ASCII literal. */
  function Ascii(s: string): (r: seq<byte>)
    ensures |r| == |s|
  {
    if s == "" then []
    else [if s[0] < 128 as char then s[0] as int else 63] + Ascii(s[1..])
  }
}
