/** The reference meaning of decimal text, against which the printers and readers are proved. */
module Decimal {
  import opened Bytes

  /** The canonical decimal digits of `n`: no leading zero, "0" for zero. */
  function Digits(n: nat): (r: seq<byte>)
    ensures r != [] && AllDigits(r)
    ensures n > 0 ==> r[0] != ZERO
  {
    if n < 10 then [ZERO + n] else Digits(n / 10) + [ZERO + n % 10]
  }

  /** The number a string of digits denotes. */
  function Value(ds: seq<byte>): nat
    requires AllDigits(ds)
  {
    if ds == [] then 0 else Value(ds[..|ds| - 1]) * 10 + (ds[|ds| - 1] - ZERO)
  }

  function Pow10(k: nat): (r: nat)
    ensures r >= 1
  {
    if k == 0 then 1 else 10 * Pow10(k - 1)
  }

  lemma {:induction false} ValueOfDigits(n: nat)
    ensures Value(Digits(n)) == n
  {
    if n >= 10 {
      ValueOfDigits(n / 10);
      assert Digits(n)[..|Digits(n)| - 1] == Digits(n / 10);
    } else {
      assert Digits(n)[..0] == [];
    }
  }

  /** Digits is the only text without a superfluous leading zero that denotes its number. */
  lemma {:induction false} DigitsOfValue(ds: seq<byte>)
    requires ds != [] && AllDigits(ds) && (ds[0] != ZERO || |ds| == 1)
    ensures Digits(Value(ds)) == ds
  {
    var front, last := ds[..|ds| - 1], ds[|ds| - 1] - ZERO;
    if front == [] {
      assert Value(ds) == last;
    } else {
      DigitsOfValue(front);
      ValuePositive(front);
      assert Value(ds) / 10 == Value(front) && Value(ds) % 10 == last;
      assert ds == front + [ds[|ds| - 1]];
    }
  }

  lemma {:induction false} ValuePositive(ds: seq<byte>)
    requires ds != [] && AllDigits(ds) && ds[0] != ZERO
    ensures Value(ds) > 0
  {
    if |ds| > 1 {
      ValuePositive(ds[..|ds| - 1]);
    }
  }

  lemma TenTimes(v: int, p: int)
    ensures v * (10 * p) == (v * p) * 10
  {
  }

  lemma {:induction false} ValueConcat(s: seq<byte>, t: seq<byte>)
    requires AllDigits(s) && AllDigits(t)
    ensures AllDigits(s + t)
    ensures Value(s + t) == Value(s) * Pow10(|t|) + Value(t)
  {
    if t == [] {
      assert s + t == s;
    } else {
      var u := t[..|t| - 1];
      ValueConcat(s, u);
      assert (s + t)[..|s + t| - 1] == s + u;
      assert Value(s + t) == Value(s + u) * 10 + (t[|t| - 1] - ZERO);
      TenTimes(Value(s), Pow10(|u|));
    }
  }

  lemma {:induction false} ValueBound(ds: seq<byte>)
    requires AllDigits(ds)
    ensures Value(ds) < Pow10(|ds|)
  {
    if ds != [] {
      ValueBound(ds[..|ds| - 1]);
    }
  }

  lemma {:induction false} DigitsLength(n: nat, k: nat)
    requires k >= 1
    ensures n < Pow10(k) <==> |Digits(n)| <= k
  {
    if k == 1 {
      assert Pow10(1) == 10 * Pow10(0);
    } else if n >= 10 {
      DigitsLength(n / 10, k - 1);
      assert Pow10(k) == 10 * Pow10(k - 1);
    } else {
      Pow10Monotone(1, k);
      assert Pow10(1) == 10 * Pow10(0);
    }
  }

  lemma {:induction false} Pow10Monotone(i: nat, k: nat)
    requires i <= k
    ensures Pow10(i) <= Pow10(k)
  {
    if i < k {
      Pow10Monotone(i, k - 1);
    }
  }
}
