/** The table-driven integer printers of src/libtrading/itoa.c. */
module Itoa {
  import opened Bytes
  import opened Decimal
  import opened Atoi

  const ITOA_TAB_SIZE := 100
  const ITOA_TAB_LOG := 2

  /** Character `i` of the table "000102...9899". */
  function ItoaTab(i: nat): byte
    requires i < ITOA_TAB_SIZE * ITOA_TAB_LOG
  {
    ZERO + (if i % 2 == 0 then i / 2 / 10 else i / 2 % 10)
  }

  function UilogTen(n: nat): nat {
    if n <= 9 then 1
    else if n <= 99 then 2
    else if n <= 999 then 3
    else if n <= 9999 then 4
    else if n <= 99999 then 5
    else if n <= 999999 then 6
    else if n <= 9999999 then 7
    else if n <= 99999999 then 8
    else if n <= 999999999 then 9
    else 10
  }

  /** The case table counts the digits of every `unsigned int`. */
  lemma UilogTenCountsDigits(n: nat)
    requires n < TWO_32
    ensures UilogTen(n) == |Digits(n)|
    decreases n
  {
    if n >= 10 {
      UilogTenCountsDigits(n / 10);
    }
  }

  /** The table entry of `k` is the two-digit text of `k`. */
  function Pair(k: nat): seq<byte>
    requires k < ITOA_TAB_SIZE
  {
    [ItoaTab(ITOA_TAB_LOG * k), ItoaTab(ITOA_TAB_LOG * k + 1)]
  }

  lemma DigitsByPairs(n: nat)
    requires n >= 100
    ensures Digits(n) == Digits(n / 100) + Pair(n % 100)
  {
    var k := n % 100;
    assert n / 10 / 10 == n / 100 && n / 10 % 10 == k / 10 && n % 10 == k % 10;
    assert Pair(k) == [ZERO + k / 10] + [ZERO + k % 10];
    assert Digits(n / 10) == Digits(n / 100) + [ZERO + k / 10];
  }

  lemma LastDigits(n: nat)
    requires n < 100
    ensures Digits(n) == if n > 9 then Pair(n) else Pair(n)[1..]
  {
  }

  /** `text` has been written into `now` at `at`; all other cells are as in `before`. */
  ghost predicate Wrote(now: seq<byte>, before: seq<byte>, at: nat, text: seq<byte>) {
    && |now| == |before| && at + |text| <= |now|
    && (forall i :: 0 <= i < |text| ==> now[at + i] == text[i])
    && (forall i :: 0 <= i < at ==> now[i] == before[i])
    && (forall i :: at + |text| <= i < |now| ==> now[i] == before[i])
  }

  lemma WroteTwice(now: seq<byte>, mid: seq<byte>, before: seq<byte>, at: nat, s: seq<byte>, t: seq<byte>)
    requires Wrote(mid, before, at, s) && Wrote(now, mid, at + |s|, t)
    ensures Wrote(now, before, at, s + t)
  {
    forall i | 0 <= i < |s + t| ensures now[at + i] == (s + t)[i] {
      if i >= |s| {
        assert now[at + |s| + (i - |s|)] == t[i - |s|];
      }
    }
  }

  /** The pair loop of `uitoa_general`: all digits but the first one or two are in place. */
  method PutPairs(n0: nat, s: array<byte>, at: nat, log: nat) returns (n: nat, p: nat)
    requires log == |Digits(n0)| && at + log <= s.Length
    modifies s
    ensures n < ITOA_TAB_SIZE && p == at + |Digits(n)|
    ensures Digits(n) <= Digits(n0)
    ensures forall i :: |Digits(n)| <= i < |Digits(n0)| ==> s[at + i] == Digits(n0)[i]
    ensures forall i :: 0 <= i < s.Length && !(p <= i < at + |Digits(n0)|) ==> s[i] == old(s[i])
  {
    hide Digits, ItoaTab;
    n := n0;
    ghost var ds := Digits(n0);
    p := at + log;
    assert ds[..p - at] == ds;
    while n >= ITOA_TAB_SIZE
      invariant at <= p <= at + |ds|
      invariant Digits(n) == ds[..p - at]
      invariant forall i :: p - at <= i < |ds| ==> s[at + i] == ds[i]
      invariant forall i :: 0 <= i < s.Length && !(p <= i < at + |ds|) ==> s[i] == old(s[i])
    {
      DigitsByPairs(n);
      var src := ITOA_TAB_LOG * (n % ITOA_TAB_SIZE);
      SplitPair(ds, p - at, Digits(n / ITOA_TAB_SIZE), Pair(n % ITOA_TAB_SIZE));
      p := p - ITOA_TAB_LOG;
      n := n / ITOA_TAB_SIZE;
      s[p], s[p + 1] := ItoaTab(src), ItoaTab(src + 1);
    }
  }

  method UitoaGeneral(n0: nat, s: array<byte>, at: nat) returns (log: nat)
    requires n0 < TWO_32 && at + |Digits(n0)| <= s.Length
    modifies s
    ensures log == |Digits(n0)|
    ensures Wrote(s[..], old(s[..]), at, Digits(n0))
  {
    log := UilogTen(n0);
    UilogTenCountsDigits(n0);
    var n, p := PutPairs(n0, s, at, log);
    LastDigits(n);
    var src := (n + 1) * ITOA_TAB_LOG - 1;
    p := p - 1;
    if n > 9 {
      s[p] := ItoaTab(src);
      p, src := p - 1, src - 1;
    }
    s[p] := ItoaTab(src);
    assert forall i :: 0 <= i < |Digits(n)| ==> s[at + i] == Digits(n)[i] == Digits(n0)[i];
  }

  lemma SplitPair(ds: seq<byte>, k: nat, front: seq<byte>, pair: seq<byte>)
    requires k <= |ds| && ds[..k] == front + pair && |pair| == 2
    ensures k >= 2 && ds[..k - 2] == front && ds[k - 2] == pair[0] && ds[k - 1] == pair[1]
  {
    assert ds[k - 2] == ds[..k][k - 2] && ds[k - 1] == ds[..k][k - 1];
    assert ds[..k - 2] == ds[..k][..k - 2];
  }

  method Uitoa(n: nat, s: array<byte>, at: nat) returns (len: nat)
    requires n < TWO_32 && at + |Digits(n)| <= s.Length
    modifies s
    ensures len == |Digits(n)|
    ensures Wrote(s[..], old(s[..]), at, Digits(n))
  {
    var p := at;
    if n <= 99 {
      if n >= 10 {
        s[p] := ItoaTab(ITOA_TAB_LOG * n);
        p := p + 1;
      }
      s[p] := ItoaTab(ITOA_TAB_LOG * n + 1);
      p := p + 1;
      return p - at;
    }
    len := UitoaGeneral(n, s, p);
  }

  method PrintInt(n: int, s: array<byte>, at: nat) returns (len: nat)
    requires -TWO_31 <= n < TWO_31 && at + |SignedDigits(n)| <= s.Length
    modifies s
    ensures len == |SignedDigits(n)|
    ensures Wrote(s[..], old(s[..]), at, SignedDigits(n))
  {
    hide Digits;
    var un := n % TWO_32;
    var p := at;
    ghost var before := s[..];
    if n < 0 {
      s[p] := DASH;
      p := p + 1;
      un := (-n) % TWO_32;
      assert Wrote(s[..], before, at, [DASH]);
    }
    assert un == if n < 0 then -n else n;
    ghost var mid := s[..];
    len := Uitoa(un, s, p);
    if n < 0 {
      WroteTwice(s[..], mid, before, at, [DASH], Digits(un));
    }
    len := len + p - at;
  }

  /** The three characters of a CheckSum value. */
  function ThreeDigits(n: nat): (r: seq<byte>)
    requires n < 256
    ensures |r| == 3
  {
    [ZERO + n / 100, ZERO + n / 10 % 10, ZERO + n % 10]
  }

  lemma ThreeDigitsValue(n: nat)
    requires n < 256
    ensures AllDigits(ThreeDigits(n)) && Value(ThreeDigits(n)) == n
  {
    var ds := ThreeDigits(n);
    assert ds[..2][..1] == ds[..1] && ds[..1][..0] == [];
    assert Value(ds[..1]) == n / 100;
    assert Value(ds[..2]) == n / 10;
  }

  lemma DigitsOfThree(n: nat)
    requires 100 <= n < 256
    ensures Digits(n) == ThreeDigits(n)
  {
    DigitsByPairs(n);
    assert Digits(n / 100) == [ZERO + n / 100];
  }

  method ChecksumToA(n: nat, s: array<byte>, at: nat) returns (len: nat)
    requires n < 256 && at + 3 <= s.Length
    modifies s
    ensures len == 3
    ensures Wrote(s[..], old(s[..]), at, ThreeDigits(n))
  {
    if n <= 99 {
      var src := ITOA_TAB_LOG * n;
      s[at] := ZERO;
      s[at + 1] := ItoaTab(src);
      s[at + 2] := ItoaTab(src + 1);
      return 3;
    }
    DigitsOfThree(n);
    len := UitoaGeneral(n, s, at);
  }
}
