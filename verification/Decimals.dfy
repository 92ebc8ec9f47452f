/** Numbers in decimal digits. */
module Decimals {
  import opened Bytes

  const U64_MAX: nat := 0xFFFF_FFFF_FFFF_FFFF

  function Decimal(n: nat): (r: bytes)
    ensures |r| >= 1 && forall i :: 0 <= i < |r| ==> IsDigit(r[i])
  {
    if n < 10 then [48 + n] else Decimal(n / 10) + [48 + n % 10]
  }

  /** What a run of digits denotes. */
  function ValueOf(s: bytes, n: nat): int
    requires n <= |s|
  {
    if n == 0 then 0 else 10 * ValueOf(s, n - 1) + (s[n - 1] as int - '0' as int)
  }

  lemma {:induction false} ValueOfPrefix(s: bytes, t: bytes, n: nat)
    requires n <= |s|
    ensures ValueOf(s + t, n) == ValueOf(s, n)
  {
    if n > 0 {
      ValueOfPrefix(s, t, n - 1);
    }
  }

  /** The digits of a number denote it, and only zero itself begins with a zero. */
  lemma {:induction false} DecimalReads(n: nat)
    ensures ValueOf(Decimal(n), |Decimal(n)|) == n && (n > 0 ==> Decimal(n)[0] != '0' as int)
    ensures forall i :: 0 <= i < |Decimal(n)| ==> '0' as int <= Decimal(n)[i] <= '9' as int
  {
    if n >= 10 {
      DecimalReads(n / 10);
      ValueOfPrefix(Decimal(n / 10), [48 + n % 10], |Decimal(n / 10)|);
    } else {
      assert ValueOf([48 + n], 0) == 0;
    }
  }

  function Pow10(k: nat): nat {
    if k == 0 then 1 else 10 * Pow10(k - 1)
  }

  lemma {:induction false} DecimalLength(n: nat, k: nat)
    requires k >= 1 && n < Pow10(k)
    ensures |Decimal(n)| <= k
    decreases k
  {
    assert Pow10(1) == 10 * Pow10(0) == 10;
    if n >= 10 {
      DecimalLength(n / 10, k - 1);
    }
  }

  lemma {:induction false} U64Digits(n: nat)
    requires n <= U64_MAX
    ensures |Decimal(n)| <= 20
  {
    Powers();
    DecimalLength(n, 20);
  }

  lemma {:induction false} Powers()
    ensures Pow10(4) == 10_000 && Pow10(12) == 1_000_000_000_000 && Pow10(20) == 100_000_000_000_000_000_000
  {
    assert Pow10(4) == 10_000;
    assert Pow10(8) == 10_000 * Pow10(4);
    assert Pow10(12) == 10_000 * Pow10(8);
    assert Pow10(16) == 10_000 * Pow10(12);
    assert Pow10(20) == 10_000 * Pow10(16);
  }

  /** The digits still to be written in front. */
  function Leading(m: nat): (r: bytes)
    ensures m > 0 ==> r == Leading(m / 10) + [48 + m % 10]
  {
    if m == 0 then [] else Decimal(m)
  }

  /** Append a number, its digits written from the end of a fixed buffer. */
  method PushDecimal(out: bytes, n: nat) returns (r: bytes)
    requires n <= U64_MAX
    ensures r == out + Decimal(n)
  {
    U64Digits(n);
    var digits := new byte[20](_ => 0);
    digits[19] := 48 + n % 10;
    var i: nat, m: nat := 19, n / 10;
    while m > 0
      invariant i < 20 && Leading(m) + digits[i..] == Decimal(n)
      decreases m
    {
      ghost var done := digits[i..];
      i := i - 1;
      digits[i] := 48 + m % 10;
      assert digits[i..] == [48 + m % 10] + done;
      AppendAppend(Leading(m / 10), [48 + m % 10], done);
      m := m / 10;
    }
    Empties(digits[i..]);
    r := out + digits[i..];
  }
}
