/** Positional notation: how numbers are printed in decimal and octal, and read back. */
module Digits {
  import opened Bytes

  /** Octal and decimal are the two notations in use. */
  predicate Radix(base: nat) {
    base == 8 || base == 10
  }

  function Shift(q: int, base: nat): int
    requires Radix(base)
  {
    if base == 8 then 8 * q else 10 * q
  }

  function Quotient(n: nat, base: nat): (q: nat)
    requires Radix(base)
    ensures q <= n && (n > 0 ==> q < n) && (n >= base ==> q > 0)
  {
    if base == 8 then n / 8 else n / 10
  }

  function Remainder(n: nat, base: nat): (r: nat)
    requires Radix(base)
    ensures r < base && Shift(Quotient(n, base), base) + r == n
  {
    if base == 8 then n % 8 else n % 10
  }

  function Power(base: nat, k: nat): nat
    requires Radix(base)
  {
    if k == 0 then 1 else Shift(Power(base, k - 1), base)
  }

  /** ASCII digits of `n`, most significant first, without leading zeros. */
  function Print(n: nat, base: nat): (ds: seq<Byte>)
    requires Radix(base)
    ensures ds != []
    decreases n
  {
    if n < base then [48 + n] else Print(Quotient(n, base), base) + [48 + Remainder(n, base)]
  }

  predicate AllDigits(ds: seq<Byte>, base: nat) {
    forall i :: 0 <= i < |ds| ==> 48 <= ds[i] < 48 + base
  }

  lemma {:induction false} PrintIsDigits(n: nat, base: nat)
    requires Radix(base)
    ensures AllDigits(Print(n, base), base)
    decreases n
  {
    if n >= base {
      PrintIsDigits(Quotient(n, base), base);
    }
  }

  function ValueOf(ds: seq<Byte>, base: nat): int
    requires Radix(base)
  {
    if ds == [] then 0 else Shift(ValueOf(ds[..|ds| - 1], base), base) + (ds[|ds| - 1] as int - 48)
  }

  lemma {:induction false} ValueOfPrint(n: nat, base: nat)
    requires Radix(base)
    ensures ValueOf(Print(n, base), base) == n
    decreases n
  {
    if n < base {
      OneDigit(n, base);
    } else {
      ValueOfPrint(Quotient(n, base), base);
      AppendDigit(Print(Quotient(n, base), base), n, base);
    }
  }

  lemma OneDigit(n: nat, base: nat)
    requires Radix(base) && n < base
    ensures ValueOf([48 + n], base) == n
  {
    ValueSnoc([], 48 + n, base);
    assert [] + [48 + n] == [48 + n];
  }

  lemma AppendDigit(high: seq<Byte>, n: nat, base: nat)
    requires Radix(base) && ValueOf(high, base) == Quotient(n, base)
    ensures ValueOf(high + [48 + Remainder(n, base)], base) == n
  {
    ValueSnoc(high, 48 + Remainder(n, base), base);
  }

  lemma ValueSnoc(ds: seq<Byte>, d: Byte, base: nat)
    requires Radix(base)
    ensures ValueOf(ds + [d], base) == Shift(ValueOf(ds, base), base) + (d as int - 48)
  {
    assert (ds + [d])[..|ds|] == ds;
  }

  lemma {:induction false} LeadingZeros(k: nat, ds: seq<Byte>, base: nat)
    requires Radix(base)
    ensures ValueOf(Fill(k) + ds, base) == ValueOf(ds, base)
    decreases k + |ds|
  {
    var all := Fill(k) + ds;
    if ds != [] {
      assert all[..|all| - 1] == Fill(k) + ds[..|ds| - 1];
      LeadingZeros(k, ds[..|ds| - 1], base);
    } else if k > 0 {
      assert all[..|all| - 1] == Fill(k - 1) + ds;
      LeadingZeros(k - 1, ds, base);
    } else {
      assert all == [];
    }
  }

  /** A run of '0' characters. */
  function Fill(k: nat): (z: seq<Byte>)
    ensures |z| == k && forall i :: 0 <= i < k ==> z[i] == 48
  {
    seq(k, _ => 48)
  }

  lemma {:induction false} PowerMonotone(base: nat, j: nat, k: nat)
    requires Radix(base) && j <= k
    ensures 1 <= Power(base, j) <= Power(base, k)
    decreases k
  {
    if j < k {
      PowerMonotone(base, j, k - 1);
    } else if j > 0 {
      PowerMonotone(base, j - 1, k - 1);
    }
  }

  /** `n` needs at most `k` digits exactly when it is below `base` to the `k`. */
  lemma {:induction false} PrintLength(n: nat, base: nat, k: nat)
    requires Radix(base) && 1 <= k
    ensures |Print(n, base)| <= k <==> n < Power(base, k)
    decreases n
  {
    assert Power(base, 1) == Shift(Power(base, 0), base);
    if n < base {
      PowerMonotone(base, 1, k);
    } else if k == 1 {
    } else {
      PrintLength(Quotient(n, base), base, k - 1);
    }
  }

  /** A larger number never has fewer digits. */
  lemma {:induction false} PrintMonotone(m: nat, n: nat, base: nat)
    requires Radix(base) && m <= n
    ensures |Print(m, base)| <= |Print(n, base)|
    decreases n
  {
    if m >= base {
      PrintMonotone(Quotient(m, base), Quotient(n, base), base);
    }
  }

  /** A decimal numeral is short: one digit, and at most one more for every tenfold. */
  lemma {:induction false} DecimalIsShort(n: nat)
    ensures |Print(n, 10)| <= 1 + n / 10
    decreases n
  {
    if n >= 10 {
      DecimalIsShort(n / 10);
    }
  }

  /** How many leading bytes of `s` are digits. */
  function DigitRun(s: seq<Byte>, base: nat): (n: nat)
    ensures n <= |s|
  {
    if s == [] || !(48 <= s[0] < 48 + base) then 0 else DigitRun(s[1..], base) + 1
  }

  lemma {:induction false} DigitRunStops(ds: seq<Byte>, rest: seq<Byte>, base: nat)
    requires AllDigits(ds, base)
    requires rest == [] || !(48 <= rest[0] < 48 + base)
    ensures DigitRun(ds + rest, base) == |ds|
  {
    if ds == [] {
      assert ds + rest == rest;
    } else {
      assert (ds + rest)[1..] == ds[1..] + rest;
      DigitRunStops(ds[1..], rest, base);
    }
  }
}
