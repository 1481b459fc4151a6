// Decimal numerals, and the two-digit table that the formatting code writes them from.

module Digits {

  function DigitChar(d: nat): char
    requires d < 10
  {
    '0' + d as char
  }

  /** The decimal numeral of `n`, without leading zeros. */
  function Numeral(n: nat): (s: seq<char>)
    ensures s != []
  {
    if n < 10 then [DigitChar(n)] else Numeral(n / 10) + [DigitChar(n % 10)]
  }

  predicate IsDigit(c: char) { '0' <= c <= '9' }

  function DigitValue(c: char): nat
    requires IsDigit(c)
  {
    c as int - '0' as int
  }

  /** The value of a string of digits. */
  function Value(s: seq<char>): nat
    requires forall i :: 0 <= i < |s| ==> IsDigit(s[i])
  {
    if s == [] then 0 else Value(s[..|s| - 1]) * 10 + DigitValue(s[|s| - 1])
  }

  function Pow10(n: nat): (p: nat)
    ensures p >= 1
  {
    if n == 0 then 1 else 10 * Pow10(n - 1)
  }

  /** 1 << n. */
  function Pow2(n: nat): (p: nat)
    ensures p >= 1
  {
    if n == 0 then 1 else 2 * Pow2(n - 1)
  }

  lemma Powers()
    ensures Pow10(0) == 1 && Pow10(1) == 10 && Pow10(2) == 100 && Pow10(3) == 1000 && Pow10(4) == 10000
    ensures Pow10(5) == 100000 && Pow10(6) == 1000000 && Pow10(7) == 10000000 && Pow10(8) == 100000000
    ensures Pow10(9) == 1000000000 && Pow10(10) == 10000000000 && Pow10(11) == 100000000000
    ensures Pow10(12) == 1000000000000 && Pow10(13) == 10000000000000 && Pow10(14) == 100000000000000
    ensures Pow10(15) == 1000000000000000 && Pow10(16) == 10000000000000000 && Pow10(17) == 100000000000000000
    ensures Pow10(18) == 1000000000000000000 && Pow10(19) == 10000000000000000000
    ensures Pow10(20) == 100000000000000000000
  {
  }

  lemma PowersOf2()
    ensures Pow2(0) == 1 && Pow2(1) == 2 && Pow2(2) == 4 && Pow2(3) == 8
    ensures Pow2(4) == 16 && Pow2(5) == 32 && Pow2(6) == 64 && Pow2(7) == 128
    ensures Pow2(8) == 256 && Pow2(9) == 512 && Pow2(10) == 1024 && Pow2(11) == 2048
    ensures Pow2(12) == 4096 && Pow2(13) == 8192 && Pow2(14) == 16384 && Pow2(15) == 32768
    ensures Pow2(16) == 65536 && Pow2(17) == 131072 && Pow2(18) == 262144 && Pow2(19) == 524288
    ensures Pow2(20) == 1048576 && Pow2(21) == 2097152 && Pow2(22) == 4194304 && Pow2(23) == 8388608
    ensures Pow2(24) == 16777216 && Pow2(25) == 33554432 && Pow2(26) == 67108864 && Pow2(27) == 134217728
    ensures Pow2(28) == 268435456 && Pow2(29) == 536870912 && Pow2(30) == 1073741824 && Pow2(31) == 2147483648
    ensures Pow2(32) == 4294967296 && Pow2(33) == 8589934592 && Pow2(34) == 17179869184 && Pow2(35) == 34359738368
    ensures Pow2(36) == 68719476736 && Pow2(37) == 137438953472 && Pow2(38) == 274877906944 && Pow2(39) == 549755813888
    ensures Pow2(40) == 1099511627776 && Pow2(41) == 2199023255552
    ensures Pow2(42) == 4398046511104 && Pow2(43) == 8796093022208
    ensures Pow2(44) == 17592186044416 && Pow2(45) == 35184372088832
    ensures Pow2(46) == 70368744177664 && Pow2(47) == 140737488355328
    ensures Pow2(48) == 281474976710656 && Pow2(49) == 562949953421312
    ensures Pow2(50) == 1125899906842624 && Pow2(51) == 2251799813685248
    ensures Pow2(52) == 4503599627370496 && Pow2(53) == 9007199254740992
    ensures Pow2(54) == 18014398509481984 && Pow2(55) == 36028797018963968
    ensures Pow2(56) == 72057594037927936 && Pow2(57) == 144115188075855872
    ensures Pow2(58) == 288230376151711744 && Pow2(59) == 576460752303423488
    ensures Pow2(60) == 1152921504606846976 && Pow2(61) == 2305843009213693952
    ensures Pow2(62) == 4611686018427387904 && Pow2(63) == 9223372036854775808
    ensures Pow2(64) == 18446744073709551616
  {
  }

  lemma {:induction false} NumeralValue(n: nat)
    ensures forall i :: 0 <= i < |Numeral(n)| ==> IsDigit(Numeral(n)[i])
    ensures Value(Numeral(n)) == n
    ensures n >= 10 ==> Numeral(n)[0] != '0'
    decreases n
  {
    if n >= 10 {
      NumeralValue(n / 10);
      assert Numeral(n)[..|Numeral(n)| - 1] == Numeral(n / 10);
    } else {
      assert Numeral(n)[..0] == [];
    }
    if 10 <= n < 100 { assert Numeral(n / 10) == [DigitChar(n / 10)]; }
  }

  /** Different numbers have different numerals. */
  lemma NumeralInjective(m: nat, n: nat)
    requires Numeral(m) == Numeral(n)
    ensures m == n
  {
    NumeralValue(m);
    NumeralValue(n);
  }

  /** A numeral has one digit more than the power of ten it starts from. */
  lemma {:induction false} NumeralLength(n: nat, k: nat)
    requires (k == 0 || Pow10(k) <= n) && n < Pow10(k + 1)
    ensures |Numeral(n)| == k + 1
    decreases k
  {
    if k > 0 {
      assert n >= 10 by { assert Pow10(k) == 10 * Pow10(k - 1); }
      NumeralLength(n / 10, k - 1);
    }
  }

  lemma OneDigit(v: nat)
    requires v < 10
    ensures Numeral(v) == ['0' + v as char]
  {
  }

  lemma TwoDigits(v: nat)
    requires 10 <= v < 100
    ensures Numeral(v) == [DigitChar(v / 10), DigitChar(v % 10)]
  {
    assert Numeral(v / 10) == [DigitChar(v / 10)];
  }

  /** Two more digits. */
  lemma NumeralSnoc(v: nat, d: nat)
    requires v > 0 && d < 10
    ensures Numeral(v * 10 + d) == Numeral(v) + [DigitChar(d)]
  {
    assert (v * 10 + d) / 10 == v && (v * 10 + d) % 10 == d;
  }

  lemma NumeralPair(v: nat, p: nat)
    requires v > 0 && p < 100
    ensures Numeral(v * 100 + p) == Numeral(v) + [DigitChar(p / 10), DigitChar(p % 10)]
  {
    var n := v * 100 + p;
    assert n / 10 == v * 10 + p / 10 && n % 10 == p % 10;
    assert (v * 10 + p / 10) / 10 == v && (v * 10 + p / 10) % 10 == p / 10;
    assert Numeral(n) == Numeral(v * 10 + p / 10) + [DigitChar(p % 10)];
    assert Numeral(v * 10 + p / 10) == Numeral(v) + [DigitChar(p / 10)];
  }

  /** The table of all pairs of digits, "00" to "99", by its rule. */
  const DIGITS: seq<char> :=
    seq(200, i requires 0 <= i < 200 => if i % 2 == 0 then DigitChar(i / 20) else DigitChar(i / 2 % 10))

  /** Entry `p` of the table is the two digits of `p`. */
  lemma TablePair(p: nat)
    requires p < 100
    ensures |DIGITS| == 200 && DIGITS[2 * p] == DigitChar(p / 10) && DIGITS[2 * p + 1] == DigitChar(p % 10)
  {
  }
}
