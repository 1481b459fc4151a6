// Fixed-point arithmetic on machine words: decimal digits by multiplication with a reciprocal, and
// the rounded product of 64-bit significands.

module FixedPoint {
  import opened Words
  import opened Arith
  import opened Digits

  // ---------------------------------------------------------------- the reciprocal

  /** The shift of the 4.32 reciprocal for N + 1 digits. */
  function Shift(n: nat): nat { n / 5 * n * 53 / 16 }

  function Reciprocal(n: nat): int { Pow2(32 + Shift(n)) / Pow10(n) + 1 - n / 9 }

  /** The fixed-point quotient of u by 10^n: integer part above bit 32, fraction below, all in 64 bits. */
  function Quotient(n: nat, u: nat): int { (Reciprocal(n) * u % UINT64_RANGE) / Pow2(Shift(n)) + n / 5 * 4 }

  lemma Reciprocals()
    ensures Shift(1) == 0 && Shift(2) == 0 && Shift(3) == 0 && Shift(4) == 0
    ensures Shift(5) == 16 && Shift(6) == 19 && Shift(7) == 23 && Shift(8) == 26
    ensures Reciprocal(1) == 429496730 && Reciprocal(2) == 42949673 && Reciprocal(3) == 4294968
    ensures Reciprocal(4) == 429497 && Reciprocal(5) == 2814749768 && Reciprocal(6) == 2251799814
    ensures Reciprocal(7) == 3602879702 && Reciprocal(8) == 2882303762
  {
    hide Pow10, Pow2;
    Powers();
    PowersOf2();
  }

  /** The fixed-point number y is at least u / d and less than (u + 1) / d. */
  predicate Within(y: int, d: int, u: int) { u * UINT32_RANGE <= y * d < (u + 1) * UINT32_RANGE }

  lemma QuotientBounds(n: nat, u: nat)
    requires 1 <= n <= 8 && Pow10(n + 1) <= u < Pow10(n + 2) && u < UINT32_RANGE
    ensures 0 <= Reciprocal(n) * u < UINT64_RANGE
    ensures Quotient(n, u) >= 0 && u * UINT32_RANGE <= Quotient(n, u) * Pow10(n) < (u + 1) * UINT32_RANGE
  {
    hide Pow10, Pow2, Shift, Reciprocal;
    Powers();
    Reciprocals();
    PowersOf2();
    if n == 1 { } else if n == 2 { } else if n == 3 { } else if n == 4 { } else if n == 5 { } else if n == 6 { }
    else if n == 7 { } else { }
  }

  /** The reciprocal is exact enough for every 32-bit u of n + 2 digits: the quotient is at least u / 10^n and
      less than (u + 1) / 10^n, and the product does not overflow 64 bits. */
  lemma QuotientError(n: nat, u: nat)
    requires 1 <= n <= 8 && Pow10(n + 1) <= u < Pow10(n + 2) && u < UINT32_RANGE
    ensures 0 <= Reciprocal(n) * u < UINT64_RANGE
    ensures Quotient(n, u) >= 0 && Within(Quotient(n, u), Pow10(n), u)
  {
    QuotientBounds(n, u);
  }

  /** A fixed-point number between u / d and (u + 1) / d has the integer part of u / d. */
  lemma IntegerPart(y: nat, d: nat, u: nat)
    requires d >= 1 && Within(y, d, u)
    ensures y / UINT32_RANGE == u / d
  {
    var v, r := y / UINT32_RANGE, y % UINT32_RANGE;
    var vd, rd := v * d, r * d;
    assert y * d == vd * UINT32_RANGE + rd by { Distribute(v, r, d); }
    Mono(r + 1, UINT32_RANGE, d);
    assert rd + d <= UINT32_RANGE * d by { assert (r + 1) * d == rd + d; }
    QuotientIs(u, d, v);
  }

  lemma Distribute(v: nat, r: nat, d: nat)
    ensures (v * UINT32_RANGE + r) * d == v * d * UINT32_RANGE + r * d
  {
  }

  // ---------------------------------------------------------------- the digits

  /** t >> 32, and the truncation of t to 32 bits. */
  function High(t: nat): nat { t / UINT32_RANGE }
  function Low(t: nat): nat { t % UINT32_RANGE }

  /** A digit generator's step: the fraction times b, in 64 bits. */
  function Scale(b: nat, t: nat): nat { b * Low(t) % UINT64_RANGE }

  /** `v` is u / d, and the fraction of `t` carries the digits of u that are still to come. */
  predicate AtDigit(u: int, d: int, v: int, t: int) {
    && d >= 1 && 0 <= t < 100 * UINT32_RANGE
    && v == u / d
    && Within(v * UINT32_RANGE + t % UINT32_RANGE, d, u)
  }

  lemma NextDigits(u: nat, d: nat, v: nat, t: nat, b: nat)
    requires d >= 1 && AtDigit(u, b * d, v, t) && (b == 10 || b == 100)
    ensures var t' := b * (t % UINT32_RANGE);
            t' < b * UINT32_RANGE && t' / UINT32_RANGE < b && AtDigit(u, d, v * b + t' / UINT32_RANGE, t')
  {
    var t' := b * (t % UINT32_RANGE);
    Carry(v, t % UINT32_RANGE, b, d, u);
    hide Within;
    assert 0 <= t' < b * UINT32_RANGE;
    IntegerPart((v * b + t' / UINT32_RANGE) * UINT32_RANGE + t' % UINT32_RANGE, d, u);
  }

  /** Multiplying a fixed-point number by `b` moves the integer part of the new fraction behind its own. */
  lemma Carry(v: nat, f: nat, b: nat, d: nat, u: nat)
    requires Within(v * UINT32_RANGE + f, b * d, u)
    ensures Within((v * b + b * f / UINT32_RANGE) * UINT32_RANGE + b * f % UINT32_RANGE, d, u)
  {
    var y := (v * b + b * f / UINT32_RANGE) * UINT32_RANGE + b * f % UINT32_RANGE;
    assert y == (v * UINT32_RANGE + f) * b;
    Regroup(v * UINT32_RANGE + f, b, d);
  }

  lemma Regroup(a: nat, b: nat, c: nat)
    ensures (a * b) * c == a * (b * c)
  {
  }

  /** An lg handler that formats a decimal number. */
  class DecimalFormatter {
    const buffer: array<char>
    var pos: nat

    constructor (buffer: array<char>, pos: nat)
      ensures this.buffer == buffer && this.pos == pos
    {
      this.buffer, this.pos := buffer, pos;
    }

    /** write_pair: two digits from the table. */
    method WritePair(n: nat, index: nat)
      requires index < 100 && pos + n + 2 <= buffer.Length
      modifies buffer
      ensures buffer[..pos + n + 2] == old(buffer[..pos + n]) + [DigitChar(index / 10), DigitChar(index % 10)]
      ensures forall k :: pos + n + 2 <= k < buffer.Length ==> buffer[k] == old(buffer[k])
    {
      TablePair(index);
      buffer[pos + n] := DIGITS[index * 2];
      buffer[pos + n + 1] := DIGITS[index * 2 + 1];
    }

    /** Two more digits behind those from the third on. */
    static lemma MorePair(before: seq<char>, two: seq<char>, digits: seq<char>, index: nat)
      requires two <= digits && |two| == 2 && index < 100
      ensures var pair := [DigitChar(index / 10), DigitChar(index % 10)];
              && two <= digits + pair
              && before + digits[2..] + pair == before + (digits + pair)[2..]
    {
    }

    /** The loop of on: pairs of digits behind the first one, while a whole pair is left. */
    method Pairs(N: nat, ghost u: nat, first: nat) returns (t: nat, ghost v: nat, ghost i: nat)
      requires 2 <= N <= 9 && pos + N + 1 <= buffer.Length && |Numeral(High(first))| == 2
      requires High(first) > 0 && AtDigit(u, Pow10(N - 1), High(first), first)
      modifies buffer
      ensures N <= i <= N + 1 && i % 2 == 0 && v > 0 && AtDigit(u, Pow10(N + 1 - i), v, t)
      ensures Numeral(High(first)) <= Numeral(v) && buffer[..pos + i] == old(buffer[..pos + 2]) + Numeral(v)[2..]
      ensures forall k :: pos + i <= k < buffer.Length ==> buffer[k] == old(buffer[k])
    {
      hide *;
      ghost var before, two := buffer[..pos + 2], Numeral(High(first));
      t, v := first, High(first);
      var at := 2;
      while at < N
        invariant 2 <= at <= N + 1 && at % 2 == 0 && v > 0
        invariant AtDigit(u, Pow10(N + 1 - at), v, t)
        invariant two <= Numeral(v) && buffer[..pos + at] == before + Numeral(v)[2..]
        invariant forall k :: pos + at <= k < buffer.Length ==> buffer[k] == old(buffer[k])
      {
        NextPair(u, N + 1 - at, v, t);
        MorePair(before, two, Numeral(v), High(Scale(100, t)));
        t := Scale(100, t);
        WritePair(at, High(t));
        v := v * 100 + High(t);
        at := at + 2;
      }
      i := at;
    }

    /** on<N> for three digits and more: pairs taken from the fixed-point quotient. */
    method OnLonger(N: nat, u: nat)
      requires 2 <= N <= 9 && Pow10(N) <= u < Pow10(N + 1) && u < UINT32_RANGE
      requires pos + N + 1 <= buffer.Length
      modifies buffer
      ensures buffer[..pos + N + 1] == old(buffer[..pos]) + Numeral(u)
      ensures forall k :: pos + N + 1 <= k < buffer.Length ==> buffer[k] == old(buffer[k])
    {
      hide *;
      FirstPair(N, u);
      ghost var before := buffer[..pos];
      var t := Quotient(N - 1, u);
      WritePair(0, High(t));
      ghost var v, i;
      t, v, i := Pairs(N, u, t);
      assert buffer[..pos + i] == before + Numeral(v);
      if N % 2 == 0 {
        LastDigit(u, v, t);
        buffer[pos + N] := '0' + High(Scale(10, t)) as char;
      } else {
        NoneLeft(u, v, t);
      }
    }

    /** on<N>: writes the N + 1 digits of u and moves behind them. */
    method On(N: nat, u: nat)
      requires N <= 9 && (N == 0 || Pow10(N) <= u) && u < Pow10(N + 1) && u < UINT32_RANGE
      requires pos + N + 1 <= buffer.Length
      modifies this`pos, buffer
      ensures pos == old(pos) + N + 1
      ensures buffer[..pos] == old(buffer[..pos]) + Numeral(u) && buffer[pos..] == old(buffer[pos + N + 1..])
    {
      ghost var before, after := buffer[..pos], buffer[pos + N + 1..];
      if N == 0 {
        OneDigit(u) by { assert Pow10(1) == 10; }
        buffer[pos] := '0' + u as char;
        assert buffer[..pos + 1] == before + Numeral(u);
      } else if N == 1 {
        TwoDigits(u) by { assert Pow10(2) == 100 && Pow10(1) == 10; }
        WritePair(0, u);
      } else {
        OnLonger(N, u);
      }
      pos := pos + N + 1;
    }
  }

  /** One round of the loop of on: the next pair of digits. */
  lemma NextPair(u: nat, rest: nat, v: nat, t: nat)
    requires rest >= 2 && AtDigit(u, Pow10(rest), v, t) && v > 0
    ensures var p := High(Scale(100, t));
            && p < 100 && AtDigit(u, Pow10(rest - 2), v * 100 + p, Scale(100, t))
            && Numeral(v * 100 + p) == Numeral(v) + [DigitChar(p / 10), DigitChar(p % 10)]
  {
    assert Pow10(rest) == 10 * (10 * Pow10(rest - 2));
    hide Pow10, Numeral, DigitChar, AtDigit;
    NextDigits(u, Pow10(rest - 2), v, t, 100);
    Fits(100 * (t % UINT32_RANGE));
    NumeralPair(v, High(Scale(100, t)));
  }

  lemma NoneLeft(u: nat, v: nat, t: nat)
    requires AtDigit(u, Pow10(0), v, t)
    ensures v == u
  {
  }

  /** The digit behind the pairs. */
  lemma LastDigit(u: nat, v: nat, t: nat)
    requires AtDigit(u, Pow10(1), v, t) && v > 0
    ensures var d := High(Scale(10, t));
            d < 10 && Numeral(u) == Numeral(v) + ['0' + d as char]
  {
    assert Pow10(1) == 10;
    hide Numeral, Pow10, AtDigit;
    NextDigits(u, 1, v, t, 10);
    var rest := 10 * (t % UINT32_RANGE);
    var d := rest / UINT32_RANGE;
    AllDigits(u, v * 10 + d, rest);
    NumeralSnoc(v, d);
    assert Scale(10, t) == rest;
  }

  lemma AllDigits(u: nat, v: nat, t: nat)
    requires AtDigit(u, 1, v, t)
    ensures v == u
  {
  }

  /** The first pair: the integer part of the quotient is the two leading digits. */
  lemma FirstPair(N: nat, u: nat)
    requires 2 <= N <= 9 && Pow10(N) <= u < Pow10(N + 1) && u < UINT32_RANGE
    ensures Quotient(N - 1, u) >= 0
    ensures var t := Quotient(N - 1, u);
            && 10 <= High(t) < 100 && AtDigit(u, Pow10(N - 1), High(t), t)
            && Numeral(High(t)) == [DigitChar(High(t) / 10), DigitChar(High(t) % 10)]
  {
    assert Pow10(N) == 10 * Pow10(N - 1) && Pow10(N + 1) == 10 * Pow10(N);
    hide Pow10, Numeral, Quotient, Within, AtDigit, High;
    QuotientError(N - 1, u);
    FirstDigits(u, Pow10(N - 1), Quotient(N - 1, u));
    TwoDigits(High(Quotient(N - 1, u)));
  }

  lemma FirstDigits(u: nat, d: nat, t: nat)
    requires d >= 1 && 10 * d <= u < 100 * d && Within(t, d, u)
    ensures 10 <= High(t) < 100 && AtDigit(u, d, High(t), t)
  {
    hide Within;
    IntegerPart(t, d, u);
    TwoLeading(u, d);
    assert t == t / UINT32_RANGE * UINT32_RANGE + t % UINT32_RANGE;
  }

  lemma TwoLeading(u: nat, d: nat)
    requires d >= 1 && 10 * d <= u < 100 * d
    ensures 10 <= u / d < 100
  {
    var v := u / d;
    Mono(v + 1, 10, d);
    Mono(100, v, d);
    assert v * d <= u < v * d + d && (v + 1) * d == v * d + d;
  }

  /** lg: floor of the decimal logarithm, with 0 for 0. */
  function Lg(n: nat): (g: nat)
    requires n < UINT32_RANGE
  {
    if n < 100 then (if n < 10 then 0 else 1)
    else if n < 1000000 then
      if n < 10000 then (if n < 1000 then 2 else 3) else (if n < 100000 then 4 else 5)
    else if n < 100000000 then (if n < 10000000 then 6 else 7)
    else (if n < 1000000000 then 8 else 9)
  }

  lemma LgIsLogarithm(n: nat)
    requires n < UINT32_RANGE
    ensures Lg(n) <= 9 && (Lg(n) == 0 || Pow10(Lg(n)) <= n) && n < Pow10(Lg(n) + 1)
  {
    hide Pow10;
    Powers();
    PowersOf2();
  }

  /** lg with the formatter: every 32-bit number is written as its decimal numeral. */
  method FormatUint32(n: nat, buffer: array<char>, at: nat) returns (end: nat)
    requires n < UINT32_RANGE && at + 10 <= buffer.Length
    modifies buffer
    ensures end == at + |Numeral(n)| <= buffer.Length
    ensures buffer[..] == old(buffer[..at]) + Numeral(n) + old(buffer[end..])
  {
    LgIsLogarithm(n);
    NumeralLength(n, Lg(n));
    var h := new DecimalFormatter(buffer, at);
    h.On(Lg(n), n);
    end := h.pos;
  }

  // ---------------------------------------------------------------- the rounded product

  /** fp operator* on the significands, by 32-bit limbs. */
  function MulRounded(x: nat, y: nat): nat {
    var a, b := x / UINT32_RANGE, x % UINT32_RANGE;
    var c, d := y / UINT32_RANGE, y % UINT32_RANGE;
    Combine(a * c, b * c, a * d, b * d)
  }

  /** The limb products and their sums, all in 64 bits. */
  function Combine(ac: nat, bc: nat, ad: nat, bd: nat): nat {
    var ac, bc, ad, bd := ac % UINT64_RANGE, bc % UINT64_RANGE, ad % UINT64_RANGE, bd % UINT64_RANGE;
    var mid := (bd / UINT32_RANGE + ad % UINT32_RANGE + bc % UINT32_RANGE + 0x8000_0000) % UINT64_RANGE;
    (ac + ad / UINT32_RANGE + bc / UINT32_RANGE + mid / UINT32_RANGE) % UINT64_RANGE
  }

  /** The sums that go into the middle and the upper word. */
  function MiddleSum(bc: nat, ad: nat, bd: nat): nat {
    bd / UINT32_RANGE + ad % UINT32_RANGE + bc % UINT32_RANGE + 0x8000_0000
  }

  function UpperSum(ac: nat, bc: nat, ad: nat, bd: nat): nat {
    ac + ad / UINT32_RANGE + bc / UINT32_RANGE + MiddleSum(bc, ad, bd) / UINT32_RANGE
  }

  /** No product and no sum of the computation leaves 64 bits. */
  predicate NothingWraps(ac: nat, bc: nat, ad: nat, bd: nat) {
    && ac < UINT64_RANGE && bc < UINT64_RANGE && ad < UINT64_RANGE && bd < UINT64_RANGE
    && MiddleSum(bc, ad, bd) < UINT64_RANGE && UpperSum(ac, bc, ad, bd) < UINT64_RANGE
  }

  predicate ProductFits(x: nat, y: nat) {
    var a, b := x / UINT32_RANGE, x % UINT32_RANGE;
    var c, d := y / UINT32_RANGE, y % UINT32_RANGE;
    NothingWraps(a * c, b * c, a * d, b * d)
  }

  lemma LimbProduct(a: nat, c: nat, top: nat)
    requires a <= top && c <= top
    ensures a * c <= top * top
  {
    Mono(a, top, c);
    Mono(c, top, top);
  }

  lemma Fits(x: nat)
    requires x < UINT64_RANGE
    ensures x % UINT64_RANGE == x
  {
  }

  lemma NoOverflow(ac: nat, bc: nat, ad: nat, bd: nat)
    requires NothingWraps(ac, bc, ad, bd)
    ensures Combine(ac, bc, ad, bd) == UpperSum(ac, bc, ad, bd)
  {
    Fits(ac);
    Fits(bc);
    Fits(ad);
    Fits(bd);
    Fits(MiddleSum(bc, ad, bd));
    Fits(UpperSum(ac, bc, ad, bd));
  }

  /** The limbs add up: everything fits 64 bits, and the result is the rounded quotient of the whole product. */
  lemma Limbs(ac: nat, bc: nat, ad: nat, bd: nat, product: nat)
    requires ac <= LIMB && bc <= LIMB && ad <= LIMB && bd <= LIMB
    requires product == ac * UINT64_RANGE + (ad + bc) * UINT32_RANGE + bd
    requires product <= (UINT64_RANGE - 1) * (UINT64_RANGE - 1)
    ensures NothingWraps(ac, bc, ad, bd)
    ensures Combine(ac, bc, ad, bd) == (product + UINT64_RANGE / 2) / UINT64_RANGE
  {
    hide Combine;
    var mid, r := MiddleSum(bc, ad, bd), UpperSum(ac, bc, ad, bd);
    Columns(ac, bc / UINT32_RANGE, bc % UINT32_RANGE, ad / UINT32_RANGE, ad % UINT32_RANGE, bd / UINT32_RANGE,
            bd % UINT32_RANGE, mid / UINT32_RANGE, mid % UINT32_RANGE);
    Divide(r, mid % UINT32_RANGE * UINT32_RANGE + bd % UINT32_RANGE, product);
    NoOverflow(ac, bc, ad, bd);
  }

  lemma Columns(ac: nat, q1: nat, q0: nat, p1: nat, p0: nat, b1: nat, b0: nat, m1: nat, m0: nat)
    requires m1 * UINT32_RANGE + m0 == b1 + p0 + q0 + 0x8000_0000
    ensures ac * UINT64_RANGE + (p1 * UINT32_RANGE + p0 + q1 * UINT32_RANGE + q0) * UINT32_RANGE
            + b1 * UINT32_RANGE + b0 + UINT64_RANGE / 2
         == (ac + p1 + q1 + m1) * UINT64_RANGE + m0 * UINT32_RANGE + b0
  {
  }

  lemma Divide(r: nat, low: nat, product: nat)
    requires low < UINT64_RANGE && product <= (UINT64_RANGE - 1) * (UINT64_RANGE - 1)
    requires product + UINT64_RANGE / 2 == r * UINT64_RANGE + low
    ensures r < UINT64_RANGE && (product + UINT64_RANGE / 2) / UINT64_RANGE == r
  {
  }

  /** The largest product of two 32-bit limbs. */
  const LIMB: nat := 0xffff_fffe_0000_0001

  /** The product is correctly rounded, half up, and nothing overflows on the way. */
  lemma MulRoundedExact(x: nat, y: nat)
    requires x < UINT64_RANGE && y < UINT64_RANGE
    ensures MulRounded(x, y) == (x * y + UINT64_RANGE / 2) / UINT64_RANGE
    ensures ProductFits(x, y)
  {
    var a, b := x / UINT32_RANGE, x % UINT32_RANGE;
    var c, d := y / UINT32_RANGE, y % UINT32_RANGE;
    LimbProduct(a, c, UINT32_RANGE - 1);
    LimbProduct(b, c, UINT32_RANGE - 1);
    LimbProduct(a, d, UINT32_RANGE - 1);
    LimbProduct(b, d, UINT32_RANGE - 1);
    LimbProduct(x, y, UINT64_RANGE - 1);
    Expand(a, b, c, d);
    assert x == a * UINT32_RANGE + b && y == c * UINT32_RANGE + d;
    hide Combine, NothingWraps;
    Limbs(a * c, b * c, a * d, b * d, x * y);
  }

  lemma Expand(a: nat, b: nat, c: nat, d: nat)
    ensures (a * UINT32_RANGE + b) * (c * UINT32_RANGE + d)
         == a * c * UINT64_RANGE + (a * d + b * c) * UINT32_RANGE + b * d
  {
  }
}
