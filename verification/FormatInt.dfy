// Integer formatting: digit counts, the two-digits-at-a-time writers, and the integer parser.

module FormatInt {
  import opened Words
  import opened Digits

  // ---------------------------------------------------------------- counting digits

  /** 64 minus the number of leading zeros of a 64-bit word. */
  function BitLength(n: nat): nat { if n == 0 then 0 else 1 + BitLength(n / 2) }

  lemma {:induction false} BitLengthBounds(n: nat, b: nat)
    requires n < Pow2(b)
    ensures n > 0 ==> BitLength(n) >= 1 && Pow2(BitLength(n) - 1) <= n
    ensures n < Pow2(BitLength(n)) && BitLength(n) <= b
    decreases b
  {
    if n > 0 { BitLengthBounds(n / 2, b - 1); }
  }

  /** POWERS_OF_10_64: 0 first, then the powers of ten. */
  function PowersOf10(t: nat): nat { if t == 0 then 0 else Pow10(t) }

  /** n | 1. */
  function OrOne(n: nat): nat { if n % 2 == 0 then n + 1 else n }

  /** count_digits by the number of leading zeros. */
  function CountDigits(n: nat): int {
    var t := BitLength(OrOne(n)) * 1233 / 4096;
    t - (if n < PowersOf10(t) then 1 else 0) + 1
  }

  /** The approximation of log10 by 1233/4096: between the powers of two of a bit length there is at most the
      one power of ten that the table is asked for. */
  predicate Brackets(b: nat) {
    var t := b * 1233 / 4096;
    (t == 0 || Pow10(t - 1) <= Pow2(b - if b > 0 then 1 else 0)) && Pow2(b) <= Pow10(t + 1)
  }

  lemma LowBrackets(b: nat)
    requires 1 <= b <= 22
    ensures Brackets(b)
  {
    hide Pow2, Pow10;
    Powers();
    PowersOf2();
  }

  lemma MiddleBrackets(b: nat)
    requires 23 <= b <= 43
    ensures Brackets(b)
  {
    hide Pow2, Pow10;
    Powers();
    PowersOf2();
  }

  lemma HighBrackets(b: nat)
    requires 44 <= b <= 64
    ensures Brackets(b)
  {
    hide Pow2, Pow10;
    Powers();
    PowersOf2();
  }

  lemma AllBrackets(b: nat)
    requires 1 <= b <= 64
    ensures Brackets(b) && Pow2(64) == UINT64_RANGE
  {
    hide Brackets;
    assert Pow2(64) == UINT64_RANGE by { PowersOf2(); }
    if b <= 22 { LowBrackets(b); } else if b <= 43 { MiddleBrackets(b); } else { HighBrackets(b); }
  }

  /** On every 64-bit value the count taken from the leading zeros is the number of digits, and the table of
      powers is read inside its 20 entries; 10 entries are enough for 32-bit values, whose version of the
      function is the same with a smaller table. */
  lemma CountDigitsExact(n: nat)
    requires n < UINT64_RANGE
    ensures CountDigits(n) == |Numeral(n)|
    ensures BitLength(OrOne(n)) * 1233 / 4096 < if n < UINT32_RANGE then 10 else 20
  {
    hide Pow2, Pow10, Numeral, BitLength;
    var b := BitLength(OrOne(n));
    ClzBounds(n);
    AllBrackets(b);
    OrOneKeepsLength(n, b);
    assert Pow10(0) == 1 by { Powers(); }
    var t := b * 1233 / 4096;
    NumeralLength(n, if n < PowersOf10(t) then t - 1 else t);
  }

  /** The bit length of a word, and the powers of two around it. */
  lemma ClzBounds(n: nat)
    requires n < UINT64_RANGE
    ensures var b := BitLength(OrOne(n));
            1 <= b <= (if n < UINT32_RANGE then 32 else 64) && Pow2(b - 1) <= OrOne(n) < Pow2(b)
  {
    PowersOf2();
    hide Pow2, BitLength;
    BitLengthBounds(OrOne(n), 64);
    if n < UINT32_RANGE { BitLengthBounds(OrOne(n), 32); }
  }

  lemma OrOneKeepsLength(n: nat, b: nat)
    requires b >= 1 && Pow2(b - 1) <= OrOne(n) < Pow2(b)
    ensures b > 1 ==> Pow2(b - 1) <= n
    ensures b == 1 ==> n < 2
    ensures n < Pow2(b)
  {
    if b > 1 { assert Pow2(b - 1) == 2 * Pow2(b - 2); }
  }

  /** The other version of count_digits: one division for every four digits. */
  method CountDigitsLoop(n: nat) returns (count: nat)
    ensures count == |Numeral(n)|
  {
    count := 1;
    var m := n;
    while true
      invariant |Numeral(n)| == |Numeral(m)| + count - 1
      decreases m
    {
      if m < 10 { return count; }
      if m < 100 { NumeralLength(m, 1); return count + 1; }
      if m < 1000 { assert Pow10(3) == 1000; NumeralLength(m, 2); return count + 2; }
      if m < 10000 { assert Pow10(4) == 10000; NumeralLength(m, 3); return count + 3; }
      FourLess(m);
      m := m / 10000;
      count := count + 4;
    }
  }

  lemma FourLess(m: nat)
    requires m >= 10000
    ensures |Numeral(m)| == |Numeral(m / 10000)| + 4
  {
    assert Numeral(m) == Numeral(m / 10) + [DigitChar(m % 10)];
    assert Numeral(m / 10) == Numeral(m / 10 / 10) + [DigitChar(m / 10 % 10)];
    assert Numeral(m / 100) == Numeral(m / 100 / 10) + [DigitChar(m / 100 % 10)];
    assert Numeral(m / 1000) == Numeral(m / 1000 / 10) + [DigitChar(m / 1000 % 10)];
    assert m / 10 / 10 == m / 100 && m / 100 / 10 == m / 1000 && m / 1000 / 10 == m / 10000;
  }

  // ---------------------------------------------------------------- writing digits backwards

  /** Two digits from the table, in front of the cell at p; `end` is where the number ends. */
  method PutPair(buffer: array<char>, p: nat, pair: nat, ghost end: nat)
    requires pair < 100 && 2 <= p <= end <= buffer.Length
    modifies buffer
    ensures buffer[p - 2..end] == [DigitChar(pair / 10), DigitChar(pair % 10)] + old(buffer[p..end])
    ensures forall i :: 0 <= i < buffer.Length && i != p - 2 && i != p - 1 ==> buffer[i] == old(buffer[i])
  {
    TablePair(pair);
    hide DIGITS;
    var index := pair * 2;
    buffer[p - 1] := DIGITS[index + 1];
    buffer[p - 2] := DIGITS[index];
  }

  /** The numeral of v in front of the digits written so far. */
  lemma PairBehind(v: nat, tail: seq<char>)
    requires v >= 100
    ensures Numeral(v) + tail == Numeral(v / 100) + ([DigitChar(v % 100 / 10), DigitChar(v % 100 % 10)] + tail)
    ensures |Numeral(v)| == |Numeral(v / 100)| + 2
  {
    NumeralPair(v / 100, v % 100);
    hide Numeral, DigitChar;
    assert v == v / 100 * 100 + v % 100;
  }

  /** format_decimal: writes the numeral of `value` into buffer[at..at + digits], from its end. */
  method FormatDecimal(buffer: array<char>, at: nat, value: nat, digits: nat)
    requires digits == |Numeral(value)| && at + digits <= buffer.Length
    modifies buffer
    ensures buffer[at..at + digits] == Numeral(value)
    ensures forall i :: 0 <= i < buffer.Length && !(at <= i < at + digits) ==> buffer[i] == old(buffer[i])
  {
    hide Numeral, DigitChar;
    var p, v := at + digits, value;
    while v >= 100
      invariant at + |Numeral(v)| == p <= at + digits
      invariant Numeral(v) + buffer[p..at + digits] == Numeral(value)
      invariant forall i :: 0 <= i < buffer.Length && !(p <= i < at + digits) ==> buffer[i] == old(buffer[i])
    {
      ghost var tail := buffer[p..at + digits];
      PairBehind(v, tail);
      PutPair(buffer, p, v % 100, at + digits);
      v := v / 100;
      p := p - 2;
    }
    ghost var tail := buffer[p..at + digits];
    if v < 10 {
      OneDigit(v);
      p := p - 1;
      buffer[p] := '0' + v as char;
      assert buffer[p..at + digits] == Numeral(v) + tail;
    } else {
      TwoDigits(v);
      PutPair(buffer, p, v, at + digits);
      p := p - 2;
    }
  }

  /** std::numeric_limits<unsigned long long>::digits10 + 3. */
  const BUFFER_SIZE: nat := 22

  /** The text of a signed number. */
  function SignedNumeral(v: int): seq<char> { if v < 0 then ['-'] + Numeral(-v) else Numeral(v) }

  lemma Uint64Digits(v: nat)
    requires v < UINT64_RANGE
    ensures |Numeral(v)| <= 20
  {
    Powers();
    if v >= 10 { var k := SomeLength(v, 20); }
  }

  lemma {:induction false} SomeLength(v: nat, bound: nat) returns (k: nat)
    requires 1 <= v < Pow10(bound)
    ensures k < bound && Pow10(k) <= v < Pow10(k + 1) && |Numeral(v)| == k + 1
    decreases bound
  {
    if Pow10(bound - 1) <= v {
      k := bound - 1;
      NumeralLength(v, k);
    } else {
      k := SomeLength(v, bound - 1);
    }
  }

  /** Negating the two's complement word gives the magnitude, also for the least number. */
  lemma Magnitude(value: int)
    requires -0x8000_0000_0000_0000 <= value < 0x8000_0000_0000_0000
    ensures value >= 0 ==> value % UINT64_RANGE == value
    ensures value < 0 ==> (0 - value % UINT64_RANGE) % UINT64_RANGE == -value
  {
    if value < 0 {
      assert value % UINT64_RANGE == value + UINT64_RANGE;
      assert (0 - (value + UINT64_RANGE)) % UINT64_RANGE == -value;
    }
  }

  /** format_int: formats backwards from the end of its own buffer. `str` is where the text starts. */
  class Formatter {
    const buffer: array<char>
    var str: nat

    ghost predicate Valid()
      reads this
    {
      buffer.Length == BUFFER_SIZE && str < BUFFER_SIZE
    }

    /** The text, up to the place kept for the terminating NUL. */
    function Text(): seq<char>
      requires Valid()
      reads this, buffer
    {
      buffer[str..BUFFER_SIZE - 1]
    }

    /** format_decimal of format_int: returns where the numeral starts. */
    method FormatUnsigned(value: nat) returns (p: nat)
      requires value < UINT64_RANGE && buffer.Length == BUFFER_SIZE
      modifies buffer
      ensures 0 < p < BUFFER_SIZE && buffer[p..BUFFER_SIZE - 1] == Numeral(value)
    {
      hide Numeral, DigitChar;
      Uint64Digits(value);
      p := BUFFER_SIZE - 1;
      var v := value;
      while v >= 100
        invariant |Numeral(v)| + (BUFFER_SIZE - 1 - p) == |Numeral(value)| && p <= BUFFER_SIZE - 1
        invariant Numeral(v) + buffer[p..BUFFER_SIZE - 1] == Numeral(value)
      {
        ghost var tail := buffer[p..BUFFER_SIZE - 1];
        PairBehind(v, tail);
        PutPair(buffer, p, v % 100, BUFFER_SIZE - 1);
        v := v / 100;
        p := p - 2;
      }
      ghost var tail := buffer[p..BUFFER_SIZE - 1];
      if v < 10 {
        OneDigit(v);
        p := p - 1;
        buffer[p] := '0' + v as char;
        assert buffer[p..BUFFER_SIZE - 1] == Numeral(v) + tail;
        return;
      }
      TwoDigits(v);
      PutPair(buffer, p, v, BUFFER_SIZE - 1);
      p := p - 2;
    }

    /** The constructors for signed types: two's complement negation, then the sign in front. */
    constructor Signed(value: int)
      requires -0x8000_0000_0000_0000 <= value < 0x8000_0000_0000_0000
      ensures Valid() && Text() == SignedNumeral(value)
    {
      buffer := new char[BUFFER_SIZE];
      str := 0;
      new;
      var abs := value % UINT64_RANGE;
      var negative := value < 0;
      if negative { abs := (0 - abs) % UINT64_RANGE; }
      Magnitude(value);
      var p := FormatUnsigned(abs);
      if negative {
        ghost var digits := buffer[p..BUFFER_SIZE - 1];
        p := p - 1;
        buffer[p] := '-';
        assert buffer[p..BUFFER_SIZE - 1] == ['-'] + digits;
      }
      str := p;
    }
  }

  // ---------------------------------------------------------------- reading digits

  const INT_MAX: nat := 0x7fff_ffff

  lemma ValueGrows(s: seq<char>, k: nat)
    requires k <= |s| && forall i :: 0 <= i < |s| ==> IsDigit(s[i])
    ensures Value(s[..k]) <= Value(s)
    ensures k < |s| ==> Value(s) >= Value(s[..k]) * 10
    decreases |s|
  {
    if k == |s| {
      assert s[..k] == s;
    } else {
      assert s[..|s| - 1][..k] == s[..k];
      ValueGrows(s[..|s| - 1], k);
    }
  }

  /** The length of the run of digits at the start of `s`. */
  function RunLength(s: seq<char>): (n: nat)
    ensures n <= |s| && (forall i :: 0 <= i < n ==> IsDigit(s[i])) && (n < |s| ==> !IsDigit(s[n]))
  {
    if s == [] || !IsDigit(s[0]) then 0 else 1 + RunLength(s[1..])
  }

  datatype Parsed = Number(value: nat) | TooBig

  /** parse_nonnegative_int: every run of digits up to INT_MAX is returned as its value, with any number of
      leading zeros, and every larger one is refused; nothing wraps 32 bits. The input ends in something that
      is no digit. */
  method ParseNonnegativeInt(s: seq<char>) returns (r: Parsed, at: nat)
    requires |s| > 0 && IsDigit(s[0]) && !IsDigit(s[|s| - 1])
    ensures r == if Value(s[..RunLength(s)]) <= INT_MAX then Number(Value(s[..RunLength(s)])) else TooBig
    ensures r.Number? ==> at == RunLength(s)
  {
    var value, big := 0, INT_MAX / 10;
    ghost var n := RunLength(s);
    at := 0;
    while true
      invariant at < n && value < UINT32_RANGE
      invariant value == Value(s[..at]) <= INT_MAX + 2
      decreases |s| - at
    {
      if value > big {
        ValueGrows(s[..n], at);
        assert s[..n][..at] == s[..at];
        value := INT_MAX + 1;
        break;
      }
      value := (value * 10 + DigitValue(s[at])) % UINT32_RANGE;
      at := at + 1;
      assert s[..at][..at - 1] == s[..at - 1];
      if !IsDigit(s[at]) { break; }
    }
    ValueGrows(s[..n], at);
    assert s[..n][..at] == s[..at];
    if value > INT_MAX { return TooBig, at; }
    return Number(value), at;
  }
}
