// The two length accumulators: Content-Length in decimal and the chunk size in hexadecimal.

module HttpNumbers {
  import opened Words
  import opened Digits
  import opened HttpChars
  import opened HttpParser
  import opened HttpInvariant
  import opened HttpRun
  import opened HttpMarks
  import opened HttpExecute
  import opened HttpMessage

  /** The number of decimal digits `v` begins with. */
  function Leading(v: seq<Byte>): (n: nat)
    ensures n <= |v| && (forall i :: 0 <= i < n ==> IsDigit(v[i])) && (n < |v| ==> !IsDigit(v[n]))
  {
    if v == [] then 0
    else
      var n := Leading(v[..|v| - 1]);
      if n == |v| - 1 && IsDigit(v[n]) then n + 1 else n
  }

  /** The largest value a further decimal digit may be appended to. */
  const DECIMAL_GUARD: nat := (ULLONG_MAX - 10) / 10

  predicate SpacesFrom(v: seq<Byte>, n: nat) { forall i :: n <= i < |v| ==> v[i] == ' ' }

  lemma SpacesSnoc(u: seq<Byte>, c: Byte, n: nat)
    requires n <= |u|
    ensures SpacesFrom(u + [c], n) <==> SpacesFrom(u, n) && c == ' '
  {
    var v := u + [c];
    assert v[|u|] == c && forall i :: 0 <= i < |u| ==> v[i] == u[i];
  }

  /** A Content-Length value as the parser takes it: at least one digit, then only spaces, and every digit
      but the last within the guard. */
  predicate IsLength(v: seq<Byte>) {
    var n := Leading(v);
    && 0 < n
    && SpacesFrom(v, n)
    && Value(v[..n - 1]) <= DECIMAL_GUARD
  }

  lemma LeadingSnoc(u: seq<Byte>, c: Byte)
    ensures Leading(u + [c]) == if Leading(u) == |u| && IsDigit(c) then |u| + 1 else Leading(u)
  {
    assert (u + [c])[..|u|] == u;
  }

  lemma DecimalDrops(u: seq<Byte>)
    requires u != [] && forall i :: 0 <= i < |u| ==> IsDigit(u[i])
    ensures Value(u[..|u| - 1]) <= Value(u)
  {
  }

  lemma NothingBehind(v: seq<Byte>)
    ensures SpacesFrom(v, |v|)
  {
  }

  lemma IsLengthSnoc(u: seq<Byte>, c: Byte)
    requires u != []
    ensures IsLength(u + [c]) <==>
            IsLength(u) && (c == ' ' || (IsDigit(c) && Leading(u) == |u| && Value(u) <= DECIMAL_GUARD))
  {
    hide Leading, SpacesFrom, Value;
    var v, n := u + [c], Leading(u);
    LeadingSnoc(u, c);
    if n == |u| && IsDigit(c) {
      assert v[..|u|] == u;
      DecimalDrops(u);
      NothingBehind(u);
      NothingBehind(v);
    } else {
      SpacesSnoc(u, c, n);
      if n > 0 { assert v[..n - 1] == u[..n - 1]; }
      if c == ' ' { assert !IsDigit(c); }
    }
  }

  // ---------------------------------------------------------------- Content-Length

  /** A byte of a header value. */
  lemma ValueByte(ps: Parser, t: Trace, ch: Byte)
    requires Valid(ps) && ps.state.HeaderValue? && ps.nread < MAX_HEADER_SIZE && ch != CR && ch != LF
    ensures if IsHeaderChar(ch) && ValueStep(ps, ch).Good?
            then Step(ps, t, ch).outcome.Going? && Step(ps, t, ch).ps == ValueStep(ps, ch).ps.(nread := ps.nread + 1)
            else Step(ps, t, ch).outcome.Failed?
  {
    hide ValueStep, IsHeaderChar, StateInv, FlushAll, Play;
    ValueStepIgnoresCount(ps, ch, ps.nread + 1);
  }

  /** The matcher after the value `v`: all of it accumulated, and the length seen as such. */
  predicate AtLength(ps: Parser, nread: nat, was: Flags, v: seq<Byte>) {
    var n := Leading(v);
    && ps.state.HeaderValue?
    && ps.hstate == (if n == |v| then ContentLengthNum else ContentLengthWs)
    && ps.contentLength == Value(v[..n]) && ps.contentLength < ULLONG_MAX
    && ps.nread == nread && ps.flags == was.(contentLength := true)
  }

  lemma FirstDigit(ps: Parser, t: Trace, ch: Byte)
    requires Valid(ps) && ps.state.HeaderValueDiscardWs? && ps.hstate.ContentLength? && ps.nread < MAX_HEADER_SIZE
    requires ch != ' ' && ch != '\t' && ch != CR && ch != LF
    ensures var s := Step(ps, t, ch);
            if IsDigit(ch) && !ps.flags.contentLength
            then s.outcome.Going? && AtLength(s.ps, ps.nread + 1, ps.flags, [ch])
            else s.outcome.Failed? && (IsDigit(ch) ==> s.ps.errno == UnexpectedContentLength)
  {
    hide StateInv, FlushAll, Play, Chain;
    FirstDigitTurn(ps.(nread := ps.nread + 1), ch);
    OneDigitValue(ch);
  }

  lemma OneDigitValue(ch: Byte)
    ensures IsDigit(ch) ==> Leading([ch]) == 1 && [ch][..1] == [ch] && Value([ch]) == DigitValue(ch)
  {
    assert [ch][..1] == [ch] && [ch][..0] == [];
  }

  lemma FirstDigitTurn(ps: Parser, ch: Byte)
    requires ps.state.HeaderValueDiscardWs? && ps.hstate.ContentLength?
    requires ch != ' ' && ch != '\t' && ch != CR && ch != LF
    ensures Chain(ps, ch) ==
            if !IsDigit(ch) then Refused(InvalidContentLength, [])
            else if ps.flags.contentLength then Refused(UnexpectedContentLength, [])
            else Fed(ps.(state := HeaderValue, index := 0, flags := ps.flags.(contentLength := true),
                         contentLength := DigitValue(ch), hstate := ContentLengthNum), [Mark(ValueData)], false)
  {
    hide Lower;
  }

  lemma NextDigit(ps: Parser, nread: nat, was: Flags, v: seq<Byte>, ch: Byte)
    requires AtLength(ps, nread, was, v) && IsLength(v) && v != [] && ch != CR && ch != LF
    ensures var s := ValueStep(ps, ch);
            if IsLength(v + [ch]) then s.Good? && IsHeaderChar(ch) && AtLength(s.ps, nread, was, v + [ch])
            else s.Bad? || !IsHeaderChar(ch)
  {
    hide Leading;
    IsLengthSnoc(v, ch);
    LeadingSnoc(v, ch);
    var w := v + [ch];
    if Leading(v) == |v| {
      assert v[..|v|] == v && w[..|v|] == v && w[..|w|] == w;
      if IsDigit(ch) { assert Value(w) == Value(v) * 10 + DigitValue(ch) by { assert w[..|w| - 1] == v; } }
    } else {
      assert w[..Leading(v)] == v[..Leading(v)];
    }
  }

  /** A Content-Length value is accepted exactly when it is digits followed by spaces within the guard, for
      any number of digits, and then content_length is the decimal value of the digits: no digit wraps
      64 bits and the value is never the "absent" mark. */
  lemma {:induction false} ContentLengthExact(ps: Parser, t: Trace, v: seq<Byte>)
    requires Valid(ps) && ps.state.HeaderValueDiscardWs? && ps.hstate.ContentLength? && !ps.flags.contentLength
    requires v != [] && v[0] != ' ' && v[0] != '\t' && forall i :: 0 <= i < |v| ==> v[i] != CR && v[i] != LF
    requires ps.nread + |v| <= MAX_HEADER_SIZE
    ensures var r := Run(ps, t, v);
            && (r.outcome.Going? <==> IsLength(v))
            && (IsLength(v) ==> AtLength(r.ps, ps.nread + |v|, ps.flags, v))
            && !r.outcome.Upgraded?
    decreases |v|
  {
    hide Run, Step, Valid, AtLength, IsLength, ValueStep, IsHeaderChar;
    var u, c := v[..|v| - 1], v[|v| - 1];
    assert v == u + [c];
    RunOk(ps, t, u);
    if u == [] {
      FirstDigit(ps, t, c);
      RunOne(ps, t, c);
      assert v == [c];
      OneDigitIsLength(c);
    } else {
      ContentLengthExact(ps, t, u);
      RunConcat(ps, t, u, [c]);
      IsLengthSnoc(u, c);
      var r := Run(ps, t, u);
      if r.outcome.Going? {
        AtLengthState(r.ps, ps.nread + |u|, ps.flags, u);
        ValueByte(r.ps, r.trace, c);
        NextDigit(r.ps, ps.nread + |u|, ps.flags, u, c);
        RunOne(r.ps, r.trace, c);
        if IsLength(v) { Recounted(ValueStep(r.ps, c).ps, ps.nread + |u|, ps.flags, v, ps.nread + |v|); }
      }
    }
  }

  /** In numbers: a digit string is accepted exactly if its value is below 2^64 - 6, so that six lengths that would
      fit 64 bits are refused. */
  lemma LengthsBelow(ps: Parser, t: Trace, v: seq<Byte>)
    requires Valid(ps) && ps.state.HeaderValueDiscardWs? && ps.hstate.ContentLength? && !ps.flags.contentLength
    requires v != [] && ps.nread + |v| <= MAX_HEADER_SIZE && forall i :: 0 <= i < |v| ==> IsDigit(v[i])
    ensures Run(ps, t, v).outcome.Going? <==> Value(v) < UINT64_RANGE - 6
  {
    hide Run, Valid, Leading;
    DigitsAreNoBlanks(v);
    AllLeading(v);
    NothingBehind(v);
    ContentLengthExact(ps, t, v);
    assert v[..|v|] == v;
  }

  /** 2^64 - 6. */
  const LARGE_LENGTH: seq<Byte> := "18446744073709551610"

  lemma OneMoreDigit(ds: seq<Byte>, k: nat)
    requires k < |ds| && forall i :: 0 <= i < |ds| ==> IsDigit(ds[i])
    ensures Value(ds[..k + 1]) == Value(ds[..k]) * 10 + DigitValue(ds[k])
  {
    assert ds[..k + 1][..k] == ds[..k];
  }

  function Five(ds: seq<Byte>, k: nat): nat
    requires k + 5 <= |ds| && forall i :: 0 <= i < |ds| ==> IsDigit(ds[i])
  {
    DigitValue(ds[k]) * 10000 + DigitValue(ds[k + 1]) * 1000 + DigitValue(ds[k + 2]) * 100
    + DigitValue(ds[k + 3]) * 10 + DigitValue(ds[k + 4])
  }

  lemma LargeDigits()
    ensures |LARGE_LENGTH| == 20 && forall i :: 0 <= i < 20 ==> IsDigit(LARGE_LENGTH[i])
    ensures Five(LARGE_LENGTH, 0) == 18446 && Five(LARGE_LENGTH, 5) == 74407
    ensures Five(LARGE_LENGTH, 10) == 37095 && Five(LARGE_LENGTH, 15) == 51610
  {
  }

  lemma FiveMoreDigits(ds: seq<Byte>, k: nat)
    requires k + 5 <= |ds| && forall i :: 0 <= i < |ds| ==> IsDigit(ds[i])
    ensures Value(ds[..k + 5]) == Value(ds[..k]) * 100000 + Five(ds, k)
  {
    OneMoreDigit(ds, k);
    OneMoreDigit(ds, k + 1);
    OneMoreDigit(ds, k + 2);
    OneMoreDigit(ds, k + 3);
    OneMoreDigit(ds, k + 4);
  }

  lemma LargeLengthIs()
    ensures |LARGE_LENGTH| == 20 && forall i :: 0 <= i < 20 ==> IsDigit(LARGE_LENGTH[i])
    ensures Value(LARGE_LENGTH) == UINT64_RANGE - 6
  {
    hide Value, LARGE_LENGTH, Five;
    LargeDigits();
    NoDigits(LARGE_LENGTH);
    FiveMoreDigits(LARGE_LENGTH, 0);
    FiveMoreDigits(LARGE_LENGTH, 5);
    FiveMoreDigits(LARGE_LENGTH, 10);
    FiveMoreDigits(LARGE_LENGTH, 15);
    assert LARGE_LENGTH[..20] == LARGE_LENGTH;
  }

  lemma NoDigits(ds: seq<Byte>)
    ensures Value(ds[..0]) == 0
  {
  }

  /** Content-Length: 18446744073709551610 is refused. */
  lemma LargeLengthRefused(ps: Parser, t: Trace)
    requires Valid(ps) && ps.state.HeaderValueDiscardWs? && ps.hstate.ContentLength? && !ps.flags.contentLength
    requires ps.nread + 20 <= MAX_HEADER_SIZE
    ensures !Run(ps, t, LARGE_LENGTH).outcome.Going?
  {
    hide Run, Valid, LARGE_LENGTH, Value;
    LargeLengthIs();
    LengthsBelow(ps, t, LARGE_LENGTH);
  }

  lemma DigitsAreNoBlanks(v: seq<Byte>)
    requires forall i :: 0 <= i < |v| ==> IsDigit(v[i])
    ensures forall i :: 0 <= i < |v| ==> v[i] != ' ' && v[i] != '\t' && v[i] != CR && v[i] != LF
  {
  }

  lemma AllLeading(v: seq<Byte>)
    requires forall i :: 0 <= i < |v| ==> IsDigit(v[i])
    ensures Leading(v) == |v|
  {
  }

  lemma AtLengthState(ps: Parser, nread: nat, was: Flags, v: seq<Byte>)
    requires AtLength(ps, nread, was, v)
    ensures ps.state.HeaderValue? && ps.nread == nread
  {
  }

  lemma Recounted(ps: Parser, nread: nat, was: Flags, v: seq<Byte>, n: nat)
    requires AtLength(ps, nread, was, v)
    ensures AtLength(ps.(nread := n), n, was, v)
  {
  }

  lemma OneDigitIsLength(c: Byte)
    ensures IsLength([c]) <==> IsDigit(c)
  {
    assert [c][..0] == [] && Leading([]) == 0;
    LeadingSnoc([], c);
    assert [] + [c] == [c];
  }

  /** An empty Content-Length is refused at its line end. */
  lemma EmptyLengthRefused(ps: Parser, t: Trace, ch: Byte)
    requires Valid(ps) && ps.hstate.ContentLength? && ps.nread < MAX_HEADER_SIZE
    requires ps.state.HeaderValueDiscardLws? && ch != ' ' && ch != '\t'
    ensures Run(ps, t, [ch]).outcome.Failed? && Run(ps, t, [ch]).ps.errno == InvalidContentLength
  {
    hide StateInv, FlushAll, Play, Lower, Chain;
    RefusedLengths(ps.(nread := ps.nread + 1), ch);
    hide Run;
    RunOne(ps, t, ch);
  }

  lemma NextLengthRefused(ps: Parser, t: Trace, ch: Byte)
    requires Valid(ps) && ps.state.HeaderValueDiscardWs? && ps.hstate.ContentLength? && ps.flags.contentLength
    requires IsDigit(ch)
    ensures var s := Step(ps, t, ch);
            && s.outcome.Failed?
            && s.ps.errno == if ps.nread == MAX_HEADER_SIZE then HeaderOverflow else UnexpectedContentLength
  {
    hide StateInv, FlushAll, Play, Lower, Chain;
    RefusedLengths(ps.(nread := ps.nread + 1), ch);
  }

  /** A message has one Content-Length at most. Once the first digit of one has been taken, then whatever is read next,
      as long as no further message begins, the first digit of another one is refused; with an error of its own, if
      the header has not become too long before. */
  lemma SecondLengthRefused(ps: Parser, t: Trace, digit: Byte, between: seq<Byte>, next: Byte)
    requires Valid(ps) && ps.state.HeaderValueDiscardWs? && ps.hstate.ContentLength? && IsDigit(digit) && IsDigit(next)
    requires var r := Run(ps, t, [digit] + between);
             && r.outcome.Going? && Begins(r.trace) == Begins(t)
             && r.ps.state.HeaderValueDiscardWs? && r.ps.hstate.ContentLength?
    ensures var r := Run(ps, t, [digit] + between);
            var f := Run(ps, t, [digit] + between + [next]);
            && f.outcome.Failed?
            && f.ps.errno == if r.ps.nread == MAX_HEADER_SIZE then HeaderOverflow else UnexpectedContentLength
  {
    hide Run, Valid, Begins, Step;
    RunConcat(ps, t, [digit], between);
    RunOne(ps, t, digit);
    var s := Step(ps, t, digit);
    RunOk(ps, t, [digit] + between);
    NoBlankDigit(digit);
    FirstLengthDigit(ps, t, digit);
    StepLasts(ps, t, digit);
    RunLasts(s.ps, s.trace, between);
    var r := Run(ps, t, [digit] + between);
    RunConcat(ps, t, [digit] + between, [next]);
    NextLengthRefused(r.ps, r.trace, next);
    RunOne(r.ps, r.trace, next);
  }

  lemma NoBlankDigit(ch: Byte)
    requires IsDigit(ch)
    ensures ch != ' ' && ch != '\t' && ch != CR && ch != LF
  {
  }

  /** The first digit sets the flag, if it is taken at all. */
  lemma FirstLengthDigit(ps: Parser, t: Trace, ch: Byte)
    requires Valid(ps) && ps.state.HeaderValueDiscardWs? && ps.hstate.ContentLength? && IsDigit(ch)
    ensures var s := Step(ps, t, ch);
            s.outcome.Going? ==> s.ps.flags.contentLength
  {
    NoBlankDigit(ch);
    hide StateInv, FlushAll, Play, Chain, IsDigit;
    FirstDigitTurn(ps.(nread := ps.nread + 1), ch);
  }

  lemma RefusedLengths(ps: Parser, ch: Byte)
    requires ps.hstate.ContentLength?
    ensures ps.state.HeaderValueDiscardWs? && ps.flags.contentLength && IsDigit(ch) ==>
              Chain(ps, ch) == Refused(UnexpectedContentLength, [])
    ensures ps.state.HeaderValueDiscardLws? && ch != ' ' && ch != '\t' ==>
              Chain(ps, ch) == Refused(InvalidContentLength, [])
  {
    hide Lower;
  }

  // ---------------------------------------------------------------- chunk sizes

  /** The hexadecimal value of a digit string, in the parser's own digits: bytes from 0x80 on read as 0. */
  function Hexadecimal(hs: seq<Byte>): nat
    requires forall i :: 0 <= i < |hs| ==> Unhex(hs[i]).Hex?
  {
    if hs == [] then 0 else Hexadecimal(hs[..|hs| - 1]) * 16 + Unhex(hs[|hs| - 1]).value
  }

  const HEX_GUARD: nat := (ULLONG_MAX - 16) / 16

  predicate AtChunkSize(ps: Parser, nread: nat, hs: seq<Byte>) {
    && (forall i :: 0 <= i < |hs| ==> Unhex(hs[i]).Hex?)
    && ps.state.ChunkSize? && ps.contentLength == Hexadecimal(hs) && ps.contentLength < ULLONG_MAX && ps.nread == nread
  }

  lemma FirstChunkDigit(ps: Parser, t: Trace, ch: Byte)
    requires Valid(ps) && Unhex(ch).Hex? && ps.state.ChunkSizeStart?
    ensures var s := Step(ps, t, ch);
            s == Ran(ps.(contentLength := Unhex(ch).value, state := ChunkSize, nread := 1), t, 1, Going)
  {
    hide Play, Unhex, MethodState, NameState, ValueState;
    var next := ps.(contentLength := Unhex(ch).value, state := ChunkSize, nread := 1);
    assert Feed(ps, ch) == Fed(next, [], false);
    PlayNothing(t, ch);
    hide Feed, FlushAll;
    FlushAllOne(BodyData, t, ch);
  }

  lemma NextChunkDigit(ps: Parser, t: Trace, ch: Byte)
    requires Unhex(ch).Hex? && ps.state.ChunkSize? && ps.flags.chunked && ps.nread < MAX_HEADER_SIZE && ch != CR
    requires ps.contentLength <= HEX_GUARD ==> ps.contentLength * 16 + Unhex(ch).value <= ULLONG_MAX
    ensures var s := Step(ps, t, ch);
            if ps.contentLength <= HEX_GUARD
            then s.outcome.Going?
              && s.ps == ps.(contentLength := ps.contentLength * 16 + Unhex(ch).value, nread := ps.nread + 1)
            else s.outcome.Failed?
  {
    hide FlushAll, Play, Unhex;
  }

  lemma ChunkedThere(ps: Parser)
    requires Valid(ps)
    ensures ps.state.ChunkSizeStart? || ps.state.ChunkSize? ==> ps.flags.chunked
  {
    hide MethodState, NameState, ValueState;
  }

  lemma HexadecimalSnoc(hs: seq<Byte>, ch: Byte)
    requires (forall i :: 0 <= i < |hs| ==> Unhex(hs[i]).Hex?) && Unhex(ch).Hex?
    ensures forall i :: 0 <= i < |hs + [ch]| ==> Unhex((hs + [ch])[i]).Hex?
    ensures Hexadecimal(hs + [ch]) == Hexadecimal(hs) * 16 + Unhex(ch).value
    ensures hs == [] ==> Hexadecimal(hs) == 0
  {
    hide Unhex;
    assert (hs + [ch])[..|hs|] == hs;
  }

  lemma ChunkSizeStep(ps: Parser, t: Trace, hs: seq<Byte>, ch: Byte)
    requires Valid(ps) && |hs| < MAX_HEADER_SIZE && Unhex(ch).Hex?
    requires if hs == [] then ps.state.ChunkSizeStart? else AtChunkSize(ps, |hs|, hs)
    ensures var s := Step(ps, t, ch);
            if hs == [] || Hexadecimal(hs) <= HEX_GUARD
            then s.outcome.Going? && AtChunkSize(s.ps, |hs| + 1, hs + [ch])
            else s.outcome.Failed?
  {
    hide Step, Unhex, Valid, Hexadecimal;
    ChunkedThere(ps);
    UnhexBound(ch);
    if forall i :: 0 <= i < |hs| ==> Unhex(hs[i]).Hex? { HexadecimalSnoc(hs, ch); }
    if hs == [] { FirstChunkDigit(ps, t, ch); } else { NextChunkDigit(ps, t, ch); }
  }

  lemma UnhexBound(ch: Byte)
    ensures Unhex(ch).Hex? ==> Unhex(ch).value < 16 && ch != CR
  {
  }

  /** A chunk size of any number of digits is accepted exactly when all its digits but the last are within
      the guard, and then content_length is its hexadecimal value, without wrapping 64 bits. */
  lemma {:induction false} ChunkSizeExact(ps: Parser, t: Trace, hs: seq<Byte>)
    requires Valid(ps) && ps.state.ChunkSizeStart? && 0 < |hs| <= MAX_HEADER_SIZE
    requires forall i :: 0 <= i < |hs| ==> Unhex(hs[i]).Hex?
    ensures var r := Run(ps, t, hs);
            && (r.outcome.Going? <==> Hexadecimal(hs[..|hs| - 1]) <= HEX_GUARD)
            && (r.outcome.Going? ==> AtChunkSize(r.ps, |hs|, hs))
            && !r.outcome.Upgraded?
    decreases |hs|
  {
    hide Run, Step, Valid, AtChunkSize, Unhex;
    var u, c := hs[..|hs| - 1], hs[|hs| - 1];
    assert hs == u + [c];
    if u == [] {
      assert hs == [c];
      ChunkSizeStep(ps, t, u, c);
      RunOne(ps, t, c);
    } else {
      ChunkSizeExact(ps, t, u);
      RunConcat(ps, t, u, [c]);
      RunOk(ps, t, u);
      var r := Run(ps, t, u);
      assert Hexadecimal(u) == Hexadecimal(u[..|u| - 1]) * 16 + Unhex(u[|u| - 1]).value;
      if r.outcome.Going? {
        ChunkSizeStep(r.ps, r.trace, u, c);
        RunOne(r.ps, r.trace, c);
      }
    }
  }

  /** In numbers: a chunk size is accepted exactly if it is below 2^64 - 16. */
  lemma ChunkSizesBelow(ps: Parser, t: Trace, hs: seq<Byte>)
    requires Valid(ps) && ps.state.ChunkSizeStart? && 0 < |hs| <= MAX_HEADER_SIZE
    requires forall i :: 0 <= i < |hs| ==> Unhex(hs[i]).Hex?
    ensures Run(ps, t, hs).outcome.Going? <==> Hexadecimal(hs) < UINT64_RANGE - 16
  {
    hide Run, Valid, Unhex;
    ChunkSizeExact(ps, t, hs);
    UnhexBound(hs[|hs| - 1]);
  }

  /** 2^64 - 16. */
  const LARGE_SIZE: seq<Byte> := "FFFFFFFFFFFFFFF0"

  predicate AllHex(hs: seq<Byte>) { forall i :: 0 <= i < |hs| ==> Unhex(hs[i]).Hex? }

  lemma OneMoreHex(hs: seq<Byte>, k: nat)
    requires k < |hs| && AllHex(hs)
    ensures Hexadecimal(hs[..k + 1]) == Hexadecimal(hs[..k]) * 16 + Unhex(hs[k]).value
  {
    hide Unhex;
    assert hs[..k + 1][..k] == hs[..k];
  }

  /** `n` digits F in a row. */
  lemma {:induction false} AllOnes(hs: seq<Byte>, n: nat)
    requires n <= |hs| && AllHex(hs) && forall i :: 0 <= i < n ==> hs[i] == 'F'
    ensures Hexadecimal(hs[..n]) == Power16(n) - 1
  {
    hide Hexadecimal;
    if n == 0 {
      NoHex(hs);
    } else {
      AllOnes(hs, n - 1);
      OneMoreHex(hs, n - 1);
    }
  }

  lemma NoHex(hs: seq<Byte>)
    requires AllHex(hs)
    ensures Hexadecimal(hs[..0]) == 0
  {
    hide Unhex;
  }

  function Power16(n: nat): (p: nat)
    ensures p > 0
  {
    if n == 0 then 1 else 16 * Power16(n - 1)
  }

  lemma Power16Of15()
    ensures Power16(15) == UINT64_RANGE / 16
  {
    assert Power16(5) == 0x10_0000 && Power16(10) == 0x100_0000_0000;
  }

  lemma LargeSizeIs()
    ensures |LARGE_SIZE| == 16 && AllHex(LARGE_SIZE) && Hexadecimal(LARGE_SIZE) == UINT64_RANGE - 16
  {
    hide Hexadecimal, Power16;
    AllOnes(LARGE_SIZE, 15);
    Power16Of15();
    OneMoreHex(LARGE_SIZE, 15);
    assert LARGE_SIZE[..16] == LARGE_SIZE;
  }

  /** The chunk size FFFFFFFFFFFFFFF0 is refused. */
  lemma LargeSizeRefused(ps: Parser, t: Trace)
    requires Valid(ps) && ps.state.ChunkSizeStart?
    ensures !Run(ps, t, LARGE_SIZE).outcome.Going?
  {
    hide Run, Valid, LARGE_SIZE, Hexadecimal, Unhex;
    LargeSizeIs();
    ChunkSizesBelow(ps, t, LARGE_SIZE);
  }

  /** The value of a hexadecimal digit as everybody reads it. */
  function HexDigit(ch: Byte): nat
    requires IsHex(ch)
  {
    if IsDigit(ch) then DigitValue(ch) else Lower(ch) as int - 'a' as int + 10
  }

  /** The parser's hexadecimal digits are the usual ones on exactly the ASCII bytes. */
  lemma UnhexIsHexadecimal(ch: Byte)
    ensures (Unhex(ch).Hex? <==> IsHex(ch)) <==> ch as int < 128
    ensures IsHex(ch) ==> Unhex(ch) == Hex(HexDigit(ch))
    ensures ch as int >= 128 ==> Unhex(ch) == Hex(0)
  {
  }

  /** `n` is written in the usual hexadecimal digits `hs`. */
  predicate Writes(hs: seq<Byte>, n: nat)
    decreases |hs|
  {
    if hs == [] then n == 0
    else IsHex(hs[|hs| - 1]) && n % 16 == HexDigit(hs[|hs| - 1]) && Writes(hs[..|hs| - 1], n / 16)
  }

  predicate Ascii(hs: seq<Byte>) { forall i :: 0 <= i < |hs| ==> hs[i] as int < 128 }

  lemma {:induction false} HexadecimalWrites(hs: seq<Byte>)
    requires forall i :: 0 <= i < |hs| ==> Unhex(hs[i]).Hex?
    ensures Writes(hs, Hexadecimal(hs)) <==> Ascii(hs)
    decreases |hs|
  {
    hide IsHex, HexDigit, Unhex;
    if hs != [] {
      var last, rest := hs[|hs| - 1], hs[..|hs| - 1];
      assert hs == rest + [last];
      UnhexIsHexadecimal(last);
      UnhexBound(last);
      HexadecimalWrites(rest);
      assert Ascii(hs) <==> Ascii(rest) && last as int < 128;
    }
  }

  /** The length of a chunk whose size is accepted is what its digits say if and only if they are ASCII. */
  lemma ChunkSizeIsWritten(ps: Parser, t: Trace, hs: seq<Byte>)
    requires Valid(ps) && ps.state.ChunkSizeStart? && 0 < |hs| <= MAX_HEADER_SIZE
    requires forall i :: 0 <= i < |hs| ==> Unhex(hs[i]).Hex?
    requires Run(ps, t, hs).outcome.Going?
    ensures Writes(hs, Run(ps, t, hs).ps.contentLength) <==> Ascii(hs)
  {
    hide Run, Valid, Unhex, Writes;
    ChunkSizeExact(ps, t, hs);
    HexadecimalWrites(hs);
  }

  /** The byte 0x80, no digit at all, is a chunk size of 0: with a line end it announces the last chunk. */
  lemma HighByteEndsChunks(ps: Parser, t: Trace)
    requires Valid(ps) && ps.state.ChunkSizeStart?
    ensures var r := Run(ps, t, [128 as char, CR, LF]);
            && r.outcome.Going? && r.ps.state.HeaderFieldStart? && r.ps.flags.trailing
            && r.trace == Emit(t, Notice(r.ps, ChunkHeader).event) && r.ps.contentLength == 0
    ensures !IsHex(128 as char)
  {
    hide Run, Valid, Emit, Step;
    var sized := ps.(contentLength := 0, state := ChunkSize, nread := 1);
    var ended := sized.(state := ChunkSizeAlmostDone, nread := 2);
    FirstChunkDigit(ps, t, 128 as char);
    ChunkedThere(ps);
    SizeLineCr(sized, t);
    LastChunkLf(ended, t);
    StepOk(ps, t, 128 as char);
    StepOk(sized, t, CR);
    RunOne(ps, t, 128 as char);
    RunOne(sized, t, CR);
    RunOne(ended, t, LF);
    RunConcat(ps, t, [128 as char], [CR]);
    RunConcat(ps, t, [128 as char, CR], [LF]);
    assert [128 as char] + [CR] == [128 as char, CR] && [128 as char, CR] + [LF] == [128 as char, CR, LF];
  }

  lemma SizeLineCr(ps: Parser, t: Trace)
    requires ps.state.ChunkSize? && ps.flags.chunked && ps.nread < MAX_HEADER_SIZE
    ensures Step(ps, t, CR) == Ran(ps.(state := ChunkSizeAlmostDone, nread := ps.nread + 1), t, 1, Going)
  {
    hide Unhex;
    var counted := ps.(nread := ps.nread + 1);
    assert Dispatch(counted, CR) == Next(counted.(state := ChunkSizeAlmostDone), []);
  }

  lemma LastChunkLf(ps: Parser, t: Trace)
    requires ps.state.ChunkSizeAlmostDone? && ps.flags.chunked && ps.contentLength == 0 && ps.nread < MAX_HEADER_SIZE
    ensures var last := ps.(nread := 0, flags := ps.flags.(trailing := true), state := HeaderFieldStart);
            Step(ps, t, LF) == Ran(last, Emit(t, Notice(last, ChunkHeader).event), 1, Going)
  {
    hide Emit, Play;
    var last := ps.(nread := 0, flags := ps.flags.(trailing := true), state := HeaderFieldStart);
    var acts := [Notice(last, ChunkHeader)];
    assert Dispatch(ps.(nread := ps.nread + 1), LF) == Next(last, acts);
    assert Feed(ps, LF) == Fed(last, acts, false);
    PlayNotice(acts[0], t, LF);
    hide Feed, FlushAll;
    FlushAllOne(BodyData, Emit(t, acts[0].event), LF);
  }
}
