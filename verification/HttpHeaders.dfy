// Header lines: what each of them teaches the parser, and what a whole block of them leads to.

module HttpHeaders {
  import opened Digits
  import opened HttpChars
  import opened HttpParser
  import opened HttpInvariant
  import opened HttpRun
  import opened HttpMarks
  import opened HttpSteps
  import opened HttpNames
  import opened HttpNumbers
  import opened HttpElements
  import opened HttpLines
  import opened HttpOptions
  import opened HttpCodings
  import opened HttpFields

  // ---------------------------------------------------------------- values that are not looked into

  predicate PlainName(h: HState) { !h.Connection? && !h.TransferEncoding? && !h.ContentLength? }

  /** The flags behind a value that is not looked into: Upgrade is noted by its first byte. */
  function PlainFlags(ps: Parser): Flags { if ps.hstate.Upgrade? then ps.flags.(upgrade := true) else ps.flags }

  lemma FirstPlainTurn(ps: Parser, ch: Byte)
    requires ps.state.HeaderValueDiscardWs? && NameState(ps.hstate, ps.index) && PlainName(ps.hstate)
    requires !IsBlank(ch) && ch != CR && ch != LF
    ensures Dispatch(ps, ch) ==
            Next(ps.(state := HeaderValue, index := 0, flags := PlainFlags(ps), hstate := General), [Mark(ValueData)])
  {
    hide Lower;
  }

  lemma {:induction false} PlainRun(ps: Parser, t: Trace, s: seq<Sign>)
    requires Valid(ps) && ps.state.HeaderValueDiscardWs? && PlainName(ps.hstate) && IsValue(s)
    requires ps.nread + |Sent(s)| <= MAX_HEADER_SIZE
    ensures var r := Run(ps, t, Sent(s));
            r.outcome.Going?
            && r.ps == ps.(state := HeaderValue, index := 0, flags := PlainFlags(ps), hstate := General,
                           nread := ps.nread + |Sent(s)|)
    decreases |s|
  {
    hide Run, Valid, Step, IsHeaderChar, PlainFlags, PlainName;
    var u, x := s[..|s| - 1], s[|s| - 1];
    if u == [] {
      assert Sent(s) == [x.c];
      FirstPlain(ps, t, x.c);
    } else {
      assert u[0] == s[0] && IsSign(x);
      PlainRun(ps, t, u);
      RunOk(ps, t, Sent(u));
      RunConcat(ps, t, Sent(u), SentAs(x));
      var r := Run(ps, t, Sent(u));
      PlainNext(r.ps, r.trace, x);
    }
  }

  lemma FirstPlain(ps: Parser, t: Trace, c: Byte)
    requires Valid(ps) && ps.state.HeaderValueDiscardWs? && PlainName(ps.hstate) && ps.nread < MAX_HEADER_SIZE
    requires !IsBlank(c) && c != CR && c != LF
    ensures var r := Run(ps, t, [c]);
            r.outcome.Going?
            && r.ps == ps.(state := HeaderValue, index := 0, flags := PlainFlags(ps), hstate := General,
                           nread := ps.nread + 1)
  {
    hide Run, Valid, Step, Chain, Dispatch, NameState;
    BeforeValue(ps);
    var counted := ps.(nread := ps.nread + 1);
    var next := counted.(state := HeaderValue, index := 0, flags := PlainFlags(ps), hstate := General);
    FirstPlainTurn(counted, c);
    ChainOnce(counted, c, next, [Mark(ValueData)]);
    HeaderStep(ps, t, c, next, [Mark(ValueData)]);
    RunOne(ps, t, c);
  }

  lemma PlainNext(ps: Parser, t: Trace, x: Sign)
    requires Valid(ps) && ps.state.HeaderValue? && ps.hstate.General? && ps.index == 0 && IsSign(x)
    requires ps.nread + |SentAs(x)| <= MAX_HEADER_SIZE
    ensures var r := Run(ps, t, SentAs(x));
            r.outcome.Going? && r.ps == ps.(nread := ps.nread + |SentAs(x)|)
  {
    hide Run, Valid, Step, IsHeaderChar, ValueStep;
    match x {
      case Char(c) =>
        LostStep(ps, c);
        ValueByte(ps, t, c);
        RunOne(ps, t, c);
      case Fold(eol, blank) =>
        FoldRun(ps, t, eol, blank);
    }
  }

  /** Any byte is taken in the first place of a value that is not looked into, a control character too; in the second
      place the same byte is taken only if it is a header character. */
  lemma FirstByteUnchecked(ps: Parser, t: Trace, c: Byte)
    requires Valid(ps) && ps.state.HeaderValueDiscardWs? && PlainName(ps.hstate) && ps.nread + 2 <= MAX_HEADER_SIZE
    requires !IsBlank(c) && c != CR && c != LF
    ensures Run(ps, t, [c]).outcome.Going?
    ensures Run(ps, t, ['x', c]).outcome.Going? <==> IsHeaderChar(c)
  {
    hide Run, Valid, Step, IsHeaderChar, ValueStep;
    FirstPlain(ps, t, c);
    FirstPlain(ps, t, 'x');
    RunOk(ps, t, ['x']);
    var r := Run(ps, t, ['x']);
    LostStep(r.ps, c);
    ValueByte(r.ps, r.trace, c);
    RunOne(r.ps, r.trace, c);
    RunConcat(ps, t, ['x'], [c]);
    assert ['x'] + [c] == ['x', c];
  }

  // ---------------------------------------------------------------- a length over several lines

  /** A Content-Length value: digits within the guard, and behind them only spaces and folds. */
  predicate IsLengthValue(s: seq<Sign>) {
    var v, n := Marked(s), Leading(Marked(s));
    && 0 < n
    && Value(v[..n - 1]) <= DECIMAL_GUARD
    && forall i :: n <= i < |s| ==> s[i].Fold? || s[i].c == ' '
  }

  /** The number its digits denote. */
  function LengthOf(s: seq<Sign>): nat { Value(Marked(s)[..Leading(Marked(s))]) }

  /** The parser inside such a value. */
  predicate InLength(was: Parser, ps: Parser, s: seq<Sign>) {
    && ps.state.HeaderValue? && ps.nread == was.nread + |Sent(s)|
    && ps.hstate == (if Leading(Marked(s)) == |s| then ContentLengthNum else ContentLengthWs)
    && ps.contentLength == LengthOf(s) && ps.flags == was.flags.(contentLength := true)
  }

  lemma {:induction false} DigitSigns(s: seq<Sign>)
    requires Leading(Marked(s)) == |s|
    ensures Sent(s) == Marked(s)
    decreases |s|
  {
    if s != [] {
      var u := s[..|s| - 1];
      FoldedSnoc(u, s[|s| - 1]);
      assert u + [s[|s| - 1]] == s;
      assert Marked(s)[..|s| - 1] == Marked(u);
      assert IsDigit(Marked(s)[|s| - 1]);
      LeadingSnoc(Marked(u), Marked(s)[|s| - 1]);
      DigitSigns(u);
    }
  }

  /** A byte behind the digits. */
  lemma LengthSnoc(s: seq<Sign>)
    requires IsLengthValue(s) && Leading(Marked(s)) < |s|
    ensures var u := s[..|s| - 1];
            u != [] && IsLengthValue(u) && LengthOf(u) == LengthOf(s) && Sent(s) == Sent(u) + SentAs(s[|s| - 1])
  {
    hide Value, Leading;
    var u, x, n := s[..|s| - 1], s[|s| - 1], Leading(Marked(s));
    assert u + [x] == s;
    FoldedSnoc(u, x);
    LeadingSnoc(Marked(u), Marked(s)[|s| - 1]);
    assert Marked(s)[..n] == Marked(u)[..n] && Marked(s)[..n - 1] == Marked(u)[..n - 1];
  }

  lemma DigitsRun(ps: Parser, t: Trace, s: seq<Sign>)
    requires Valid(ps) && ps.state.HeaderValueDiscardWs? && ps.hstate.ContentLength? && !ps.flags.contentLength
    requires IsLengthValue(s) && Leading(Marked(s)) == |s| && ps.nread + |Sent(s)| <= MAX_HEADER_SIZE
    ensures Run(ps, t, Sent(s)).outcome.Going? && InLength(ps, Run(ps, t, Sent(s)).ps, s)
  {
    hide Run, Valid, Value, Leading;
    var v := Marked(s);
    DigitSigns(s);
    NothingBehind(v);
    DigitsAreNoBlanks(v);
    ContentLengthExact(ps, t, v);
  }

  lemma {:induction false} LengthRun(ps: Parser, t: Trace, s: seq<Sign>)
    requires Valid(ps) && ps.state.HeaderValueDiscardWs? && ps.hstate.ContentLength? && !ps.flags.contentLength
    requires IsLengthValue(s) && (forall i :: 1 <= i < |s| ==> IsSign(s[i]))
    requires ps.nread + |Sent(s)| <= MAX_HEADER_SIZE
    ensures Run(ps, t, Sent(s)).outcome.Going? && InLength(ps, Run(ps, t, Sent(s)).ps, s)
    decreases |s|
  {
    hide Run, Valid, IsSign, IsLengthValue, LengthOf;
    if Leading(Marked(s)) == |s| {
      DigitsRun(ps, t, s);
    } else {
      LengthSnoc(s);
      var u, x := s[..|s| - 1], s[|s| - 1];
      LengthRun(ps, t, u);
      RunOk(ps, t, Sent(u));
      RunConcat(ps, t, Sent(u), SentAs(x));
      var r := Run(ps, t, Sent(u));
      LastIsBlank(s);
      LengthNext(r.ps, r.trace, x);
    }
  }

  lemma LastIsBlank(s: seq<Sign>)
    requires IsLengthValue(s) && Leading(Marked(s)) < |s|
    ensures s[|s| - 1].Fold? || s[|s| - 1].c == ' '
  {
  }

  /** A space or a fold behind the digits. */
  lemma LengthNext(ps: Parser, t: Trace, x: Sign)
    requires Valid(ps) && ps.state.HeaderValue? && (ps.hstate.ContentLengthNum? || ps.hstate.ContentLengthWs?)
    requires IsSign(x) && (x.Fold? || x.c == ' ') && ps.nread + |SentAs(x)| <= MAX_HEADER_SIZE
    ensures var r := Run(ps, t, SentAs(x));
            r.outcome.Going? && r.ps.hstate.ContentLengthWs? && r.ps.state.HeaderValue?
            && r.ps.contentLength == ps.contentLength && r.ps.flags == ps.flags
            && r.ps.nread == ps.nread + |SentAs(x)|
  {
    hide Run, Valid, Step;
    match x {
      case Char(c) =>
        ValueByte(ps, t, c);
        RunOne(ps, t, c);
      case Fold(eol, blank) =>
        LineEnd(ps, t, eol);
        RunOk(ps, t, eol);
        var r := Run(ps, t, eol);
        LengthBlank(r.ps, r.trace, blank);
        RunOne(r.ps, r.trace, blank);
        RunConcat(ps, t, eol, [blank]);
    }
  }

  lemma LengthBlank(ps: Parser, t: Trace, blank: Byte)
    requires Valid(ps) && ps.state.HeaderValueLws? && (ps.hstate.ContentLengthNum? || ps.hstate.ContentLengthWs?)
    requires IsBlank(blank) && ps.nread < MAX_HEADER_SIZE
    ensures var s := Step(ps, t, blank);
            s.outcome.Going? && s.ps.hstate.ContentLengthWs? && s.ps.state.HeaderValue?
            && s.ps.contentLength == ps.contentLength && s.ps.flags == ps.flags && s.ps.nread == ps.nread + 1
  {
    hide Valid, Step, Chain, Dispatch, ValueState;
    BehindValue(ps);
    var counted := ps.(nread := ps.nread + 1);
    FoldTurns(counted, blank);
    var d := Dispatch(counted, blank);
    var e := Dispatch(d.ps, blank);
    ChainTwice(counted, blank, d.ps, d.acts, e.ps, e.acts);
    HeaderStep(ps, t, blank, e.ps, d.acts + e.acts);
  }

  // ---------------------------------------------------------------- behind a line

  /** Two runs that end alike, or both in an error. */
  predicate Alike(r: Ran, q: Ran) { if q.outcome.Failed? then r.outcome.Failed? else r == q }

  /** Whatever follows, if it does not begin with a blank: the parser `ps` goes on as `f` would, with the callbacks of
      `u` instead of `t`. What has been read last is complete only then. */
  ghost predicate Leads(ps: Parser, t: Trace, f: Parser, u: Trace) {
    forall data: seq<Byte> :: data != [] && !IsBlank(data[0]) ==> Alike(Run(ps, t, data), Run(f, u, data))
  }

  lemma LeadsTo(ps: Parser, t: Trace, f: Parser, u: Trace, data: seq<Byte>)
    requires Leads(ps, t, f, u) && data != [] && !IsBlank(data[0]) && !Run(f, u, data).outcome.Failed?
    ensures Run(ps, t, data) == Run(f, u, data)
  {
    hide Run;
  }

  lemma LeadsItself(ps: Parser, t: Trace)
    ensures Leads(ps, t, ps, t)
  {
  }

  lemma ValueLeads(ps: Parser, t: Trace)
    requires Valid(ps) && ps.state.HeaderValueLws?
    ensures var f := FinishHeader(ps).(state := HeaderFieldStart);
            Leads(ps, t, f, t) && Valid(f)
  {
    hide Run, Valid, FinishHeader;
    FinishedValid(ps);
    var f := FinishHeader(ps).(state := HeaderFieldStart);
    forall data: seq<Byte> | data != [] && !IsBlank(data[0]) ensures Alike(Run(ps, t, data), Run(f, t, data)) {
      FinishedAlike(ps, t, data);
    }
  }

  lemma FinishedAlike(ps: Parser, t: Trace, data: seq<Byte>)
    requires Valid(ps) && ps.state.HeaderValueLws? && data != [] && !IsBlank(data[0])
    ensures Alike(Run(ps, t, data), Run(FinishHeader(ps).(state := HeaderFieldStart), t, data))
  {
    hide Step, FinishHeader, Valid, Run;
    var f := FinishHeader(ps).(state := HeaderFieldStart);
    FinishOnlyFlags(ps);
    NoError(ps);
    LineFinished(ps, t, data[0]);
    AlikeFirst(ps, t, f, t, data);
  }

  lemma AlikeFirst(ps: Parser, t: Trace, f: Parser, u: Trace, data: seq<Byte>)
    requires ps.errno == Ok && f.errno == Ok && data != [] && Alike(Step(ps, t, data[0]), Step(f, u, data[0]))
    ensures Alike(Run(ps, t, data), Run(f, u, data))
  {
    hide Step;
  }

  /** An empty value is told once its line is complete. */
  lemma EmptyTurn(ps: Parser, ch: Byte)
    requires ps.state.HeaderValueDiscardLws? && NameState(ps.hstate, ps.index) && !ps.hstate.ContentLength?
    requires !IsBlank(ch)
    ensures Dispatch(ps, ch) == Again(ps.(state := HeaderFieldStart), [Mark(ValueData), Flush(ValueData)])
  {
    assert ps.flags == FinishHeader(ps).flags;
  }

  lemma EmptyChain(ps: Parser, ch: Byte)
    requires ps.state.HeaderValueDiscardLws? && NameState(ps.hstate, ps.index) && !ps.hstate.ContentLength?
    requires !IsBlank(ch)
    ensures var fed := Chain(ps.(state := HeaderFieldStart), ch);
            if fed.Refused? then Chain(ps, ch).Refused?
            else Chain(ps, ch) == Fed(fed.ps, [Mark(ValueData), Flush(ValueData)] + fed.acts, fed.exit)
  {
    EmptyTurn(ps, ch);
    AgainLowersRank(ps, ch);
    hide Dispatch, NameState;
  }

  lemma PlayEmpty(t: Trace, acts: seq<Act>, ch: Byte)
    ensures Play([Mark(ValueData), Flush(ValueData)] + acts, map[], t, [ch], 0)
         == Play(acts, map[], Emit(t, Data(ValueData, [])), [ch], 0)
  {
    hide Emit;
    var none: Marks := map[];
    var all := [Mark(ValueData), Flush(ValueData)] + acts;
    assert all[1..] == [Flush(ValueData)] + acts && all[1..][1..] == acts;
    assert [ch][0..0] == [];
    assert map[ValueData := 0] - {ValueData} == none;
    assert Play(all[1..], map[ValueData := 0], t, [ch], 0) == Play(acts, none, Emit(t, Data(ValueData, [])), [ch], 0);
  }

  lemma EmptyFeed(ps: Parser, ch: Byte)
    requires ps.state.HeaderValueDiscardLws? && NameState(ps.hstate, ps.index) && !ps.hstate.ContentLength?
    requires !IsBlank(ch)
    ensures var fed := Feed(ps.(state := HeaderFieldStart), ch);
            if fed.Refused? then Feed(ps, ch).Refused?
            else Feed(ps, ch) == Fed(fed.ps, [Mark(ValueData), Flush(ValueData)] + fed.acts, fed.exit)
  {
    hide Chain, NameState, CountHeader;
    if CountHeader(ps.nread, 1).Some? { EmptyChain(ps.(nread := CountHeader(ps.nread, 1).value), ch); }
  }

  lemma EmptyStep(ps: Parser, t: Trace, ch: Byte)
    requires Valid(ps) && ps.state.HeaderValueDiscardLws? && !ps.hstate.ContentLength? && !IsBlank(ch)
    ensures Alike(Step(ps, t, ch), Step(ps.(state := HeaderFieldStart), Emit(t, Data(ValueData, [])), ch))
  {
    hide Valid, Feed, Play, FlushAll, Emit, NameState;
    InEmpty(ps);
    var f := ps.(state := HeaderFieldStart);
    EmptyFeed(ps, ch);
    PlayEmpty(t, Feed(f, ch).acts, ch);
    assert EntryMarks(ps.state) == map[] && EntryMarks(f.state) == map[];
  }

  lemma InEmpty(ps: Parser)
    requires Valid(ps) && ps.state.HeaderValueDiscardLws?
    ensures NameState(ps.hstate, ps.index) && Valid(ps.(state := HeaderFieldStart)) && ps.errno == Ok
  {
  }

  lemma EmptyLeads(ps: Parser, t: Trace)
    requires Valid(ps) && ps.state.HeaderValueDiscardLws? && !ps.hstate.ContentLength? && !Joins(t, ValueData)
    ensures var f := ps.(state := HeaderFieldStart);
            Leads(ps, t, f, t + [Data(ValueData, [])]) && Valid(f)
  {
    hide Valid, Step, Emit, Run, Alike;
    InEmpty(ps);
    EmitApart(t, ValueData, []);
    var f, u := ps.(state := HeaderFieldStart), t + [Data(ValueData, [])];
    forall data: seq<Byte> | data != [] && !IsBlank(data[0]) ensures Alike(Run(ps, t, data), Run(f, u, data)) {
      EmptyStep(ps, t, data[0]);
      AlikeFirst(ps, t, f, u, data);
    }
  }

  // ---------------------------------------------------------------- what a line teaches

  datatype HeaderLine = HeaderLine(name: seq<Byte>, pad: seq<Sign>, value: seq<Sign>, eol: seq<Byte>)

  function LineText(l: HeaderLine): seq<Byte> { l.name + [':'] + Sent(l.pad) + Sent(l.value) + l.eol }

  predicate LineOk(l: HeaderLine) {
    && l.name != [] && (forall i :: 0 <= i < |l.name| ==> IsToken(l.name[i]))
    && AllBlank(l.pad) && (l.value == [] || IsValue(l.value)) && IsEol(l.eol)
  }

  /** What header lines leave in the parser. */
  datatype Known = Known(flags: Flags, length: nat, usesTe: bool)

  function KnownOf(ps: Parser): Known { Known(ps.flags, ps.contentLength, ps.usesTe) }

  function FlagsLearnt(f: Flags, name: string, v: seq<Byte>): Flags {
    if name == CONNECTION || name == PROXY_CONNECTION then
      f.(keepAlive := f.keepAlive || Heard(v, KEEP_ALIVE), close := f.close || Heard(v, CLOSE),
         connUpgrade := f.connUpgrade || Heard(v, UPGRADE))
    else if name == TRANSFER_ENCODING then f.(chunked := f.chunked || LastHeard(v))
    else if name == CONTENT_LENGTH then f.(contentLength := true)
    else if name == UPGRADE then f.(upgrade := true)
    else f
  }

  /** What is known behind one line more. */
  function Learnt(k: Known, l: HeaderLine): Known {
    var name := Tokens(l.name);
    Known(if l.value == [] then k.flags else FlagsLearnt(k.flags, name, Marked(l.value)),
          if name == CONTENT_LENGTH then LengthOf(l.value) else k.length,
          k.usesTe || TRANSFER_ENCODING <= name)
  }

  /** The lines that are taken: a Content-Length must be a length, and the only one. */
  predicate LineFits(k: Known, l: HeaderLine) {
    Tokens(l.name) == CONTENT_LENGTH ==> l.value != [] && IsLengthValue(l.value) && !k.flags.contentLength
  }

  /** What the application hears of a line. */
  function LineTold(l: HeaderLine): Trace { [Data(FieldData, l.name), Data(ValueData, Joined(l.value))] }

  /** The parser where the next line would begin. */
  predicate Behind(ps: Parser, f: Parser, k: Known, n: nat) {
    && f == ps.(state := HeaderFieldStart, hstate := f.hstate, index := f.index, flags := k.flags,
                contentLength := k.length, usesTe := k.usesTe, nread := ps.nread + n)
    && Valid(f)
  }

  /** The name and the colon. */
  lemma NameRead(ps: Parser, t: Trace, l: HeaderLine) returns (r: Parser)
    requires Valid(ps) && ps.state.HeaderFieldStart? && LineOk(l) && !Joins(t, FieldData)
    requires ps.nread + |LineText(l)| <= MAX_HEADER_SIZE
    ensures var w := l.name + [':'] + Sent(l.pad);
            Run(ps, t, w) == Ran(r, t + [Data(FieldData, l.name)], |w|, Going)
            && r == ps.(state := HeaderValueDiscardWs, hstate := r.hstate, index := r.index, nread := ps.nread + |w|,
                        usesTe := ps.usesTe || TRANSFER_ENCODING <= Tokens(l.name))
    ensures Valid(r) && Recognises(r.hstate, Tokens(l.name))
  {
    hide Run, Valid, IsToken, AllBlank, IsValue, Tokens, TRANSFER_ENCODING, Means;
    var n := NameText(ps, t, l.name);
    HeaderNameRecognised(ps, t, l.name);
    var u := t + [Data(FieldData, l.name)];
    ColonText(n, u);
    RunConcat(ps, t, l.name, [':']);
    var c := n.(state := HeaderValueDiscardWs, nread := n.nread + 1);
    PadText(c, u, l.pad);
    RunConcat(ps, t, l.name + [':'], Sent(l.pad));
    r := c.(nread := c.nread + |Sent(l.pad)|);
  }

  /** The matcher's state tells whose value follows. */
  predicate Recognises(h: HState, name: string) {
    && (h.ContentLength? <==> name == CONTENT_LENGTH)
    && (h.TransferEncoding? <==> name == TRANSFER_ENCODING)
    && (h.Upgrade? <==> name == UPGRADE)
    && (h.Connection? <==> name == CONNECTION || name == PROXY_CONNECTION)
  }

  lemma NamesDiffer()
    ensures CONTENT_LENGTH != CONNECTION && CONTENT_LENGTH != PROXY_CONNECTION && CONTENT_LENGTH != TRANSFER_ENCODING
    ensures TRANSFER_ENCODING != CONNECTION && TRANSFER_ENCODING != PROXY_CONNECTION
    ensures UPGRADE != CONNECTION && UPGRADE != PROXY_CONNECTION && UPGRADE != TRANSFER_ENCODING
            && UPGRADE != CONTENT_LENGTH
  {
    FirstLetters();
  }

  /** What the matcher's last state makes of the flags is what the value says. */
  predicate Teaches(ps: Parser, r: Parser, name: string, s: seq<Sign>) {
    && FinishHeader(r).flags == FlagsLearnt(ps.flags, name, Marked(s))
    && (name == CONTENT_LENGTH ==> r.contentLength == LengthOf(s))
  }

  lemma ConnKind(ps: Parser, t: Trace, name: string, s: seq<Sign>)
    requires Valid(ps) && ps.state.HeaderValueDiscardWs? && ps.hstate.Connection? && Recognises(ps.hstate, name)
    requires IsValue(s) && ps.nread + |Sent(s)| <= MAX_HEADER_SIZE
    ensures var r := Run(ps, t, Sent(s));
            r.outcome.Going? && Teaches(ps, r.ps, name, s)
  {
    ConnFinished(ps, t, s);
    NamesDiffer();
    hide Run, Valid, IsValue, Heard, FinishHeader, CONNECTION, PROXY_CONNECTION, CONTENT_LENGTH, TRANSFER_ENCODING,
      LengthOf;
  }

  lemma TeKind(ps: Parser, t: Trace, name: string, s: seq<Sign>)
    requires Valid(ps) && ps.state.HeaderValueDiscardWs? && ps.hstate.TransferEncoding? && Recognises(ps.hstate, name)
    requires IsValue(s) && ps.nread + |Sent(s)| <= MAX_HEADER_SIZE
    ensures var r := Run(ps, t, Sent(s));
            r.outcome.Going? && Teaches(ps, r.ps, name, s)
  {
    TeFinished(ps, t, s);
    NamesDiffer();
    hide Run, Valid, IsValue, LastHeard, FinishHeader, CONNECTION, PROXY_CONNECTION, CONTENT_LENGTH, TRANSFER_ENCODING,
      LengthOf;
  }

  lemma LengthKind(ps: Parser, t: Trace, name: string, s: seq<Sign>)
    requires Valid(ps) && ps.state.HeaderValueDiscardWs? && ps.hstate.ContentLength? && Recognises(ps.hstate, name)
    requires IsValue(s) && IsLengthValue(s) && !ps.flags.contentLength && ps.nread + |Sent(s)| <= MAX_HEADER_SIZE
    ensures var r := Run(ps, t, Sent(s));
            r.outcome.Going? && Teaches(ps, r.ps, name, s)
  {
    LengthRun(ps, t, s);
    LengthFinish(Run(ps, t, Sent(s)).ps);
    NamesDiffer();
    hide Run, Valid, IsValue, FinishHeader, CONNECTION, PROXY_CONNECTION, CONTENT_LENGTH, TRANSFER_ENCODING, LengthOf;
  }

  lemma LengthFinish(ps: Parser)
    requires ps.hstate.ContentLengthNum? || ps.hstate.ContentLengthWs?
    ensures FinishHeader(ps).flags == ps.flags
  {
  }

  lemma PlainKind(ps: Parser, t: Trace, name: string, s: seq<Sign>)
    requires Valid(ps) && ps.state.HeaderValueDiscardWs? && PlainName(ps.hstate) && Recognises(ps.hstate, name)
    requires IsValue(s) && ps.nread + |Sent(s)| <= MAX_HEADER_SIZE
    ensures var r := Run(ps, t, Sent(s));
            r.outcome.Going? && Teaches(ps, r.ps, name, s)
  {
    PlainRun(ps, t, s);
    PlainFinish(Run(ps, t, Sent(s)).ps);
    NamesDiffer();
    hide Run, Valid, IsValue, FinishHeader, CONNECTION, PROXY_CONNECTION, CONTENT_LENGTH, TRANSFER_ENCODING, UPGRADE,
      LengthOf;
  }

  lemma PlainFinish(ps: Parser)
    requires ps.hstate.General?
    ensures FinishHeader(ps).flags == ps.flags
  {
  }

  /** The value of any header. */
  lemma ValueTaught(ps: Parser, t: Trace, name: string, s: seq<Sign>)
    requires Valid(ps) && ps.state.HeaderValueDiscardWs? && Recognises(ps.hstate, name)
    requires IsValue(s) && ps.nread + |Sent(s)| <= MAX_HEADER_SIZE
    requires name == CONTENT_LENGTH ==> IsLengthValue(s) && !ps.flags.contentLength
    ensures var r := Run(ps, t, Sent(s));
            r.outcome.Going? && Teaches(ps, r.ps, name, s)
  {
    hide Run, Valid, IsValue, IsLengthValue, Teaches, Sent, CONTENT_LENGTH;
    if ps.hstate.Connection? { ConnKind(ps, t, name, s); }
    else if ps.hstate.TransferEncoding? { TeKind(ps, t, name, s); }
    else if ps.hstate.ContentLength? { LengthKind(ps, t, name, s); }
    else { PlainKind(ps, t, name, s); }
  }

  /** A value and its line end. */
  lemma ValueRead(ps: Parser, t: Trace, name: string, s: seq<Sign>, eol: seq<Byte>) returns (e: Parser, f: Parser)
    requires Valid(ps) && ps.state.HeaderValueDiscardWs? && Recognises(ps.hstate, name) && IsEol(eol)
    requires IsValue(s) && ps.nread + |Sent(s) + eol| <= MAX_HEADER_SIZE && !Joins(t, ValueData)
    requires name == CONTENT_LENGTH ==> IsLengthValue(s) && !ps.flags.contentLength
    ensures var u := t + [Data(ValueData, Joined(s))];
            && Run(ps, t, Sent(s) + eol) == Ran(e, u, |Sent(s) + eol|, Going)
            && Leads(e, u, f, u)
    ensures Behind(ps, f, Known(FlagsLearnt(ps.flags, name, Marked(s)),
                                if name == CONTENT_LENGTH then LengthOf(s) else ps.contentLength, ps.usesTe),
                   |Sent(s) + eol|)
  {
    hide Run, Valid, IsValue, IsLengthValue, CONTENT_LENGTH, FinishHeader, FlagsLearnt, LengthOf, IsEol, Leads, Sent;
    ValueTaught(ps, t, name, s);
    var r := ValueText(ps, t, s);
    var u := t + [Data(ValueData, Joined(s))];
    EolText(r, u, eol);
    RunConcat(ps, t, Sent(s), eol);
    e := r.(state := HeaderValueLws, nread := r.nread + |eol|);
    ValueLeads(e, u);
    FinishOnlyFlags(e);
    FinishIgnores(r, e);
    f := FinishHeader(e).(state := HeaderFieldStart);
    NotALength(ps, name);
  }

  lemma NotALength(ps: Parser, name: string)
    requires Valid(ps) && ps.state.HeaderValueDiscardWs? && Recognises(ps.hstate, name)
    ensures name != CONTENT_LENGTH ==> NoLength(ps.hstate)
  {
    hide CONNECTION, PROXY_CONNECTION, CONTENT_LENGTH, TRANSFER_ENCODING, UPGRADE;
  }

  // ---------------------------------------------------------------- a whole line

  lemma EmptyLine(ps: Parser, t: Trace, l: HeaderLine) returns (e: Parser, u: Trace, f: Parser)
    requires Valid(ps) && ps.state.HeaderFieldStart? && LineOk(l) && !Joins(t, FieldData)
    requires ps.nread + |LineText(l)| <= MAX_HEADER_SIZE && LineFits(KnownOf(ps), l) && l.value == []
    ensures Run(ps, t, LineText(l)) == Ran(e, u, |LineText(l)|, Going) && Leads(e, u, f, t + LineTold(l))
    ensures Behind(ps, f, Learnt(KnownOf(ps), l), |LineText(l)|)
  {
    hide Run, Valid, IsToken, AllBlank, IsValue, Tokens, TRANSFER_ENCODING, CONTENT_LENGTH, CONNECTION,
      PROXY_CONNECTION, UPGRADE, IsEol, Leads, LengthOf, IsLengthValue, FlagsLearnt;
    var r := NameRead(ps, t, l);
    var w := l.name + [':'] + Sent(l.pad);
    u := t + [Data(FieldData, l.name)];
    EarlyEol(r, u, l.eol);
    RunConcat(ps, t, w, l.eol);
    assert LineText(l) == w + l.eol;
    e := r.(state := HeaderValueDiscardLws, nread := r.nread + |l.eol|);
    f := e.(state := HeaderFieldStart);
    EmptyLeads(e, u);
    assert u + [Data(ValueData, [])] == t + LineTold(l);
  }

  lemma FullLine(ps: Parser, t: Trace, l: HeaderLine) returns (e: Parser, u: Trace, f: Parser)
    requires Valid(ps) && ps.state.HeaderFieldStart? && LineOk(l) && !Joins(t, FieldData)
    requires ps.nread + |LineText(l)| <= MAX_HEADER_SIZE && LineFits(KnownOf(ps), l) && l.value != []
    ensures Run(ps, t, LineText(l)) == Ran(e, u, |LineText(l)|, Going) && Leads(e, u, f, t + LineTold(l))
    ensures Behind(ps, f, Learnt(KnownOf(ps), l), |LineText(l)|)
  {
    hide Run, Valid, IsToken, AllBlank, IsValue, Tokens, TRANSFER_ENCODING, CONTENT_LENGTH, CONNECTION,
      PROXY_CONNECTION, UPGRADE, IsEol, Leads, LengthOf, IsLengthValue, FlagsLearnt, Recognises, Joined, Sent;
    var r := NameRead(ps, t, l);
    var w := l.name + [':'] + Sent(l.pad);
    var v := t + [Data(FieldData, l.name)];
    e, f := ValueRead(r, v, Tokens(l.name), l.value, l.eol);
    RunConcat(ps, t, w, Sent(l.value) + l.eol);
    assert LineText(l) == w + (Sent(l.value) + l.eol);
    u := v + [Data(ValueData, Joined(l.value))];
    assert u == t + LineTold(l);
  }

  /** A header line teaches the parser what it says, and the application hears its name and its value. */
  lemma LineRead(ps: Parser, t: Trace, l: HeaderLine) returns (e: Parser, u: Trace, f: Parser)
    requires Valid(ps) && ps.state.HeaderFieldStart? && LineOk(l) && !Joins(t, FieldData)
    requires ps.nread + |LineText(l)| <= MAX_HEADER_SIZE && LineFits(KnownOf(ps), l)
    ensures Run(ps, t, LineText(l)) == Ran(e, u, |LineText(l)|, Going) && Leads(e, u, f, t + LineTold(l))
    ensures Behind(ps, f, Learnt(KnownOf(ps), l), |LineText(l)|)
  {
    hide Run, Valid, LineText, LineOk, Leads, Learnt, LineFits, LineTold, Behind;
    if l.value == [] { e, u, f := EmptyLine(ps, t, l); } else { e, u, f := FullLine(ps, t, l); }
  }

  // ---------------------------------------------------------------- the header block

  function LinesText(ls: seq<HeaderLine>): seq<Byte> {
    if ls == [] then [] else LinesText(ls[..|ls| - 1]) + LineText(ls[|ls| - 1])
  }

  predicate LinesOk(ls: seq<HeaderLine>) { forall i :: 0 <= i < |ls| ==> LineOk(ls[i]) }

  function LearntFrom(k: Known, ls: seq<HeaderLine>): Known {
    if ls == [] then k else Learnt(LearntFrom(k, ls[..|ls| - 1]), ls[|ls| - 1])
  }

  predicate AllFit(k: Known, ls: seq<HeaderLine>) {
    ls != [] ==> AllFit(k, ls[..|ls| - 1]) && LineFits(LearntFrom(k, ls[..|ls| - 1]), ls[|ls| - 1])
  }

  function LinesTold(ls: seq<HeaderLine>): Trace {
    if ls == [] then [] else LinesTold(ls[..|ls| - 1]) + LineTold(ls[|ls| - 1])
  }

  /** Header lines teach the parser what they say one after the other, and the application hears them in order. */
  lemma {:induction false} LinesRead(ps: Parser, t: Trace, ls: seq<HeaderLine>) returns (e: Parser, u: Trace, f: Parser)
    requires Valid(ps) && ps.state.HeaderFieldStart? && LinesOk(ls) && !Joins(t, FieldData)
    requires ps.nread + |LinesText(ls)| <= MAX_HEADER_SIZE && AllFit(KnownOf(ps), ls)
    ensures Run(ps, t, LinesText(ls)) == Ran(e, u, |LinesText(ls)|, Going) && Leads(e, u, f, t + LinesTold(ls))
    ensures Behind(ps, f, LearntFrom(KnownOf(ps), ls), |LinesText(ls)|) && !Joins(t + LinesTold(ls), FieldData)
    decreases |ls|
  {
    hide Run, Valid, LineText, LineOk, Leads, Learnt, LineFits, LineTold;
    if ls == [] {
      EmptyRun(ps, t);
      LeadsItself(ps, t);
      assert t + LinesTold(ls) == t;
      e, u, f := ps, t, ps;
    } else {
      var ks, l := ls[..|ls| - 1], ls[|ls| - 1];
      var d, w, g := LinesRead(ps, t, ks);
      var v := t + LinesTold(ks);
      e, u, f := LineRead(g, v, l);
      LineStarts(l);
      LeadsTo(d, w, g, v, LineText(l));
      RunConcat(ps, t, LinesText(ks), LineText(l));
      assert v + LineTold(l) == t + LinesTold(ls);
      LineIsValue(v, l);
    }
  }

  lemma LineStarts(l: HeaderLine)
    requires LineOk(l)
    ensures LineText(l) != [] && !IsBlank(LineText(l)[0])
  {
    assert LineText(l)[0] == l.name[0];
  }

  lemma LineIsValue(t: Trace, l: HeaderLine)
    ensures !Joins(t + LineTold(l), FieldData)
  {
  }
}
