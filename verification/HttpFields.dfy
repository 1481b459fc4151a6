// Header lines as text: which parser a line leads to, and what the application hears of it.

module HttpFields {
  import opened Words
  import opened Digits
  import opened HttpChars
  import opened HttpParser
  import opened HttpInvariant
  import opened HttpRun
  import opened HttpSteps
  import opened HttpNames
  import opened HttpNumbers
  import opened HttpElements
  import opened HttpLines
  import opened HttpOptions
  import opened HttpCodings

  // ---------------------------------------------------------------- the name

  lemma NameFirstTurn(ps: Parser, ch: Byte)
    requires ps.state.HeaderFieldStart? && IsToken(ch)
    ensures var d := Dispatch(ps, ch);
            && d.Next? && d.acts == [Mark(FieldData)]
            && d.ps == ps.(state := HeaderField, index := 0, hstate := d.ps.hstate)
  {
    TokenIsNoLineEnd(ch);
    hide Token;
  }

  lemma NameTurn(ps: Parser, ch: Byte)
    requires ps.state.HeaderField? && IsToken(ch) && NameState(ps.hstate, ps.index) && ps.index < 32
    ensures var d := Dispatch(ps, ch);
            && d.Next? && d.acts == []
            && d.ps == ps.(hstate := d.ps.hstate, index := d.ps.index, usesTe := d.ps.usesTe)
  {
    FieldStepOk(ps, Token(ch));
    hide Token, FieldStep, NameState;
  }

  /** All that a header name of `n` bytes changes. */
  predicate NamedFrom(ps: Parser, r: Parser, n: nat) {
    && r == ps.(state := HeaderField, hstate := r.hstate, index := r.index, usesTe := r.usesTe, nread := ps.nread + n)
    && Valid(r)
  }

  /** A header name changes only the matcher and the note, and is delivered. */
  lemma {:induction false} NameText(ps: Parser, t: Trace, w: seq<Byte>) returns (r: Parser)
    requires Valid(ps) && ps.state.HeaderFieldStart? && w != [] && forall i :: 0 <= i < |w| ==> IsToken(w[i])
    requires ps.nread + |w| <= MAX_HEADER_SIZE && !Joins(t, FieldData)
    ensures Run(ps, t, w) == Ran(r, t + [Data(FieldData, w)], |w|, Going) && NamedFrom(ps, r, |w|)
    decreases |w|
  {
    hide Run, Step, Valid, Chain, Dispatch, IsToken, Emit, NamedFrom;
    var u, c := w[..|w| - 1], w[|w| - 1];
    assert w == u + [c];
    if u == [] {
      assert w == [c];
      r := NameFirst(ps, t, c);
    } else {
      var q := NameText(ps, t, u);
      r := NameNext(ps, t, u, c, q);
    }
  }

  lemma NameFirst(ps: Parser, t: Trace, c: Byte) returns (r: Parser)
    requires Valid(ps) && ps.state.HeaderFieldStart? && IsToken(c) && ps.nread < MAX_HEADER_SIZE
    requires !Joins(t, FieldData)
    ensures Run(ps, t, [c]) == Ran(r, t + [Data(FieldData, [c])], 1, Going) && NamedFrom(ps, r, 1)
  {
    hide Run, Step, Valid, Chain, Dispatch, IsToken, Emit;
    var counted := ps.(nread := ps.nread + 1);
    NameFirstTurn(counted, c);
    r := Dispatch(counted, c).ps;
    ChainOnce(counted, c, r, [Mark(FieldData)]);
    OpeningStep(ps, t, c, r, FieldData);
    EmitApart(t, FieldData, [c]);
    RunOne(ps, t, c);
    StepOk(ps, t, c);
  }

  lemma NameNext(ps: Parser, t: Trace, u: seq<Byte>, c: Byte, q: Parser) returns (r: Parser)
    requires Valid(ps) && IsToken(c) && ps.nread + |u| < MAX_HEADER_SIZE && NamedFrom(ps, q, |u|)
    requires Run(ps, t, u) == Ran(q, t + [Data(FieldData, u)], |u|, Going)
    ensures Run(ps, t, u + [c]) == Ran(r, t + [Data(FieldData, u + [c])], |u + [c]|, Going)
    ensures NamedFrom(ps, r, |u + [c]|)
  {
    hide Run, Step, Valid, Chain, Dispatch, IsToken, NameState;
    InName(q);
    var counted := q.(nread := q.nread + 1);
    NameTurn(counted, c);
    r := Dispatch(counted, c).ps;
    ChainOnce(counted, c, r, []);
    DataSnoc(ps, t, u, c, q, r, FieldData);
  }

  lemma InName(ps: Parser)
    requires Valid(ps) && ps.state.HeaderField?
    ensures NameState(ps.hstate, ps.index) && ps.index < 32
  {
  }

  // ---------------------------------------------------------------- the colon and the blanks behind it

  lemma ColonText(ps: Parser, t: Trace)
    requires Valid(ps) && ps.state.HeaderField? && ps.nread < MAX_HEADER_SIZE && Joins(t, FieldData)
    ensures var next := ps.(state := HeaderValueDiscardWs, nread := ps.nread + 1);
            Run(ps, t, [':']) == Ran(next, t, 1, Going) && Valid(next)
  {
    hide Run, Step, Valid, Chain, Dispatch;
    var counted := ps.(nread := ps.nread + 1);
    var next := ps.(state := HeaderValueDiscardWs, nread := ps.nread + 1);
    ColonTurn(counted);
    ChainOnce(counted, ':', next, [Flush(FieldData)]);
    ClosingStep(ps, t, ':', next, FieldData);
    RunOne(ps, t, ':');
    StepOk(ps, t, ':');
  }

  lemma PadTurns(ps: Parser, ch: Byte)
    ensures ps.state.HeaderValueDiscardWs? && IsBlank(ch) ==> Dispatch(ps, ch) == Next(ps, [])
    ensures ps.state.HeaderValueDiscardWs? ==>
              Dispatch(ps, CR) == Next(ps.(state := HeaderValueDiscardWsAlmostDone), [])
    ensures ps.state.HeaderValueDiscardWs? || ps.state.HeaderValueDiscardWsAlmostDone? ==>
              Dispatch(ps, LF) == Next(ps.(state := HeaderValueDiscardLws), [])
    ensures ps.state.HeaderValueDiscardLws? && IsBlank(ch) ==>
              Dispatch(ps, ch) == Next(ps.(state := HeaderValueDiscardWs), [])
  {
    hide DispatchValueStart;
  }

  /** A line end before the value has begun. */
  lemma EarlyEol(ps: Parser, t: Trace, eol: seq<Byte>)
    requires Valid(ps) && ps.state.HeaderValueDiscardWs? && IsEol(eol) && ps.nread + |eol| <= MAX_HEADER_SIZE
    ensures var next := ps.(state := HeaderValueDiscardLws, nread := ps.nread + |eol|);
            Run(ps, t, eol) == Ran(next, t, |eol|, Going) && Valid(next)
  {
    hide Run, Valid, Dispatch;
    var n := ps.nread;
    EmptyRun(ps, t);
    PadTurns(ps.(nread := n + 1), ' ');
    if eol == [LF] {
      SilentSnoc(ps, t, [], LF, ps, t, ps.(state := HeaderValueDiscardLws, nread := n + 1));
      assert [] + [LF] == eol;
    } else {
      var a := ps.(state := HeaderValueDiscardWsAlmostDone, nread := n + 1);
      SilentSnoc(ps, t, [], CR, ps, t, a);
      PadTurns(a.(nread := n + 2), ' ');
      SilentSnoc(ps, t, [] + [CR], LF, a, t, ps.(state := HeaderValueDiscardLws, nread := n + 2));
      assert [] + [CR] + [LF] == eol;
    }
  }

  /** Blanks and folds before a value. */
  predicate AllBlank(pad: seq<Sign>) {
    forall i :: 0 <= i < |pad| ==> IsSign(pad[i]) && (pad[i].Char? ==> IsBlank(pad[i].c))
  }

  lemma {:induction false} PadText(ps: Parser, t: Trace, pad: seq<Sign>)
    requires Valid(ps) && ps.state.HeaderValueDiscardWs? && AllBlank(pad) && ps.nread + |Sent(pad)| <= MAX_HEADER_SIZE
    ensures var next := ps.(nread := ps.nread + |Sent(pad)|);
            Run(ps, t, Sent(pad)) == Ran(next, t, |Sent(pad)|, Going) && Valid(next)
    decreases |pad|
  {
    hide Run, Valid, Dispatch, IsHeaderChar;
    if pad == [] {
      EmptyRun(ps, t);
    } else {
      var u, x := pad[..|pad| - 1], pad[|pad| - 1];
      assert IsSign(x);
      PadText(ps, t, u);
      PadNext(ps, t, Sent(u), x);
    }
  }

  lemma PadNext(ps: Parser, t: Trace, b: seq<Byte>, x: Sign)
    requires Valid(ps) && ps.state.HeaderValueDiscardWs? && IsSign(x) && (x.Char? ==> IsBlank(x.c))
    requires ps.nread + |b| + |SentAs(x)| <= MAX_HEADER_SIZE
    requires Run(ps, t, b) == Ran(ps.(nread := ps.nread + |b|), t, |b|, Going) && Valid(ps.(nread := ps.nread + |b|))
    ensures var w := b + SentAs(x);
            var next := ps.(nread := ps.nread + |w|);
            Run(ps, t, w) == Ran(next, t, |w|, Going) && Valid(next)
  {
    hide Run, Valid, Dispatch, IsHeaderChar;
    var at, n := ps.(nread := ps.nread + |b|), ps.nread + |b|;
    match x {
      case Char(c) =>
        PadTurns(at.(nread := n + 1), c);
        SilentSnoc(ps, t, b, c, at, t, ps.(nread := n + 1));
      case Fold(eol, blank) =>
        EarlyEol(at, t, eol);
        RunConcat(ps, t, b, eol);
        var empty := at.(state := HeaderValueDiscardLws, nread := n + |eol|);
        var next := ps.(nread := n + |eol| + 1);
        PadTurns(empty.(nread := n + |eol| + 1), blank);
        SilentSnoc(ps, t, b + eol, blank, empty, t, next);
        assert b + eol + [blank] == b + SentAs(x);
    }
  }

  // ---------------------------------------------------------------- the value

  /** The bytes of a value that are delivered: all but the line ends. */
  function Joined(s: seq<Sign>): seq<Byte> {
    if s == [] then [] else Joined(s[..|s| - 1]) + [if s[|s| - 1].Char? then s[|s| - 1].c else s[|s| - 1].blank]
  }

  /** A matcher that has nothing to do with Content-Length. */
  predicate NoLength(h: HState) { !h.ContentLength? && !h.ContentLengthNum? && !h.ContentLengthWs? }

  /** It stays one, and leaves the length alone. */
  predicate KeepsLength(ps: Parser, r: Parser) {
    NoLength(ps.hstate) ==> NoLength(r.hstate) && r.contentLength == ps.contentLength
  }

  /** All that `n` bytes of a value change. */
  predicate ValuedFrom(ps: Parser, r: Parser, n: nat) {
    && r == ps.(state := HeaderValue, hstate := r.hstate, index := r.index, flags := r.flags,
                contentLength := r.contentLength, nread := ps.nread + n)
    && Valid(r) && KeepsLength(ps, r)
  }

  lemma GoingFeeds(ps: Parser, t: Trace, ch: Byte)
    requires Step(ps, t, ch).outcome.Going? && ParsingHeader(ps.state) && ps.nread < MAX_HEADER_SIZE
    ensures Chain(ps.(nread := ps.nread + 1), ch).Fed? && !Dispatch(ps.(nread := ps.nread + 1), ch).Fail?
  {
    hide Play, FlushAll, ParsingHeader, Dispatch;
  }

  lemma ValueFirstTurn(ps: Parser, ch: Byte)
    requires ps.state.HeaderValueDiscardWs? && NameState(ps.hstate, ps.index)
    requires !IsBlank(ch) && ch != CR && ch != LF && !Dispatch(ps, ch).Fail?
    ensures var d := Dispatch(ps, ch);
            && d.Next? && d.acts == [Mark(ValueData)]
            && d.ps == ps.(state := HeaderValue, hstate := d.ps.hstate, index := 0, flags := d.ps.flags,
                           contentLength := d.ps.contentLength)
            && KeepsLength(ps, d.ps)
  {
    StartIsDispatched(ps, ch);
    ValueStartSets(ps, ch);
    MarksValue(ps, ch);
    StartKeepsLength(ps, ch);
    hide Dispatch, DispatchValueStart, NameState, KeepsLength;
  }

  lemma StartKeepsLength(ps: Parser, ch: Byte)
    ensures DispatchValueStart(ps, ch).Next? ==> KeepsLength(ps, DispatchValueStart(ps, ch).ps)
  {
    hide Lower;
    match ps.hstate
    case Connection =>
    case ContentLength =>
    case _ =>
  }

  lemma StepKeepsLength(ps: Parser, ch: Byte)
    ensures ValueStep(ps, ch).Good? ==> KeepsLength(ps, ValueStep(ps, ch).ps)
  {
    hide Match, Lower, IsToken, ContentLengthDigit, ConnectionFlag, CHUNKED, KEEP_ALIVE, CLOSE, UPGRADE;
    MatchKeepsLength(ps, Lower(ch));
    FlagKeepsLength(ps);
  }

  lemma MatchKeepsLength(ps: Parser, c: Byte)
    ensures forall name, miss, full :: Match(ps, name, c, miss, full).contentLength == ps.contentLength
    ensures forall name, miss, full :: NoLength(ps.hstate) && NoLength(miss) && NoLength(full) ==>
              NoLength(Match(ps, name, c, miss, full).hstate)
  {
  }

  lemma FlagKeepsLength(ps: Parser)
    ensures ConnectionFlag(ps).contentLength == ps.contentLength && ConnectionFlag(ps).hstate == ps.hstate
  {
    hide NoteOption;
  }

  lemma StartIsDispatched(ps: Parser, ch: Byte)
    requires ps.state.HeaderValueDiscardWs? && !IsBlank(ch) && ch != CR && ch != LF
    ensures Dispatch(ps, ch) == DispatchValueStart(ps, ch)
  {
    hide DispatchValueStart;
  }

  lemma MarksValue(ps: Parser, ch: Byte)
    ensures DispatchValueStart(ps, ch).Next? ==> DispatchValueStart(ps, ch).acts == [Mark(ValueData)]
  {
    hide Lower;
    match ps.hstate
    case Connection =>
    case ContentLength =>
    case _ =>
  }

  lemma ValueTurn(ps: Parser, ch: Byte)
    requires ps.state.HeaderValue? && ch != CR && ch != LF && !Dispatch(ps, ch).Fail? && ValueChange(ps, ps)
    ensures var d := Dispatch(ps, ch);
            && d.Next? && d.acts == []
            && d.ps == ps.(hstate := d.ps.hstate, index := d.ps.index, flags := d.ps.flags,
                           contentLength := d.ps.contentLength)
            && KeepsLength(ps, d.ps)
  {
    ValueIsDispatched(ps, ch);
    ValueStepOk(ps, ch);
    StepKeepsLength(ps, ch);
    hide Dispatch, ValueStep, ValueState, IsHeaderChar, KeepsLength;
  }

  lemma ValueIsDispatched(ps: Parser, ch: Byte)
    requires ps.state.HeaderValue?
    ensures Dispatch(ps, ch) == DispatchValue(ps, ch)
  {
    hide DispatchValue;
  }

  lemma ValueFirst(ps: Parser, t: Trace, c: Byte) returns (r: Parser)
    requires Valid(ps) && ps.state.HeaderValueDiscardWs? && !IsBlank(c) && c != CR && c != LF
    requires ps.nread < MAX_HEADER_SIZE && !Joins(t, ValueData) && Run(ps, t, [c]).outcome.Going?
    ensures Run(ps, t, [c]) == Ran(r, t + [Data(ValueData, [c])], 1, Going) && ValuedFrom(ps, r, 1)
  {
    hide Run, Step, Valid, Chain, Dispatch, Emit, NameState;
    BeforeValue(ps);
    RunOne(ps, t, c);
    GoingFeeds(ps, t, c);
    var counted := ps.(nread := ps.nread + 1);
    ValueFirstTurn(counted, c);
    r := Dispatch(counted, c).ps;
    ChainOnce(counted, c, r, [Mark(ValueData)]);
    OpeningStep(ps, t, c, r, ValueData);
    EmitApart(t, ValueData, [c]);
    StepOk(ps, t, c);
  }

  lemma BeforeValue(ps: Parser)
    requires Valid(ps) && ps.state.HeaderValueDiscardWs?
    ensures NameState(ps.hstate, ps.index)
  {
  }

  lemma InValue(ps: Parser)
    requires Valid(ps) && ps.state.HeaderValue?
    ensures ValueChange(ps, ps)
  {
  }

  lemma ValueNext(ps: Parser, t: Trace, u: seq<Byte>, v: seq<Byte>, c: Byte, q: Parser) returns (r: Parser)
    requires Valid(ps) && c != CR && c != LF && ps.nread + |u| < MAX_HEADER_SIZE && ValuedFrom(ps, q, |u|)
    requires Run(ps, t, u) == Ran(q, t + [Data(ValueData, v)], |u|, Going)
    requires Run(ps, t, u + [c]).outcome.Going?
    ensures Run(ps, t, u + [c]) == Ran(r, t + [Data(ValueData, v + [c])], |u| + 1, Going)
    ensures ValuedFrom(ps, r, |u| + 1)
  {
    hide Run, Step, Valid, Chain, Dispatch, ValueChange, Emit;
    InValue(q);
    var w := t + [Data(ValueData, v)];
    RunConcat(ps, t, u, [c]);
    RunOne(q, w, c);
    GoingFeeds(q, w, c);
    var counted := q.(nread := q.nread + 1);
    ChangeIgnoresCount(q, q.nread + 1);
    ValueTurn(counted, c);
    r := Dispatch(counted, c).ps;
    ChainOnce(counted, c, r, []);
    DataStep(q, w, c, r, ValueData);
    DataLonger(t, ValueData, v, [c]);
    RunSnoc(ps, t, u, c, r, t + [Data(ValueData, v + [c])]);
  }

  lemma ChangeIgnoresCount(ps: Parser, n: nat)
    requires ValueChange(ps, ps)
    ensures ValueChange(ps.(nread := n), ps.(nread := n))
  {
  }

  lemma DataLonger(t: Trace, k: DataKind, v: seq<Byte>, w: seq<Byte>)
    ensures Emit(t + [Data(k, v)], Data(k, w)) == t + [Data(k, v + w)] && Joins(t + [Data(k, v)], k)
  {
    EmitJoined(t + [Data(k, v)], k, w);
    assert (t + [Data(k, v)])[..|t|] == t;
  }

  /** The line end behind a value delivers nothing more. */
  lemma EolText(ps: Parser, t: Trace, eol: seq<Byte>)
    requires Valid(ps) && ps.state.HeaderValue? && IsEol(eol) && ps.nread + |eol| <= MAX_HEADER_SIZE
    requires Joins(t, ValueData)
    ensures var next := ps.(state := HeaderValueLws, nread := ps.nread + |eol|);
            Run(ps, t, eol) == Ran(next, t, |eol|, Going) && Valid(next)
  {
    hide Run, Step, Valid, Chain, Dispatch;
    var n := ps.nread;
    var counted, last := ps.(nread := n + 1), ps.(state := HeaderValueLws, nread := n + |eol|);
    if eol == CRLF {
      var almost := ps.(state := HeaderAlmostDone, nread := n + 1);
      ValueEndTurn(counted, CR);
      ChainOnce(counted, CR, almost, [Flush(ValueData)]);
      ClosingStep(ps, t, CR, almost, ValueData);
      RunOne(ps, t, CR);
      StepOk(ps, t, CR);
      AlmostDoneTurn(almost.(nread := n + 2));
      SilentSnoc(ps, t, [CR], LF, almost, t, last);
      assert [CR] + [LF] == CRLF;
    } else {
      ValueEndTurn(counted, LF);
      AlmostDoneTurn(counted.(state := HeaderAlmostDone));
      ChainTwice(counted, LF, counted.(state := HeaderAlmostDone), [Flush(ValueData)], last, []);
      assert [Flush(ValueData)] + [] == [Flush(ValueData)];
      ClosingStep(ps, t, LF, last, ValueData);
      RunOne(ps, t, LF);
      StepOk(ps, t, LF);
    }
  }

  lemma FoldTurns(ps: Parser, blank: Byte)
    requires ps.state.HeaderValueLws? && ValueState(ps.hstate, ps.index, ps.flags.contentLength) && IsBlank(blank)
    ensures var d := Dispatch(ps, blank);
            d.Again? && d.acts == [] && d.ps == ps.(state := HeaderValueStart, hstate := d.ps.hstate)
    ensures var d := Dispatch(ps, blank);
            var e := Dispatch(d.ps, blank);
            && e.Next? && e.acts == [Mark(ValueData)]
            && e.ps == ps.(state := HeaderValue, hstate := e.ps.hstate, index := 0) && KeepsLength(ps, e.ps)
            && (ps.hstate.ContentLengthNum? || ps.hstate.ContentLengthWs? ==> e.ps.hstate.ContentLengthWs?)
  {
    hide Lower, CHUNKED, KEEP_ALIVE, CLOSE, UPGRADE;
  }

  /** The blank behind a line end goes on with the value. */
  lemma BlankText(ps: Parser, t: Trace, v: seq<Byte>, blank: Byte) returns (r: Parser)
    requires Valid(ps) && ps.state.HeaderValueLws? && IsBlank(blank) && ps.nread < MAX_HEADER_SIZE
    ensures Run(ps, t + [Data(ValueData, v)], [blank]) == Ran(r, t + [Data(ValueData, v + [blank])], 1, Going)
    ensures ValuedFrom(ps, r, 1)
  {
    hide Run, Step, Valid, Chain, Dispatch, Emit, ValueState;
    BehindValue(ps);
    var counted, w := ps.(nread := ps.nread + 1), t + [Data(ValueData, v)];
    FoldTurns(counted, blank);
    var d := Dispatch(counted, blank);
    r := Dispatch(d.ps, blank).ps;
    ChainTwice(counted, blank, d.ps, [], r, [Mark(ValueData)]);
    assert [] + [Mark(ValueData)] == [Mark(ValueData)];
    OpeningStep(ps, w, blank, r, ValueData);
    DataLonger(t, ValueData, v, [blank]);
    RunOne(ps, w, blank);
    StepOk(ps, w, blank);
  }

  lemma BehindValue(ps: Parser)
    requires Valid(ps) && ps.state.HeaderValueLws?
    ensures ValueState(ps.hstate, ps.index, ps.flags.contentLength)
  {
  }

  /** A value that goes well changes only the matcher, the flags and the length, and is delivered. */
  lemma {:induction false} ValueText(ps: Parser, t: Trace, s: seq<Sign>) returns (r: Parser)
    requires Valid(ps) && ps.state.HeaderValueDiscardWs? && IsValue(s) && !Joins(t, ValueData)
    requires ps.nread + |Sent(s)| <= MAX_HEADER_SIZE && Run(ps, t, Sent(s)).outcome.Going?
    ensures Run(ps, t, Sent(s)) == Ran(r, t + [Data(ValueData, Joined(s))], |Sent(s)|, Going)
    ensures ValuedFrom(ps, r, |Sent(s)|)
    decreases |s|
  {
    hide Run, Valid, IsHeaderChar, ValuedFrom;
    var u, x := s[..|s| - 1], s[|s| - 1];
    if u == [] {
      assert Sent(s) == [x.c] && Joined(s) == [x.c];
      r := ValueFirst(ps, t, x.c);
    } else {
      assert u[0] == s[0] && IsValue(u) && IsSign(x);
      RunConcat(ps, t, Sent(u), SentAs(x));
      var q := ValueText(ps, t, u);
      r := SignNext(ps, t, Sent(u), Joined(u), x, q);
    }
  }

  lemma SignNext(ps: Parser, t: Trace, u: seq<Byte>, v: seq<Byte>, x: Sign, q: Parser) returns (r: Parser)
    requires Valid(ps) && IsSign(x) && ps.nread + |u| + |SentAs(x)| <= MAX_HEADER_SIZE && ValuedFrom(ps, q, |u|)
    requires Run(ps, t, u) == Ran(q, t + [Data(ValueData, v)], |u|, Going)
    requires Run(ps, t, u + SentAs(x)).outcome.Going?
    ensures var c := if x.Char? then x.c else x.blank;
            Run(ps, t, u + SentAs(x)) == Ran(r, t + [Data(ValueData, v + [c])], |u + SentAs(x)|, Going)
    ensures ValuedFrom(ps, r, |u + SentAs(x)|)
  {
    hide Run, Valid, IsHeaderChar;
    match x {
      case Char(c) => r := ValueNext(ps, t, u, v, c, q);
      case Fold(eol, blank) =>
        var w := t + [Data(ValueData, v)];
        EolText(q, w, eol);
        var e := q.(state := HeaderValueLws, nread := q.nread + |eol|);
        r := BlankText(e, t, v, blank);
        RunConcat(q, w, eol, [blank]);
        RunConcat(ps, t, u, SentAs(x));
    }
  }
}
