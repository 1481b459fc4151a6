// The bytes around a header value: the colon, the line end, a fold, and what the next line makes of the value.

module HttpLines {
  import opened Words
  import opened HttpChars
  import opened HttpParser
  import opened HttpInvariant
  import opened HttpRun
  import opened HttpSteps
  import opened HttpExecute
  import opened HttpNames
  import opened HttpNumbers
  import opened HttpElements

  // ---------------------------------------------------------------- the end of a line

  predicate ConnState(h: HState) {
    || h.General? || h.ConnToken? || h.ConnTokenStart? || h.MatchingConnKeepAlive? || h.MatchingConnClose?
    || h.MatchingConnUpgrade? || h.ConnKeepAlive? || h.ConnClose? || h.ConnUpgrade?
  }

  predicate TeState(h: HState) { h.General? || h.TeToken? || h.TeTokenStart? || h.MatchingTeChunked? || h.TeChunked? }

  /** The header states in the value of Connection or Transfer-Encoding. */
  predicate OptionState(h: HState) { ConnState(h) || TeState(h) }

  /** What a fold leaves of the matcher's state. */
  function Folded(h: HState): HState { if h.ConnTokenStart? || h.TeTokenStart? then h else General }

  lemma LostStep(ps: Parser, ch: Byte)
    requires ps.hstate.General?
    ensures ValueStep(ps, ch) == Good(ps)
  {
  }

  lemma ValueKeepsPlace(ps: Parser, ch: Byte)
    ensures ValueStep(ps, ch).Good? ==> ValueStep(ps, ch).ps.state == ps.state
  {
    ValueStepState(ps, ch);
  }

  lemma FinishMoves(ps: Parser, ch: Byte)
    requires ps.state.HeaderValueLws? && ch != ' ' && ch != '\t'
    ensures Chain(ps, ch) == Chain(FinishHeader(ps).(state := HeaderFieldStart), ch)
  {
    hide FinishHeader;
    var next := FinishHeader(ps).(state := HeaderFieldStart);
    assert Dispatch(ps, ch) == Again(next, []);
    assert forall acts: seq<Act> :: [] + acts == acts;
  }

  lemma FinishCounts(ps: Parser, n: Option<nat>)
    ensures FinishHeader(ps).nread == ps.nread
    ensures n.Some? ==> FinishHeader(ps.(nread := n.value)) == FinishHeader(ps).(nread := n.value)
  {
  }

  lemma FinishFeeds(ps: Parser, ch: Byte)
    requires ps.state.HeaderValueLws? && ch != ' ' && ch != '\t'
    ensures Feed(ps, ch) == Feed(FinishHeader(ps).(state := HeaderFieldStart), ch)
  {
    hide Chain, FinishHeader, CountHeader;
    var n := CountHeader(ps.nread, 1);
    if n.Some? { FinishMoves(ps.(nread := n.value), ch); }
    FinishCounts(ps, n);
  }

  /** Once a line has ended and no blank follows, the next byte begins a header field, with the flags of that line
      set. */
  lemma LineFinished(ps: Parser, t: Trace, ch: Byte)
    requires ps.state.HeaderValueLws? && ch != ' ' && ch != '\t'
    ensures var s, f := Step(ps, t, ch), Step(FinishHeader(ps).(state := HeaderFieldStart), t, ch);
            s.outcome == f.outcome && (!s.outcome.Failed? ==> s == f)
  {
    hide Feed, Play, FlushAll, FinishHeader;
    FinishFeeds(ps, ch);
    assert OpenKind(HeaderValueLws) == None && OpenKind(HeaderFieldStart) == None;
  }

  lemma FinishIgnores(ps: Parser, other: Parser)
    requires other.hstate == ps.hstate && other.flags == ps.flags
    ensures FinishHeader(other).flags == FinishHeader(ps).flags
  {
  }

  lemma FinishOnlyFlags(ps: Parser)
    ensures FinishHeader(ps) == ps.(flags := FinishHeader(ps).flags)
  {
  }

  lemma FinishKeepsLength(ps: Parser)
    ensures FinishHeader(ps).flags.contentLength == ps.flags.contentLength
  {
  }

  lemma NoError(ps: Parser)
    requires Valid(ps)
    ensures ps.errno == Ok
  {
  }

  lemma FinishedValid(ps: Parser)
    requires Valid(ps) && ps.state.HeaderValueLws?
    ensures Valid(FinishHeader(ps).(state := HeaderFieldStart))
  {
    FinishOnlyFlags(ps);
    FinishKeepsLength(ps);
    hide FinishHeader;
  }

  lemma FinishedRun(ps: Parser, t: Trace, data: seq<Byte>)
    requires Valid(ps) && ps.state.HeaderValueLws? && data != [] && !IsBlank(data[0])
    requires !Run(FinishHeader(ps).(state := HeaderFieldStart), t, data).outcome.Failed?
    ensures Run(ps, t, data) == Run(FinishHeader(ps).(state := HeaderFieldStart), t, data)
  {
    var f := FinishHeader(ps).(state := HeaderFieldStart);
    FinishOnlyFlags(ps);
    NoError(ps);
    hide Step, FinishHeader, Valid;
    LineFinished(ps, t, data[0]);
    assert !Step(f, t, data[0]).outcome.Failed?;
  }

  // ---------------------------------------------------------------- a fold

  /** A header byte that all goes well with. */
  lemma HeaderStep(ps: Parser, t: Trace, ch: Byte, next: Parser, acts: seq<Act>)
    requires ParsingHeader(ps.state) && ps.nread < MAX_HEADER_SIZE
    requires Chain(ps.(nread := ps.nread + 1), ch) == Fed(next, acts, false)
    ensures Step(ps, t, ch).outcome.Going? && Step(ps, t, ch).ps == next
  {
    hide Chain, Play, FlushAll, ParsingHeader;
  }

  lemma ValueEndTurn(ps: Parser, ch: Byte)
    requires ps.state.HeaderValue? && (ch == CR || ch == LF)
    ensures var almost := ps.(state := HeaderAlmostDone);
            Dispatch(ps, ch) == if ch == CR then Next(almost, [Flush(ValueData)]) else Again(almost, [Flush(ValueData)])
  {
  }

  lemma AlmostDoneTurn(ps: Parser)
    requires ps.state.HeaderAlmostDone?
    ensures Dispatch(ps, LF) == Next(ps.(state := HeaderValueLws), [])
  {
  }

  lemma ValueLineEnd(ps: Parser, t: Trace, ch: Byte)
    requires ps.state.HeaderValue? && (ch == CR || ch == LF) && ps.nread < MAX_HEADER_SIZE
    ensures var s := Step(ps, t, ch);
            s.outcome.Going?
            && s.ps == ps.(state := if ch == CR then HeaderAlmostDone else HeaderValueLws, nread := ps.nread + 1)
  {
    hide Step, Chain, Dispatch;
    var counted := ps.(nread := ps.nread + 1);
    var almost := counted.(state := HeaderAlmostDone);
    ValueEndTurn(counted, ch);
    if ch == CR {
      ChainOnce(counted, ch, almost, [Flush(ValueData)]);
      HeaderStep(ps, t, ch, almost, [Flush(ValueData)]);
    } else {
      var next := counted.(state := HeaderValueLws);
      AlmostDoneTurn(almost);
      ChainTwice(counted, ch, almost, [Flush(ValueData)], next, []);
      HeaderStep(ps, t, ch, next, [Flush(ValueData)] + []);
    }
  }

  lemma AlmostDone(ps: Parser, t: Trace)
    requires ps.state.HeaderAlmostDone? && ps.nread < MAX_HEADER_SIZE
    ensures var s := Step(ps, t, LF);
            s.outcome.Going? && s.ps == ps.(state := HeaderValueLws, nread := ps.nread + 1)
  {
    hide Step, Chain, Dispatch;
    var counted := ps.(nread := ps.nread + 1);
    AlmostDoneTurn(counted);
    ChainOnce(counted, LF, counted.(state := HeaderValueLws), []);
    HeaderStep(ps, t, LF, counted.(state := HeaderValueLws), []);
  }

  /** A line end inside a value. */
  lemma LineEnd(ps: Parser, t: Trace, eol: seq<Byte>)
    requires Valid(ps) && ps.state.HeaderValue? && IsEol(eol) && ps.nread + |eol| <= MAX_HEADER_SIZE
    ensures var r := Run(ps, t, eol);
            r.outcome.Going? && r.ps == ps.(state := HeaderValueLws, nread := ps.nread + |eol|)
  {
    hide Run, Step, Valid;
    ValueLineEnd(ps, t, LF);
    RunOne(ps, t, LF);
    if eol == CRLF {
      ValueLineEnd(ps, t, CR);
      RunOne(ps, t, CR);
      StepOk(ps, t, CR);
      var s := Step(ps, t, CR);
      AlmostDone(s.ps, s.trace);
      RunOne(s.ps, s.trace, LF);
      RunConcat(ps, t, [CR], [LF]);
      assert [CR] + [LF] == CRLF;
    }
  }

  lemma BlankTurn(ps: Parser, blank: Byte)
    requires ps.state.HeaderValueLws? && OptionState(ps.hstate) && IsBlank(blank)
    ensures Dispatch(ps, blank) == Again(ps.(state := HeaderValueStart), [])
  {
  }

  lemma ValueGoesOn(ps: Parser, blank: Byte)
    requires ps.state.HeaderValueStart? && OptionState(ps.hstate)
    ensures Dispatch(ps, blank) ==
            Next(ps.(state := HeaderValue, hstate := Folded(ps.hstate), index := 0), [Mark(ValueData)])
  {
    hide Lower;
  }

  lemma BlankGoesOn(ps: Parser, t: Trace, blank: Byte)
    requires ps.state.HeaderValueLws? && OptionState(ps.hstate) && IsBlank(blank) && ps.nread < MAX_HEADER_SIZE
    ensures var s := Step(ps, t, blank);
            s.outcome.Going?
            && s.ps == ps.(state := HeaderValue, hstate := Folded(ps.hstate), index := 0, nread := ps.nread + 1)
  {
    hide Step, Chain, Dispatch, Folded, OptionState;
    var counted := ps.(nread := ps.nread + 1);
    var start := counted.(state := HeaderValueStart);
    var next := start.(state := HeaderValue, hstate := Folded(ps.hstate), index := 0);
    BlankTurn(counted, blank);
    ValueGoesOn(start, blank);
    ChainTwice(counted, blank, start, [], next, [Mark(ValueData)]);
    HeaderStep(ps, t, blank, next, [] + [Mark(ValueData)]);
  }

  lemma FoldRun(ps: Parser, t: Trace, eol: seq<Byte>, blank: Byte)
    requires Valid(ps) && ps.state.HeaderValue? && OptionState(ps.hstate) && IsEol(eol) && IsBlank(blank)
    requires ps.nread + |eol| < MAX_HEADER_SIZE
    ensures var r := Run(ps, t, eol + [blank]);
            r.outcome.Going?
            && r.ps == ps.(hstate := Folded(ps.hstate), index := 0, nread := ps.nread + |eol| + 1)
  {
    hide Run, Step, Valid, Folded;
    LineEnd(ps, t, eol);
    RunOk(ps, t, eol);
    var r := Run(ps, t, eol);
    BlankGoesOn(r.ps, r.trace, blank);
    RunOne(r.ps, r.trace, blank);
    RunConcat(ps, t, eol, [blank]);
  }

  // ---------------------------------------------------------------- the next line

  lemma BlankLineTurn(ps: Parser)
    requires ps.state.HeadersAlmostDone?
    ensures var d := Dispatch(ps, LF);
            d.Fail? || (d.Again? && d.ps.flags == ps.flags && (d.ps.state.MessageDone? || d.ps.state.HeadersDone?))
  {
  }

  lemma LastTurn(ps: Parser)
    requires ps.state.MessageDone? || ps.state.HeadersDone?
    ensures var d := Dispatch(ps, LF);
            !d.Again? && (!d.Fail? ==> d.ps.flags == ps.flags)
  {
    hide NewMessage, HasBody;
  }

  lemma BlankLineKeeps(ps: Parser)
    requires ps.state.HeadersAlmostDone?
    ensures Chain(ps, LF).Fed? ==> Chain(ps, LF).ps.flags == ps.flags
  {
    BlankLineTurn(ps);
    var d := Dispatch(ps, LF);
    if d.Again? {
      LastTurn(d.ps);
      AgainLowersRank(ps, LF);
      hide Dispatch;
    }
  }

  lemma FieldStartKeeps(ps: Parser, ch: Byte)
    requires ps.state.HeaderFieldStart?
    ensures var fed := Chain(ps, ch);
            && (fed.Fed? ==> fed.ps.flags == ps.flags)
            && (IsToken(ch) || ch == CR ==> fed.Fed? && !fed.exit)
  {
    if IsToken(ch) { TokenIsNoLineEnd(ch); }
    if ch == LF { BlankLineKeeps(ps.(state := HeadersAlmostDone)); }
    hide Token, IsToken, DispatchHeadersAlmostDone;
    var d := DispatchFieldStart(ps, ch);
    if ch == LF { assert Dispatch(ps, ch) == Again(ps.(state := HeadersAlmostDone), []); }
  }

  /** The byte behind a line that is not folded. */
  lemma NextLine(ps: Parser, t: Trace, ch: Byte)
    requires ps.state.HeaderValueLws? && ch != ' ' && ch != '\t' && ps.nread < MAX_HEADER_SIZE
    ensures var s := Step(ps, t, ch);
            && (!s.outcome.Failed? ==> s.ps.flags == FinishHeader(ps).flags)
            && (IsToken(ch) || ch == CR ==> s.outcome.Going?)
  {
    hide Chain, Play, FlushAll, FinishHeader, IsToken;
    var counted := ps.(nread := ps.nread + 1);
    FinishMoves(counted, ch);
    FinishCounts(ps, Some(ps.nread + 1));
    FieldStartKeeps(FinishHeader(counted).(state := HeaderFieldStart), ch);
  }

  /** So the flags that a value leads to are those that its last state sets. */
  lemma ValueFinished(ps: Parser, t: Trace, b: seq<Byte>, eol: seq<Byte>, ch: Byte)
    requires Valid(ps) && IsEol(eol) && ch != ' ' && ch != '\t'
    requires Run(ps, t, b).outcome.Going? && Run(ps, t, b).ps.state.HeaderValue?
    requires Run(ps, t, b).ps.nread + |eol| < MAX_HEADER_SIZE
    ensures var r, f := Run(ps, t, b + eol + [ch]), FinishHeader(Run(ps, t, b).ps).flags;
            && (!r.outcome.Failed? ==> r.ps.flags == f)
            && (IsToken(ch) || ch == CR ==> r.outcome.Going?)
  {
    hide Run, Step, Valid, FinishHeader, IsToken;
    RunOk(ps, t, b);
    var r := Run(ps, t, b);
    LineEnd(r.ps, r.trace, eol);
    RunConcat(ps, t, b, eol);
    RunOk(ps, t, b + eol);
    var e := Run(ps, t, b + eol);
    FinishIgnores(r.ps, e.ps);
    NextLine(e.ps, e.trace, ch);
    RunOne(e.ps, e.trace, ch);
    RunConcat(ps, t, b + eol, [ch]);
  }

  /** What a message with the value `v` on one line leads to. */
  function LineRun(ps: Parser, t: Trace, v: seq<Byte>): Ran { Run(ps, t, v + CRLF + [CR]) }

  const COLON: seq<Byte> := ": "

  lemma ColonTurn(ps: Parser)
    requires ps.state.HeaderField?
    ensures Dispatch(ps, ':') == Next(ps.(state := HeaderValueDiscardWs), [Flush(FieldData)])
  {
  }

  lemma SpaceTurn(ps: Parser)
    requires ps.state.HeaderValueDiscardWs?
    ensures Dispatch(ps, ' ') == Next(ps, [])
  {
  }

  lemma ColonRun(ps: Parser, t: Trace)
    requires Valid(ps) && ps.state.HeaderField? && ps.nread + 2 <= MAX_HEADER_SIZE
    ensures var r := Run(ps, t, COLON);
            r.outcome.Going? && r.ps == ps.(state := HeaderValueDiscardWs, nread := ps.nread + 2)
  {
    hide Run, Step, Chain, Dispatch, Valid;
    var one := ps.(state := HeaderValueDiscardWs, nread := ps.nread + 1);
    var two := one.(nread := ps.nread + 2);
    ColonTurn(ps.(nread := ps.nread + 1));
    ChainOnce(ps.(nread := ps.nread + 1), ':', one, [Flush(FieldData)]);
    HeaderStep(ps, t, ':', one, [Flush(FieldData)]);
    RunOne(ps, t, ':');
    StepOk(ps, t, ':');
    var s := Step(ps, t, ':');
    SpaceTurn(two);
    ChainOnce(two, ' ', two, []);
    HeaderStep(one, s.trace, ' ', two, []);
    RunOne(one, s.trace, ' ');
    RunConcat(ps, t, [':'], [' ']);
    assert [':'] + [' '] == COLON;
  }
}
