// What the values of Transfer-Encoding mean to the parser, and when a message is chunked as section 3.3.3 of RFC 7230
// asks.

module HttpCodings {
  import opened HttpChars
  import opened HttpParser
  import opened HttpInvariant
  import opened HttpRun
  import opened HttpSteps
  import opened HttpNames
  import opened HttpNumbers
  import opened HttpElements
  import opened HttpLines

  // ---------------------------------------------------------------- values

  const GZIP: seq<Byte> := "gzip"
  const GZIP_TAB_CHUNKED: seq<Byte> := "gzip,\tchunked"

  lemma GzipNames()
    ensures IsPlain(GZIP) && IsPlain(CHUNKED) && GZIP != CHUNKED
    ensures GZIP_TAB_CHUNKED == GZIP + [','] + (['\t'] + CHUNKED)
    ensures IsLine(GZIP_TAB_CHUNKED) && |GZIP_TAB_CHUNKED| <= 16
  {
  }

  // ---------------------------------------------------------------- one byte of a coding

  predicate StandsTe(h: HState, index: nat, w: seq<Byte>) {
    TeState(h) && Stands(h, index, w, CHUNKED, MatchingTeChunked, TeChunked)
  }

  predicate SeesTe(h: HState, w: seq<Byte>) { Sees(h, w, CHUNKED, MatchingTeChunked, TeChunked) }

  /** The matcher inside a coding that has the text `w` so far. */
  predicate InTe(m: Mode, h: HState, index: nat, w: seq<Byte>) {
    match m
    case First => StandsTe(h, index, w) && SeesTe(h, w) && w != [] && !h.General? && !h.TeTokenStart?
    case Look => StandsTe(h, index, w) && SeesTe(h, w) && (!h.General? && !h.TeTokenStart? ==> Begun(w))
    case Skip => h.TeToken?
    case Lost => h.General?
  }

  /** The state a byte other than a comma leads to. */
  function TeAfter(h: HState, index: nat, c: Byte): HState {
    match h
    case MatchingTeChunked => MatchState(index + 1, h, CHUNKED, c, TeToken, TeChunked)
    case TeChunked => if c == ' ' then h else TeToken
    case TeTokenStart =>
      if c == 'c' then MatchingTeChunked else if IsToken(c) then TeToken else if c == ' ' then h else General
    case _ => h
  }

  lemma TeNext(ps: Parser, ch: Byte)
    requires TeState(ps.hstate) && IsHeaderChar(ch) && ch != CR && ch != LF && ch != ','
    requires ps.hstate.MatchingTeChunked? ==> ps.index + 1 < |CHUNKED|
    ensures ValueStep(ps, ch) == Good(ps.(hstate := TeAfter(ps.hstate, ps.index, Lower(ch)),
                                          index := if ps.hstate.MatchingTeChunked? then ps.index + 1 else ps.index))
  {
    LowerBlank(ch);
    OptionNames();
    hide Lower, IsHeaderChar, CHUNKED, MatchState, IsToken;
  }

  lemma TeThen(h: HState, index: nat, w: seq<Byte>, c: Byte)
    requires StandsTe(h, index, w) && SeesTe(h, w)
    ensures var next, v := TeAfter(h, index, c), if w == [] && c == ' ' then [] else w + [c];
            && StandsTe(next, if h.MatchingTeChunked? then index + 1 else index, v) && SeesTe(next, v)
  {
    OptionNames();
    BlankIsNoToken();
    hide Is, Foreign, CHUNKED, MatchState, IsToken;
    match h {
      case MatchingTeChunked => MatchStands(CHUNKED, index, w, c, h, TeToken, TeChunked);
      case TeChunked => BehindOption(w, c, CHUNKED);
      case TeToken => ForeignStays(w, c, CHUNKED);
      case TeTokenStart => TeStart(c);
      case General => assert (w + [c])[0] == w[0];
    }
  }

  function FirstTe(c: Byte): HState { if c == 'c' then MatchingTeChunked else TeToken }

  lemma TeStart(c: Byte)
    ensures [] + [c] == [c] && StandsTe(FirstTe(c), 0, [c]) && SeesTe(FirstTe(c), [c])
    ensures StandsTe(General, 0, [c]) && (!IsToken(c) ==> SeesTe(General, [c]))
  {
    OptionNames();
    hide IsToken, CHUNKED;
    assert CHUNKED[..1] == [CHUNKED[0]];
  }

  /** The byte that goes on with a coding, or a space before one. */
  lemma TeMoves(m: Mode, ps: Parser, w: seq<Byte>, ch: Byte)
    requires InTe(m, ps.hstate, ps.index, w) && IsHeaderChar(ch) && ch != CR && ch != LF && ch != ','
    ensures var s, v := ValueStep(ps, ch), if w == [] && ch == ' ' then [] else w + [Lower(ch)];
            s.Good? && s.ps.flags == ps.flags && InTe(m, s.ps.hstate, s.ps.index, v)
  {
    TeNext(ps, ch);
    LowerBlank(ch);
    hide ValueStep, Lower, IsHeaderChar;
    TeGoesOn(m, ps.hstate, ps.index, w, Lower(ch));
  }

  lemma TeGoesOn(m: Mode, h: HState, index: nat, w: seq<Byte>, c: Byte)
    requires InTe(m, h, index, w)
    ensures var v := if w == [] && c == ' ' then [] else w + [c];
            InTe(m, TeAfter(h, index, c), if h.MatchingTeChunked? then index + 1 else index, v)
  {
    if Heeds(m) {
      TeThen(h, index, w, c);
      TeStays(h, index, w, c);
      hide StandsTe, SeesTe, TeAfter;
    }
  }

  lemma TeStays(h: HState, index: nat, w: seq<Byte>, c: Byte)
    requires StandsTe(h, index, w)
    ensures var next, v := TeAfter(h, index, c), if w == [] && c == ' ' then [] else w + [c];
            && (h.General? ==> next.General?)
            && (!h.General? && !h.TeTokenStart? ==> !next.General? && !next.TeTokenStart?)
            && (Begun(w) ==> Begun(v))
            && (h.TeTokenStart? && !next.General? && !next.TeTokenStart? ==> Begun(v))
  {
    NamesBegin();
    BlankIsNoToken();
    hide IsToken, Is, CHUNKED;
    assert [] + [c] == [c];
  }

  /** The mode the next coding is met with. */
  lemma TeAfterIs(m: Mode, h: HState, index: nat, w: seq<Byte>)
    requires Heeds(m) && InTe(m, h, index, w)
    ensures Then(CodingHeader, m, w) ==
            if h.TeToken? then Look else if h.General? || h.TeTokenStart? then Lost else Skip
  {
    hide IsToken;
    OptionNames();
  }

  /** The state after a comma. An unfinished matcher, and chunked itself, take it for a byte of their element. */
  lemma TeComma(ps: Parser)
    requires TeState(ps.hstate)
    ensures var h, s := ps.hstate, ValueStep(ps, ',');
            && s.Good? && s.ps.flags == ps.flags
            && if h.TeToken? then s.ps.hstate.TeTokenStart? && s.ps.index == 0
               else if h.General? || h.TeTokenStart? then s.ps.hstate.General?
               else s.ps.hstate.TeToken?
  {
  }

  lemma CommaTe(m: Mode, ps: Parser, w: seq<Byte>)
    requires InTe(m, ps.hstate, ps.index, w)
    ensures var s := ValueStep(ps, ',');
            && s.Good? && s.ps.flags == ps.flags
            && InTe(Then(CodingHeader, m, w), s.ps.hstate, s.ps.index, [])
  {
    if Heeds(m) { TeAfterIs(m, ps.hstate, ps.index, w); }
    TeComma(ps);
    hide ValueStep, Swallows, IsToken, CHUNKED;
  }

  // ---------------------------------------------------------------- the value of Transfer-Encoding

  /** The matcher inside a coding that has the bytes `e` so far. */
  predicate WithinTe(m: Mode, h: HState, index: nat, e: seq<Byte>) {
    if Torn(m, e) then h.General? else InTe(m, h, index, Text(e))
  }

  lemma ByteMovesTe(m: Mode, ps: Parser, e: seq<Byte>, ch: Byte)
    requires WithinTe(m, ps.hstate, ps.index, e) && IsHeaderChar(ch) && ch != CR && ch != LF && ch != ','
    ensures var s := ValueStep(ps, ch);
            s.Good? && s.ps.flags == ps.flags && WithinTe(m, s.ps.hstate, s.ps.index, e + [ch])
  {
    TornSnoc(m, e, ch);
    TextSnoc(e, ch);
    SmallBlank(ch);
    hide Torn, Text, ValueStep, Small, Lower, IsHeaderChar, InTe;
    if Torn(m, e) { LostStep(ps, ch); } else { TeMoves(m, ps, Text(e), ch); }
  }

  lemma CommaMovesTe(m: Mode, ps: Parser, e: seq<Byte>)
    requires WithinTe(m, ps.hstate, ps.index, e)
    ensures var s := ValueStep(ps, ',');
            && s.Good? && s.ps.flags == ps.flags
            && WithinTe(NextMode(CodingHeader, m, e), s.ps.hstate, s.ps.index, [])
  {
    NoBytes(NextMode(CodingHeader, m, e));
    hide Torn, Text, Then;
    if Torn(m, e) {
      LostStep(ps, ',');
    } else {
      hide ValueStep, InTe;
      CommaTe(m, ps, Text(e));
    }
  }

  lemma FoldMovesTe(m: Mode, h: HState, index: nat, e: seq<Byte>)
    requires WithinTe(m, h, index, e)
    ensures WithinTe(m, if h.TeTokenStart? then h else General, 0, e + [FOLD])
  {
    TornSnoc(m, e, FOLD);
    TextSnoc(e, FOLD);
    OptionNames();
    hide Torn, Text, Is, Foreign, IsToken, CHUNKED;
  }

  predicate AtTe(h: HState, index: nat, u: seq<Byte>) {
    var ps, last := Pieces(u), |Pieces(u)| - 1;
    WithinTe(ModeAfter(CodingHeader, ps[..last]), h, index, ps[last])
  }

  lemma TeStep(ps: Parser, u: seq<Byte>, ch: Byte)
    requires AtTe(ps.hstate, ps.index, u) && IsHeaderChar(ch) && ch != CR && ch != LF
    ensures var s := ValueStep(ps, ch);
            s.Good? && s.ps.flags == ps.flags && AtTe(s.ps.hstate, s.ps.index, u + [ch])
  {
    var all, last := Pieces(u), |Pieces(u)| - 1;
    var before, e := all[..last], all[last];
    var m := ModeAfter(CodingHeader, before);
    PiecesSnoc(u, ch);
    assert all == before + [e];
    hide Pieces, WithinTe, ValueStep, IsHeaderChar, Lower, NextMode;
    if ch == ',' {
      assert (all + [[]])[..|all|] == all;
      CommaMovesTe(m, ps, e);
      ModeSnoc(CodingHeader, before, e);
    } else {
      assert all[last := e + [ch]][..last] == before;
      ByteMovesTe(m, ps, e, ch);
    }
  }

  lemma TeFold(h: HState, index: nat, u: seq<Byte>)
    requires AtTe(h, index, u)
    ensures OptionState(h) && AtTe(Folded(h), 0, u + [FOLD])
  {
    var all, last := Pieces(u), |Pieces(u)| - 1;
    PiecesSnoc(u, FOLD);
    hide Pieces, WithinTe;
    var m := ModeAfter(CodingHeader, all[..last]);
    InTeState(m, h, index, all[last]);
    assert all[last := all[last] + [FOLD]][..last] == all[..last];
    FoldMovesTe(m, h, index, all[last]);
  }

  lemma InTeState(m: Mode, h: HState, index: nat, e: seq<Byte>)
    requires WithinTe(m, h, index, e)
    ensures TeState(h)
  {
    hide Torn, Text;
  }

  /** What no header line changes besides its name. */
  predicate Beside(was: Parser, now: Parser) { now.usesTe == was.usesTe && now.verb == was.verb }

  lemma MatchBeside(ps: Parser, c: Byte)
    ensures forall name, miss, full :: Beside(ps, Match(ps, name, c, miss, full))
  {
    hide MatchState;
  }

  lemma DigitBeside(ps: Parser, ch: Byte)
    ensures ContentLengthDigit(ps, ch).Good? ==> Beside(ps, ContentLengthDigit(ps, ch).ps)
  {
    hide Wrap64;
  }

  lemma FlagBeside(ps: Parser)
    ensures Beside(ps, ConnectionFlag(ps))
  {
  }

  lemma ValueStepBeside(ps: Parser, ch: Byte)
    ensures ValueStep(ps, ch).Good? ==> Beside(ps, ValueStep(ps, ch).ps)
  {
    hide CHUNKED, KEEP_ALIVE, CLOSE, UPGRADE, Lower, IsToken, Match, ContentLengthDigit, ConnectionFlag;
    MatchBeside(ps, Lower(ch));
    DigitBeside(ps, ch);
    DigitBeside(ps.(hstate := ContentLengthNum), ch);
    FlagBeside(ps);
  }

  lemma FirstTeByte(ps: Parser, t: Trace, ch: Byte)
    requires Valid(ps) && ps.state.HeaderValueDiscardWs? && ps.hstate.TransferEncoding? && ps.nread < MAX_HEADER_SIZE
    requires ch != ' ' && ch != '\t' && ch != CR && ch != LF
    ensures var s := Step(ps, t, ch);
            && s.outcome.Going? && s.ps.state.HeaderValue? && s.ps.nread == ps.nread + 1 && s.ps.flags == ps.flags
            && s.ps.hstate == FirstTe(Lower(ch)) && s.ps.index == 0 && Beside(ps, s.ps)
  {
    hide Step, Chain, Dispatch, FirstTe, Valid;
    var counted := ps.(nread := ps.nread + 1);
    var next := counted.(state := HeaderValue, index := 0, hstate := FirstTe(Lower(ch)));
    FirstTeTurn(counted, ch);
    ChainOnce(counted, ch, next, [Mark(ValueData)]);
    HeaderStep(ps, t, ch, next, [Mark(ValueData)]);
  }

  lemma FirstTeTurn(ps: Parser, ch: Byte)
    requires ps.state.HeaderValueDiscardWs? && ps.hstate.TransferEncoding?
    requires ch != ' ' && ch != '\t' && ch != CR && ch != LF
    ensures Dispatch(ps, ch) ==
            Next(ps.(state := HeaderValue, index := 0, hstate := FirstTe(Lower(ch))), [Mark(ValueData)])
  {
    hide Lower;
  }

  lemma FirstAtTe(ch: Byte)
    requires ch != ' ' && ch != LF
    ensures AtTe(FirstTe(Lower(ch)), 0, [ch])
  {
    OnePiece(ch);
    NoElement(CodingHeader);
    FirstInTe(ch);
    hide Pieces, Text, Torn, ModeAfter, InTe, FirstTe, Lower;
    if ch == ',' {
      var two: seq<seq<Byte>> := [[], []];
      assert two[..1] == [[]];
    } else {
      assert [[ch]][..0] == [];
    }
  }

  lemma FirstInTe(ch: Byte)
    ensures InTe(First, FirstTe(Lower(ch)), 0, [Lower(ch)])
    ensures ch == ',' ==> InTe(Skip, FirstTe(Lower(ch)), 0, [])
  {
    hide StandsTe, SeesTe;
    TeStart(Lower(ch));
  }

  predicate AfterTe(was: Parser, ps: Parser, nread: nat, v: seq<Byte>) {
    && ps.state.HeaderValue? && ps.nread == nread && ps.flags == was.flags && Beside(was, ps)
    && AtTe(ps.hstate, ps.index, v)
  }

  lemma {:induction false} TeRun(ps: Parser, t: Trace, s: seq<Sign>)
    requires Valid(ps) && ps.state.HeaderValueDiscardWs? && ps.hstate.TransferEncoding? && IsValue(s)
    requires ps.nread + |Sent(s)| <= MAX_HEADER_SIZE
    ensures var r := Run(ps, t, Sent(s));
            r.outcome.Going? && AfterTe(ps, r.ps, ps.nread + |Sent(s)|, Marked(s))
    decreases |s|
  {
    hide Run, Step, Valid, AtTe, ValueStep, IsHeaderChar, Folded, OptionState;
    var u, x := s[..|s| - 1], s[|s| - 1];
    if u == [] {
      assert Sent(s) == [x.c] && Marked(s) == [x.c];
      FirstTeByte(ps, t, x.c);
      FirstAtTe(x.c);
      RunOne(ps, t, x.c);
    } else {
      assert u[0] == s[0] && IsSign(x);
      TeRun(ps, t, u);
      RunOk(ps, t, Sent(u));
      RunConcat(ps, t, Sent(u), SentAs(x));
      var r := Run(ps, t, Sent(u));
      match x {
        case Char(c) =>
          TeStep(r.ps, Marked(u), c);
          ValueStepBeside(r.ps, c);
          ValueByte(r.ps, r.trace, c);
          RunOne(r.ps, r.trace, c);
          ValueKeepsPlace(r.ps, c);
        case Fold(eol, blank) =>
          TeFold(r.ps.hstate, r.ps.index, Marked(u));
          FoldRun(r.ps, r.trace, eol, blank);
      }
    }
  }

  /** The last coding of the value, as RFC 7230 reads it. */
  predicate LastIsChunked(v: seq<Byte>) { Bare(Pieces(v)[|Pieces(v)| - 1]) == CHUNKED }

  /** The last coding as the parser reads it. */
  predicate LastHeard(v: seq<Byte>) { Recognised(CodingHeader, v, |Pieces(v)| - 1, CHUNKED) }

  lemma TeFinished(ps: Parser, t: Trace, s: seq<Sign>)
    requires Valid(ps) && ps.state.HeaderValueDiscardWs? && ps.hstate.TransferEncoding? && IsValue(s)
    requires ps.nread + |Sent(s)| <= MAX_HEADER_SIZE
    ensures var r := Run(ps, t, Sent(s));
            && r.outcome.Going? && r.ps.state.HeaderValue? && r.ps.nread == ps.nread + |Sent(s)| && Beside(ps, r.ps)
            && FinishHeader(r.ps).flags == ps.flags.(chunked := ps.flags.chunked || LastHeard(Marked(s)))
  {
    hide Run, Valid, IsValue, AtTe, Pieces, IsName, InLine, Sent, Marked, FinishHeader, LastHeard;
    TeRun(ps, t, s);
    ValueInLine(s);
    PiecesInLine(Marked(s));
    LastCoding(Run(ps, t, Sent(s)).ps, Marked(s));
  }

  lemma LastCoding(ps: Parser, v: seq<Byte>)
    requires AtTe(ps.hstate, ps.index, v) && InLine(Pieces(v)[|Pieces(v)| - 1])
    ensures FinishHeader(ps).flags == ps.flags.(chunked := ps.flags.chunked || LastHeard(v))
  {
    hide Pieces, Text, Torn, ModeAfter, WithinTe, InLine, Bare, FinishHeader, Is, IsName;
    var all, last := Pieces(v), |Pieces(v)| - 1;
    NamesAreNames();
    IsMeansBare(all[last], CHUNKED);
    CodingNoted(ModeAfter(CodingHeader, all[..last]), ps, all[last]);
  }

  lemma CodingNoted(m: Mode, ps: Parser, e: seq<Byte>)
    requires WithinTe(m, ps.hstate, ps.index, e)
    ensures FinishHeader(ps).flags == ps.flags.(chunked := ps.flags.chunked || Hears(m, e, CHUNKED))
  {
    hide Torn, Text;
    OptionNames();
    NamesBegin();
  }

  /** A Transfer-Encoding header makes the message chunked exactly if the parser recognises chunked in its last
      element: it never does so for a coding that is not the last one. What an earlier header has set stays. */
  lemma ChunkedIsLast(ps: Parser, t: Trace, s: seq<Sign>, eol: seq<Byte>, ch: Byte)
    requires Valid(ps) && ps.state.HeaderValueDiscardWs? && ps.hstate.TransferEncoding? && IsValue(s)
    requires IsEol(eol) && !IsBlank(ch) && ps.nread + |Sent(s)| + |eol| < MAX_HEADER_SIZE
    ensures var r := Run(ps, t, Sent(s) + eol + [ch]);
            && (IsToken(ch) || ch == CR ==> r.outcome.Going?)
            && (!r.outcome.Failed? ==>
                  r.ps.flags == ps.flags.(chunked := ps.flags.chunked || LastHeard(Marked(s))))
  {
    hide Run, Valid, IsToken, LastHeard, FinishHeader, Sent;
    TeFinished(ps, t, s);
    ValueFinished(ps, t, Sent(s), eol, ch);
  }

  /** Section 3.3.3 of RFC 7230 asks that a message be chunked exactly if chunked is its last coding. That is so
      behind a Transfer-Encoding header if and only if, when the message was chunked before, it still ends in chunked,
      and when it was not, chunked is not overlooked in the last place. */
  lemma ChunkedExactlyWhen(ps: Parser, t: Trace, s: seq<Sign>, eol: seq<Byte>, ch: Byte)
    requires Valid(ps) && ps.state.HeaderValueDiscardWs? && ps.hstate.TransferEncoding? && IsValue(s)
    requires IsEol(eol) && !IsBlank(ch) && ps.nread + |Sent(s)| + |eol| < MAX_HEADER_SIZE
    requires !Run(ps, t, Sent(s) + eol + [ch]).outcome.Failed?
    ensures var f, v := Run(ps, t, Sent(s) + eol + [ch]).ps.flags, Marked(s);
            (f.chunked <==> LastIsChunked(v))
            <==> if ps.flags.chunked then LastIsChunked(v) else LastIsChunked(v) ==> LastHeard(v)
  {
    ChunkedIsLast(ps, t, s, eol, ch);
    hide Run, Valid, IsValue, IsToken, Pieces, Bare, Heeded, TornAt, Sent, Marked;
  }

  lemma ReadTabChunked()
    ensures LastIsChunked(GZIP_TAB_CHUNKED) && !LastHeard(GZIP_TAB_CHUNKED)
  {
    hide Pieces, Bare, Text, NoComma, Recognised, Heeded, TornAt, IsPlain, GZIP_TAB_CHUNKED, GZIP, CHUNKED;
    GzipNames();
    PlainElement(GZIP);
    PlainElement(CHUNKED);
    OneBlank('\t', CHUNKED);
    TwoElements(GZIP, ['\t'] + CHUNKED, GZIP_TAB_CHUNKED);
    assert (['\t'] + CHUNKED)[0] == '\t';
  }

  lemma LineChunked(ps: Parser, t: Trace, v: seq<Byte>)
    requires Valid(ps) && ps.state.HeaderValueDiscardWs? && ps.hstate.TransferEncoding? && IsLine(v)
    requires ps.nread + |v| + 2 < MAX_HEADER_SIZE
    ensures var r := LineRun(ps, t, v);
            r.outcome.Going? && r.ps.flags == ps.flags.(chunked := ps.flags.chunked || LastHeard(v))
  {
    hide Run, Valid, IsLine, IsValue, Sent, Marked, LastHeard;
    CharsSent(v);
    ChunkedIsLast(ps, t, Chars(v), CRLF, CR);
  }

  /** The value "gzip,\tchunked" ends in chunked, and the parser does not see it. */
  lemma TabHidesChunked(ps: Parser, t: Trace)
    requires Valid(ps) && ps.state.HeaderValueDiscardWs? && ps.hstate.TransferEncoding?
    requires ps.nread + 20 <= MAX_HEADER_SIZE
    ensures LastIsChunked(GZIP_TAB_CHUNKED) && !LastHeard(GZIP_TAB_CHUNKED)
    ensures var r := LineRun(ps, t, GZIP_TAB_CHUNKED);
            r.outcome.Going? && r.ps.flags == ps.flags
  {
    hide LineRun, Valid, IsLine, LastIsChunked, LastHeard, GZIP_TAB_CHUNKED;
    GzipNames();
    ReadTabChunked();
    LineChunked(ps, t, GZIP_TAB_CHUNKED);
  }

  // ---------------------------------------------------------------- several headers

  const TE_NAME: seq<Byte> := "Transfer-Encoding"

  lemma TeName()
    ensures |TE_NAME| == 17 && Tokens(TE_NAME) == TRANSFER_ENCODING && forall i :: 0 <= i < 17 ==> IsToken(TE_NAME[i])
  {
    hide Token;
    TokensAt(TE_NAME);
    Capitals();
    forall i | 0 <= i < 17 && i != 0 && i != 9 ensures Token(TE_NAME[i]) == TE_NAME[i] {
      SmallLetter(TE_NAME[i]);
    }
  }

  function TeLine(v: seq<Byte>): seq<Byte> { TE_NAME + COLON + v + CRLF }

  /** The parser behind a Transfer-Encoding line, if nothing is folded. */
  predicate BehindTe(was: Parser, ps: Parser, v: seq<Byte>) {
    && ps.state.HeaderFieldStart? && ps.nread == was.nread + |TeLine(v)| && ps.usesTe && ps.verb == was.verb
    && ps.flags == was.flags.(chunked := was.flags.chunked || LastHeard(v))
  }

  /** One Transfer-Encoding line. */
  lemma TeLineRun(ps: Parser, t: Trace, v: seq<Byte>)
    requires Valid(ps) && ps.state.HeaderFieldStart? && IsLine(v) && ps.nread + |TeLine(v)| <= MAX_HEADER_SIZE
    ensures var r := Run(ps, t, TeLine(v));
            && r.outcome.Going? && r.ps.state.HeaderValueLws? && Valid(r.ps)
            && BehindTe(ps, FinishHeader(r.ps).(state := HeaderFieldStart), v)
  {
    hide Run, Step, Valid, IsLine, IsValue, TE_NAME, COLON, LastHeard, FinishHeader, Sent, Marked, IsToken,
      TRANSFER_ENCODING;
    TeName();
    HeaderNameRecognised(ps, t, TE_NAME);
    RunOk(ps, t, TE_NAME);
    var a := Run(ps, t, TE_NAME);
    ColonRun(a.ps, a.trace);
    RunConcat(ps, t, TE_NAME, COLON);
    RunOk(ps, t, TE_NAME + COLON);
    var b := Run(ps, t, TE_NAME + COLON);
    CharsSent(v);
    assert |COLON| == 2 by { TwoBytes(); }
    TeFinished(b.ps, b.trace, Chars(v));
    RunConcat(ps, t, TE_NAME + COLON, v);
    RunOk(ps, t, TE_NAME + COLON + v);
    var c := Run(ps, t, TE_NAME + COLON + v);
    LineEnd(c.ps, c.trace, CRLF);
    RunConcat(ps, t, TE_NAME + COLON + v, CRLF);
    RunOk(ps, t, TE_NAME + COLON + v + CRLF);
    var d := Run(ps, t, TE_NAME + COLON + v + CRLF);
    FinishIgnores(c.ps, d.ps);
    FinishOnlyFlags(d.ps);
    SpellLine(v);
  }

  lemma TwoBytes()
    ensures |COLON| == 2
  {
  }

  lemma SpellLine(v: seq<Byte>)
    ensures TeLine(v) == TE_NAME + COLON + v + CRLF && |TeLine(v)| == 21 + |v|
  {
  }

  /** Transfer-Encoding lines one behind the other. */
  function TeLines(vs: seq<seq<Byte>>): seq<Byte> {
    if vs == [] then [] else TeLines(vs[..|vs| - 1]) + TeLine(vs[|vs| - 1])
  }

  predicate AnyHeard(vs: seq<seq<Byte>>) { exists i :: 0 <= i < |vs| && LastHeard(vs[i]) }

  lemma AnyHeardSnoc(vs: seq<seq<Byte>>)
    requires vs != []
    ensures AnyHeard(vs) <==> AnyHeard(vs[..|vs| - 1]) || LastHeard(vs[|vs| - 1])
  {
    hide LastHeard;
    var us := vs[..|vs| - 1];
    if AnyHeard(us) {
      var i :| 0 <= i < |us| && LastHeard(us[i]);
      assert vs[i] == us[i];
    }
    if AnyHeard(vs) {
      var i :| 0 <= i < |vs| && LastHeard(vs[i]);
      assert i < |us| ==> us[i] == vs[i];
    }
  }

  /** The parser behind Transfer-Encoding lines, if nothing is folded. */
  predicate BehindLines(was: Parser, ps: Parser, vs: seq<seq<Byte>>) {
    && ps.state.HeaderFieldStart? && ps.nread == was.nread + |TeLines(vs)| && ps.verb == was.verb
    && ps.flags == was.flags.(chunked := was.flags.chunked || AnyHeard(vs))
  }

  lemma {:induction false} TeLinesRun(ps: Parser, t: Trace, vs: seq<seq<Byte>>)
    requires Valid(ps) && ps.state.HeaderFieldStart? && vs != [] && forall v :: v in vs ==> IsLine(v)
    requires ps.nread + |TeLines(vs)| <= MAX_HEADER_SIZE
    ensures var r := Run(ps, t, TeLines(vs));
            && r.outcome.Going? && r.ps.state.HeaderValueLws? && Valid(r.ps)
            && BehindLines(ps, FinishHeader(r.ps).(state := HeaderFieldStart), vs)
    decreases |vs|
  {
    hide Run, Step, Valid, IsLine, LastHeard, FinishHeader, TeLine;
    var us, v := vs[..|vs| - 1], vs[|vs| - 1];
    AnyHeardSnoc(vs);
    if us == [] {
      assert TeLines(vs) == TeLine(v);
      TeLineRun(ps, t, v);
    } else {
      TeLinesRun(ps, t, us);
      var r := Run(ps, t, TeLines(us));
      var f := FinishHeader(r.ps).(state := HeaderFieldStart);
      FinishedValid(r.ps);
      TeLineRun(f, r.trace, v);
      LineBegins(v);
      FinishedRun(r.ps, r.trace, TeLine(v));
      RunConcat(ps, t, TeLines(us), TeLine(v));
    }
  }

  lemma LineBegins(v: seq<Byte>)
    ensures TeLine(v) != [] && !IsBlank(TeLine(v)[0])
  {
    SpellLine(v);
    NameBegins();
  }

  lemma NameBegins()
    ensures TE_NAME != [] && TE_NAME[0] == 'T'
  {
  }

  lemma BlankLineTurns(ps: Parser)
    requires ps.flags.chunked && !ps.flags.trailing && !ps.flags.contentLength && !ps.verb.CONNECT?
    ensures ps.state.HeaderFieldStart? ==> Dispatch(ps, CR) == Next(ps.(state := HeadersAlmostDone), [])
    ensures ps.state.HeadersAlmostDone? ==>
              var d := Dispatch(ps, LF);
              d.Again? && d.ps.state.HeadersDone? && d.ps.flags == ps.flags && d.ps.verb == ps.verb
    ensures ps.state.HeadersDone? ==>
              var d := Dispatch(ps, LF);
              d.Next? && d.ps.state.ChunkSizeStart? && d.ps.flags == ps.flags
  {
  }

  /** The blank line of a chunked message. */
  lemma ChunkedBegins(ps: Parser, t: Trace)
    requires Valid(ps) && ps.state.HeaderFieldStart? && ps.nread + 2 <= MAX_HEADER_SIZE
    requires ps.flags.chunked && !ps.flags.trailing && !ps.flags.contentLength && !ps.verb.CONNECT?
    ensures var r := Run(ps, t, CRLF);
            r.outcome.Going? && r.ps.state.ChunkSizeStart? && r.ps.flags == ps.flags
  {
    hide Run, Step, Chain, Dispatch, Valid;
    var almost := ps.(state := HeadersAlmostDone, nread := ps.nread + 1);
    var counted := almost.(nread := ps.nread + 2);
    BlankLineTurns(ps.(nread := ps.nread + 1));
    ChainOnce(ps.(nread := ps.nread + 1), CR, almost, []);
    HeaderStep(ps, t, CR, almost, []);
    RunOne(ps, t, CR);
    StepOk(ps, t, CR);
    var s := Step(ps, t, CR);
    BlankLineTurns(counted);
    var d := Dispatch(counted, LF);
    BlankLineTurns(d.ps);
    var e := Dispatch(d.ps, LF);
    ChainTwice(counted, LF, d.ps, d.acts, e.ps, e.acts);
    HeaderStep(almost, s.trace, LF, e.ps, d.acts + e.acts);
    RunOne(almost, s.trace, LF);
    RunConcat(ps, t, [CR], [LF]);
    assert [CR] + [LF] == CRLF;
  }

  /** Over several Transfer-Encoding lines chunked stays set once it was recognised in the last place of one. */
  lemma ChunkedOverLines(ps: Parser, t: Trace, vs: seq<seq<Byte>>, ch: Byte)
    requires Valid(ps) && ps.state.HeaderFieldStart? && vs != [] && forall v :: v in vs ==> IsLine(v)
    requires ps.nread + |TeLines(vs)| < MAX_HEADER_SIZE && !IsBlank(ch)
    requires !Run(ps, t, TeLines(vs) + [ch]).outcome.Failed?
    ensures var f, last := Run(ps, t, TeLines(vs) + [ch]).ps.flags, |vs| - 1;
            && f == ps.flags.(chunked := ps.flags.chunked || AnyHeard(vs))
            && ((f.chunked <==> LastIsChunked(vs[last]))
                <==> if ps.flags.chunked || AnyHeard(vs[..last]) then LastIsChunked(vs[last])
                     else LastIsChunked(vs[last]) ==> LastHeard(vs[last]))
  {
    hide Run, Step, Valid, IsLine, FinishHeader, TeLines, AnyHeard, Pieces, Bare, Heeded, TornAt;
    TeLinesRun(ps, t, vs);
    AnyHeardSnoc(vs);
    var r := Run(ps, t, TeLines(vs));
    FinishOnlyFlags(r.ps);
    NextLine(r.ps, r.trace, ch);
    RunOne(r.ps, r.trace, ch);
    RunConcat(ps, t, TeLines(vs), [ch]);
  }

  const CHUNKED_THEN_GZIP: seq<seq<Byte>> := [CHUNKED, GZIP]

  lemma TwoLines()
    ensures TeLines(CHUNKED_THEN_GZIP) == TE_NAME + COLON + CHUNKED + CRLF + TE_NAME + COLON + GZIP + CRLF
    ensures |TeLines(CHUNKED_THEN_GZIP)| == 53
  {
    SpellLine(CHUNKED);
    SpellLine(GZIP);
    Lengths();
    hide CHUNKED, GZIP, TE_NAME, COLON, CRLF, TeLine;
    var vs := CHUNKED_THEN_GZIP;
    var none: seq<seq<Byte>> := [];
    assert vs[..1] == [CHUNKED] && vs[..1][..0] == none;
    assert TeLines(vs[..1]) == TeLine(CHUNKED);
  }

  lemma Lengths()
    ensures |CHUNKED| == 7 && |GZIP| == 4 && IsLine(CHUNKED) && IsLine(GZIP)
  {
  }

  lemma ReadBoth()
    ensures LastHeard(CHUNKED) && LastIsChunked(CHUNKED) && !LastIsChunked(GZIP)
  {
    hide Pieces, Text, Heeded, TornAt, IsPlain, CHUNKED, GZIP, Bare;
    GzipNames();
    PlainElement(CHUNKED);
    PlainElement(GZIP);
    OneElement(CodingHeader, CHUNKED);
    OneElement(CodingHeader, GZIP);
  }

  /** Transfer-Encoding: chunked and then Transfer-Encoding: gzip ends in gzip, and the message is taken for a
      chunked one. */
  lemma GzipStaysChunked(ps: Parser, t: Trace)
    requires Valid(ps) && ps.state.HeaderFieldStart? && ps.nread + 60 <= MAX_HEADER_SIZE
    requires !ps.flags.trailing && !ps.flags.contentLength && !ps.verb.CONNECT?
    ensures !LastIsChunked(GZIP)
    ensures var lines := TE_NAME + COLON + CHUNKED + CRLF + TE_NAME + COLON + GZIP + CRLF;
            var r := Run(ps, t, lines + CRLF);
            r.outcome.Going? && r.ps.state.ChunkSizeStart? && r.ps.flags.chunked
  {
    hide Run, Step, Valid, IsLine, FinishHeader, TeLines, LastHeard, LastIsChunked, CHUNKED, GZIP, TE_NAME, COLON, CRLF;
    TwoLines();
    Lengths();
    ReadBoth();
    var vs := CHUNKED_THEN_GZIP;
    TeLinesRun(ps, t, vs);
    assert vs[0] == CHUNKED;
    var r := Run(ps, t, TeLines(vs));
    var f := FinishHeader(r.ps).(state := HeaderFieldStart);
    FinishedValid(r.ps);
    ChunkedBegins(f, r.trace);
    CrFirst();
    FinishedRun(r.ps, r.trace, CRLF);
    RunConcat(ps, t, TeLines(vs), CRLF);
  }

  lemma CrFirst()
    ensures CRLF != [] && CRLF[0] == CR
  {
  }
}
