// Message framing as sections 3.3.3 and 4.1 of RFC 7230 have it, told on the callbacks alone: a
// reference automaton over traces, and the proof that every run of the parser is accepted by it.

module HttpFraming {
  import opened Words
  import opened HttpChars
  import opened HttpParser
  import opened HttpInvariant
  import opened HttpRun
  import opened HttpMarks

  /** What may be heard next. `trailer` tells the header lines after the last chunk from the others. */
  datatype Stage =
    | Between
    | Line
    | Name(trailer: bool)
    | Value(trailer: bool)
    | Fixed(left: nat)
    | ChunkGap
    | Chunk(left: nat)
    | TrailerStart
    | Ended
    | Broken

  /** What follows the end of the headers: nothing for CONNECT, else chunks, else the announced bytes. */
  function BodyStage(contentLength: nat, chunked: bool, isConnect: bool): Stage {
    if isConnect then Ended
    else if chunked then ChunkGap
    else if 0 < contentLength < ULLONG_MAX then Fixed(contentLength)
    else Ended
  }

  function Advance(q: Stage, e: Event): Stage {
    match e
    case Data(k, bytes) =>
      (match k
       case UrlData => if q.Line? then q else Broken
       case FieldData =>
         if q.Line? then Name(false) else if q.TrailerStart? then Name(true)
         else if q.Name? || q.Value? then Name(q.trailer) else Broken
       case ValueData => if q.Name? || q.Value? then Value(q.trailer) else Broken
       case BodyData =>
         if q.Fixed? && |bytes| <= q.left then Fixed(q.left - |bytes|)
         else if q.Chunk? && |bytes| <= q.left then Chunk(q.left - |bytes|)
         else Broken)
    case Note(n, length, chunked, isConnect) =>
      match n
      case MessageBegin => if q.Between? then Line else Broken
      case HeadersComplete =>
        if q.Line? || q == Value(false) then BodyStage(length, chunked, isConnect) else Broken
      case ChunkHeader => if !q.ChunkGap? then Broken else if length == 0 then TrailerStart else Chunk(length)
      case ChunkComplete =>
        if q == Chunk(0) then ChunkGap else if q.TrailerStart? || q == Value(true) then Ended else Broken
      case MessageComplete => if q.Ended? || q == Fixed(0) then Between else Broken
  }

  function StageOf(t: Trace): Stage {
    if t == [] then Between else Advance(StageOf(t[..|t| - 1]), t[|t| - 1])
  }

  /** Joining two data callbacks hides nothing from the automaton. */
  lemma StageOfEmit(t: Trace, e: Event)
    ensures StageOf(Emit(t, e)) == Advance(StageOf(t), e)
  {
    var u := Emit(t, e);
    if |u| == |t| {
      assert u[..|u| - 1] == t[..|t| - 1];
    } else {
      assert u[..|u| - 1] == t;
    }
  }

  // ---------------------------------------------------------------- the automaton follows the parser

  predicate StageFits(ps: Parser, q: Stage) {
    match ps.state
    case StartReq | Dead => q.Between?
    case HeaderFieldStart =>
      if ps.flags.trailing then q.TrailerStart? || q == Value(true) else q.Line? || q == Value(false)
    case HeadersAlmostDone =>
      if ps.flags.trailing then q.TrailerStart? || q == Value(true) else q.Line? || q == Value(false)
    case HeaderField | HeaderValueDiscardWs | HeaderValueDiscardWsAlmostDone | HeaderValueDiscardLws =>
      q == Name(ps.flags.trailing)
    case HeaderValueStart | HeaderValue | HeaderValueLws | HeaderAlmostDone => q == Value(ps.flags.trailing)
    case HeadersDone =>
      && q == BodyStage(ps.contentLength, ps.flags.chunked, ps.verb.CONNECT?)
      && (ps.verb.CONNECT? ==> ps.upgrade) && !ps.flags.trailing
    case ChunkSizeStart | ChunkSize | ChunkParameters | ChunkSizeAlmostDone => q.ChunkGap? && !ps.flags.trailing
    case ChunkData => q == Chunk(ps.contentLength) && !ps.flags.trailing
    case ChunkDataAlmostDone | ChunkDataDone => q == Chunk(0) && !ps.flags.trailing
    case BodyIdentity => q == Fixed(ps.contentLength)
    case MessageDone => q.Ended? || q == Fixed(0)
    case BodyIdentityEof => false
    case _ => q.Line? && !ps.flags.trailing
  }

  /** The stage, and the mark that is set, while the actions of a byte are played. */
  datatype Pace = Pace(q: Stage, open: Option<DataKind>)

  function PaceAfter(s: Pace, a: Act, ch: Byte): Pace {
    match a
    case Mark(k) => s.(open := Some(k))
    case Flush(k) => if s.open == Some(k) then Pace(Advance(s.q, Data(k, [])), None) else s
    case FlushThrough(k) => if s.open == Some(k) then Pace(Advance(s.q, Data(k, [ch])), None) else s
    case Notify(e) => s.(q := Advance(s.q, e))
  }

  function PaceAfterAll(s: Pace, acts: seq<Act>, ch: Byte): Pace
    decreases |acts|
  {
    if acts == [] then s else PaceAfterAll(PaceAfter(s, acts[0], ch), acts[1..], ch)
  }

  /** The same for the at most two actions of one turn. */
  function PaceAfterTurn(s: Pace, acts: seq<Act>, ch: Byte): Pace {
    if |acts| == 0 then s
    else if |acts| == 1 then PaceAfter(s, acts[0], ch)
    else PaceAfter(PaceAfter(s, acts[0], ch), acts[1], ch)
  }

  lemma PaceAfterTurnIsAll(s: Pace, acts: seq<Act>, ch: Byte)
    requires |acts| <= 2
    ensures PaceAfterAll(s, acts, ch) == PaceAfterTurn(s, acts, ch)
  {
    hide PaceAfter;
    if |acts| == 2 {
      assert acts[1..] == [acts[1]] && acts[1..][1..] == [];
      var once := PaceAfter(s, acts[0], ch);
      assert PaceAfterAll(once, [acts[1]], ch) == PaceAfter(once, acts[1], ch);
    } else if |acts| == 1 {
      assert acts[1..] == [];
    }
  }

  lemma {:induction false} PaceAfterConcat(s: Pace, a: seq<Act>, b: seq<Act>, ch: Byte)
    ensures PaceAfterAll(s, a + b, ch) == PaceAfterAll(PaceAfterAll(s, a, ch), b, ch)
    decreases |a|
  {
    if a == [] {
      assert a + b == b;
    } else {
      assert (a + b)[1..] == a[1..] + b;
      PaceAfterConcat(PaceAfter(s, a[0], ch), a[1..], b, ch);
    }
  }

  /** The stage once the byte has been delivered too. */
  function Settle(s: Pace, ch: Byte): Stage {
    match s.open
    case None => s.q
    case Some(k) => Advance(s.q, Data(k, [ch]))
  }

  predicate TurnFits(s: Pace, t: Turn, ch: Byte) {
    match t
    case Next(ps, acts) => |acts| <= 2 && StageFits(ps, Settle(PaceAfterTurn(s, acts, ch), ch))
    case Again(ps, acts) =>
      |acts| <= 2 && PaceAfterTurn(s, acts, ch).open.None? && StageFits(ps, PaceAfterTurn(s, acts, ch).q)
    case Exit(ps, acts) =>
      |acts| <= 2 && PaceAfterTurn(s, acts, ch).open.None? && StageFits(ps, PaceAfterTurn(s, acts, ch).q)
    case Fail(_) => true
  }

  function Entry(ps: Parser, q: Stage): Pace { Pace(q, OpenKind(ps.state)) }

  lemma UrlFits(ps: Parser, q: Stage, ch: Byte)
    requires StageFits(ps, q) && (UrlState(ps.state) || ps.state.ReqSpacesBeforeUrl?)
    ensures TurnFits(Entry(ps, q), DispatchRequestLine(ps, ch), ch)
  {
    hide ParseUrlChar, DispatchVersion, StageFits;
    UrlStates(ps.state, ch);
    UrlStates(ReqServerStart, ch);
    InRequestLine(ps, q);
    var t := DispatchRequestLine(ps, ch);
    if t.Next? {
      var s := Settle(PaceAfterTurn(Entry(ps, q), t.acts, ch), ch);
      InRequestLine(t.ps, s);
      if t.ps.state.HeaderFieldStart? { AtLineStart(t.ps, s); }
    }
  }

  lemma InRequestLine(ps: Parser, q: Stage)
    ensures PartOf(ps.state).RequestLine? && !ps.state.StartReq? && !ps.state.Dead? ==>
              (StageFits(ps, q) <==> q.Line? && !ps.flags.trailing)
  {
  }

  lemma StartFits(ps: Parser, q: Stage, ch: Byte)
    requires StageFits(ps, q) && (ps.state.ReqMethod? || ps.state.StartReq? || ps.state.Dead?)
    ensures TurnFits(Entry(ps, q), DispatchRequestLine(ps, ch), ch)
  {
    hide SwitchGuess, FirstGuess, MethodString, DispatchVersion;
  }

  lemma VersionTurn(ps: Parser, ch: Byte)
    requires VersionState(ps.state)
    ensures match DispatchVersion(ps, ch)
            case Next(next, acts) =>
              acts == [] && next.flags == ps.flags && (VersionState(next.state) || next.state.HeaderFieldStart?)
            case Again(_, _) => false
            case Exit(_, _) => false
            case Fail(_) => true
  {
  }

  lemma VersionFits(ps: Parser, q: Stage, ch: Byte)
    requires StageFits(ps, q) && VersionState(ps.state)
    ensures TurnFits(Entry(ps, q), DispatchVersion(ps, ch), ch)
  {
    hide DispatchVersion;
    VersionTurn(ps, ch);
  }

  lemma RequestLineFits(ps: Parser, q: Stage, ch: Byte)
    requires StageFits(ps, q) && PartOf(ps.state).RequestLine?
    ensures TurnFits(Entry(ps, q), DispatchRequestLine(ps, ch), ch)
  {
    hide TurnFits, StageFits, DispatchVersion;
    if UrlState(ps.state) || ps.state.ReqSpacesBeforeUrl? {
      UrlFits(ps, q, ch);
    } else if ps.state.ReqMethod? || ps.state.StartReq? || ps.state.Dead? {
      StartFits(ps, q, ch);
    } else {
      VersionFits(ps, q, ch);
    }
  }

  lemma FieldKeepsFlags(ps: Parser, c: Byte)
    ensures FieldStep(ps, c).Some? ==> FieldStep(ps, c).value.flags == ps.flags
  {
    hide MatchState, CONNECTION, PROXY_CONNECTION, CONTENT_LENGTH, TRANSFER_ENCODING, UPGRADE;
  }

  lemma FinishKeepsTrailing(ps: Parser)
    ensures FinishHeader(ps).flags.trailing == ps.flags.trailing
  {
    match ps.hstate
    case TeChunked | ConnKeepAlive | ConnClose | ConnUpgrade =>
    case _ =>
  }

  lemma DigitKeepsFlags(ps: Parser, ch: Byte)
    ensures ContentLengthDigit(ps, ch).Good? ==> ContentLengthDigit(ps, ch).ps.flags == ps.flags
  {
    hide Wrap64;
  }

  lemma OptionKeepsTrailing(ps: Parser)
    ensures ConnectionFlag(ps).flags.trailing == ps.flags.trailing
  {
  }

  lemma MatchKeepsFlags(ps: Parser, c: Byte)
    ensures forall name, miss, full :: Match(ps, name, c, miss, full).flags == ps.flags
  {
    hide MatchState;
  }

  lemma ValueKeepsTrailing(ps: Parser, ch: Byte)
    ensures ValueStep(ps, ch).Good? ==> ValueStep(ps, ch).ps.flags.trailing == ps.flags.trailing
  {
    hide Match, Lower, IsToken, ContentLengthDigit, ConnectionFlag, CHUNKED, KEEP_ALIVE, CLOSE, UPGRADE;
    MatchKeepsFlags(ps, Lower(ch));
    OptionKeepsTrailing(ps);
    DigitKeepsFlags(ps, ch);
    DigitKeepsFlags(ps.(hstate := ContentLengthNum), ch);
  }

  lemma FieldStartFits(ps: Parser, q: Stage, ch: Byte)
    requires StageFits(ps, q) && ps.state.HeaderFieldStart?
    ensures TurnFits(Entry(ps, q), DispatchFieldStart(ps, ch), ch)
  {
    hide Token, StageFits;
    AtLineStart(ps, q);
    AtLineStart(ps.(state := HeadersAlmostDone), q);
    var t := DispatchFieldStart(ps, ch);
    if t.Next? && t.ps.state.HeaderField? { NameBegins(ps, t.ps, q, ch); }
  }

  /** Between header lines. */
  lemma AtLineStart(ps: Parser, q: Stage)
    requires ps.state.HeaderFieldStart? || ps.state.HeadersAlmostDone?
    ensures StageFits(ps, q) <==>
            if ps.flags.trailing then q.TrailerStart? || q == Value(true) else q.Line? || q == Value(false)
  {
  }

  lemma NameBegins(ps: Parser, next: Parser, q: Stage, ch: Byte)
    requires StageFits(ps, q) && ps.state.HeaderFieldStart?
    requires next.state.HeaderField? && next.flags == ps.flags
    ensures StageFits(next, Advance(q, Data(FieldData, [ch])))
  {
  }

  lemma FieldFits(ps: Parser, q: Stage, ch: Byte)
    requires StageFits(ps, q) && ps.state.HeaderField?
    ensures TurnFits(Entry(ps, q), DispatchField(ps, ch), ch)
  {
    hide Token, FieldStep;
    FieldStepState(ps, Token(ch));
    FieldKeepsFlags(ps, Token(ch));
  }

  lemma ValueStartKeeps(ps: Parser, ch: Byte)
    ensures match DispatchValueStart(ps, ch)
            case Next(v, acts) =>
              v.state.HeaderValue? && v.flags.trailing == ps.flags.trailing && acts == [Mark(ValueData)]
            case Again(_, _) => false
            case Exit(_, _) => false
            case Fail(_) => true
  {
    hide Lower;
    match ps.hstate
    case Connection =>
    case ContentLength =>
    case _ =>
  }

  lemma ValueStartFits(ps: Parser, q: Stage, ch: Byte)
    requires q == Name(ps.flags.trailing) || q == Value(ps.flags.trailing)
    ensures TurnFits(Pace(q, None), DispatchValueStart(ps, ch), ch)
  {
    hide DispatchValueStart;
    ValueStartKeeps(ps, ch);
  }

  lemma ValueFits(ps: Parser, q: Stage, ch: Byte)
    requires q == Value(ps.flags.trailing) && ps.state.HeaderValue?
    ensures TurnFits(Pace(q, Some(ValueData)), DispatchValue(ps, ch), ch)
  {
    hide ValueStep, IsHeaderChar, StageFits;
    ValueStepState(ps, ch);
    ValueKeepsTrailing(ps, ch);
    InValueFits(ps, q);
    InValueFits(ps.(state := HeaderAlmostDone), Advance(q, Data(ValueData, [])));
    if IsHeaderChar(ch) && ValueStep(ps, ch).Good? {
      InValueFits(ValueStep(ps, ch).ps, Advance(q, Data(ValueData, [ch])));
    }
  }

  lemma InValueFits(ps: Parser, q: Stage)
    requires q == Value(ps.flags.trailing) && (ps.state.HeaderValue? || ps.state.HeaderAlmostDone?)
    ensures StageFits(ps, q)
  {
  }

  lemma AlmostDoneFits(ps: Parser, q: Stage, ch: Byte)
    requires StageFits(ps, q) && ps.state.HeadersAlmostDone?
    ensures TurnFits(Entry(ps, q), DispatchHeadersAlmostDone(ps, ch), ch)
  {
    hide StageFits;
    AtLineStart(ps, q);
    var t := DispatchHeadersAlmostDone(ps, ch);
    if t.Again? { EndFits(t.ps, PaceAfterTurn(Entry(ps, q), t.acts, ch).q); }
  }

  /** The states a message ends in. */
  lemma EndFits(ps: Parser, q: Stage)
    ensures ps.state.MessageDone? ==> (StageFits(ps, q) <==> q.Ended? || q == Fixed(0))
    ensures ps.state.StartReq? || ps.state.Dead? ==> (StageFits(ps, q) <==> q.Between?)
    ensures ps.state.HeadersDone? ==>
              (StageFits(ps, q) <==> q == BodyStage(ps.contentLength, ps.flags.chunked, ps.verb.CONNECT?)
                                     && (ps.verb.CONNECT? ==> ps.upgrade) && !ps.flags.trailing)
  {
  }

  /** The states of a body. */
  lemma BodyFits(ps: Parser, q: Stage)
    ensures PartOf(ps.state).ChunkHead? ==>
              (StageFits(ps, q) <==> q.ChunkGap? && !ps.flags.trailing)
    ensures ps.state.ChunkData? ==> (StageFits(ps, q) <==> q == Chunk(ps.contentLength) && !ps.flags.trailing)
    ensures ps.state.ChunkDataAlmostDone? || ps.state.ChunkDataDone? ==>
              (StageFits(ps, q) <==> q == Chunk(0) && !ps.flags.trailing)
    ensures ps.state.BodyIdentity? ==> (StageFits(ps, q) <==> q == Fixed(ps.contentLength))
    ensures ps.state.BodyIdentityEof? ==> !StageFits(ps, q)
  {
  }

  lemma DoneFits(ps: Parser, q: Stage, ch: Byte)
    requires ps.state.HeadersDone? && StageFits(ps, q) && !ps.flags.trailing && ps.contentLength <= ULLONG_MAX
    ensures TurnFits(Entry(ps, q), DispatchHeadersDone(ps, ch), ch)
  {
    hide ShouldKeepAlive, StageFits;
    EndFits(ps, q);
    var t := DispatchHeadersDone(ps, ch);
    if t.Next? || t.Exit? {
      var s := PaceAfterTurn(Entry(ps, q), t.acts, ch).q;
      EndFits(t.ps, s);
      BodyFits(t.ps, s);
    }
  }

  /** The end of a header line. */
  lemma LwsFits(ps: Parser, q: Stage, ch: Byte)
    requires StageFits(ps, q) && (ps.state.HeaderValueDiscardLws? || ps.state.HeaderValueLws?)
    ensures TurnFits(Entry(ps, q), DispatchHeaders(ps, ch), ch)
  {
    hide FinishHeader, StageFits;
    FinishKeepsTrailing(ps);
    InLine(ps, q);
    InLine(ps.(state := HeaderValueStart,
               hstate := if ps.hstate.ContentLengthNum? then ContentLengthWs else ps.hstate), q);
    InLine(ps.(state := HeaderValueDiscardWs), q);
    AtLineStart(FinishHeader(ps).(state := HeaderFieldStart), Value(ps.flags.trailing));
  }

  /** At the end of a line that belongs to a header. */
  lemma InLine(ps: Parser, q: Stage)
    ensures ps.state.HeaderValueDiscardLws? || ps.state.HeaderValueDiscardWs? ==>
              (StageFits(ps, q) <==> q == Name(ps.flags.trailing))
    ensures ps.state.HeaderValueLws? || ps.state.HeaderValueStart? ==>
              (StageFits(ps, q) <==> q == Value(ps.flags.trailing))
  {
  }

  lemma LineEndFits(ps: Parser, q: Stage, ch: Byte)
    requires StageFits(ps, q) && (ps.state.HeaderValueDiscardWsAlmostDone? || ps.state.HeaderAlmostDone?)
    ensures TurnFits(Entry(ps, q), DispatchHeaders(ps, ch), ch)
  {
  }

  lemma HeadersFits(ps: Parser, q: Stage, ch: Byte)
    requires Inv(ps) && StageFits(ps, q) && PartOf(ps.state).Headers?
    ensures TurnFits(Entry(ps, q), DispatchHeaders(ps, ch), ch)
  {
    hide DispatchFieldStart, DispatchField, DispatchValueStart, DispatchValue, DispatchHeadersAlmostDone,
      DispatchHeadersDone, FinishHeader, StateInv;
    match ps.state {
      case HeaderFieldStart => FieldStartFits(ps, q, ch);
      case HeaderField => FieldFits(ps, q, ch);
      case HeaderValue => ValueFits(ps, q, ch);
      case HeadersAlmostDone => AlmostDoneFits(ps, q, ch);
      case HeadersDone => DoneFits(ps, q, ch);
      case HeaderValueStart | HeaderValueDiscardWs => ValueStartFits(ps, q, ch);
      case HeaderValueDiscardLws | HeaderValueLws => LwsFits(ps, q, ch);
      case HeaderValueDiscardWsAlmostDone | HeaderAlmostDone => LineEndFits(ps, q, ch);
    }
  }

  lemma ChunkSizeFits(ps: Parser, q: Stage, ch: Byte)
    requires StageFits(ps, q) && (ps.state.ChunkSizeStart? || ps.state.ChunkSize? || ps.state.ChunkParameters?)
    ensures TurnFits(Entry(ps, q), DispatchChunkHead(ps, ch), ch)
  {
    hide Unhex, Wrap64, StageFits;
    BodyFits(ps, q);
    var t := DispatchChunkHead(ps, ch);
    if !t.Fail? { BodyFits(t.ps, q); }
  }

  lemma ChunkSizeDoneFits(ps: Parser, q: Stage, ch: Byte)
    requires StageFits(ps, q) && ps.state.ChunkSizeAlmostDone?
    ensures TurnFits(Entry(ps, q), DispatchChunkHead(ps, ch), ch)
  {
    hide StageFits;
    BodyFits(ps, q);
    var t := DispatchChunkHead(ps, ch);
    if t.Next? {
      var s := PaceAfterTurn(Entry(ps, q), t.acts, ch).q;
      BodyFits(t.ps, s);
      if t.ps.state.HeaderFieldStart? { AtLineStart(t.ps, s); }
    }
  }

  lemma IdentityFits(ps: Parser, q: Stage, ch: Byte)
    requires StageFits(ps, q) && (ps.state.BodyIdentity? || ps.state.BodyIdentityEof? || ps.state.MessageDone?)
    ensures TurnFits(Entry(ps, q), DispatchBody(ps, ch), ch)
  {
    hide ShouldKeepAlive, StageFits;
    EndFits(ps, q);
    BodyFits(ps, q);
    var t := DispatchBody(ps, ch);
    if !t.Fail? {
      var s := PaceAfterTurn(Entry(ps, q), t.acts, ch);
      EndFits(t.ps, s.q);
      BodyFits(t.ps, Settle(s, ch));
    }
  }

  lemma ChunkFits(ps: Parser, q: Stage, ch: Byte)
    requires StageFits(ps, q) && (ps.state.ChunkData? || ps.state.ChunkDataAlmostDone? || ps.state.ChunkDataDone?)
    ensures TurnFits(Entry(ps, q), DispatchBody(ps, ch), ch)
  {
    hide StageFits;
    BodyFits(ps, q);
    var t := DispatchBody(ps, ch);
    if !t.Fail? { BodyFits(t.ps, Settle(PaceAfterTurn(Entry(ps, q), t.acts, ch), ch)); }
  }

  lemma DispatchFits(ps: Parser, q: Stage, ch: Byte)
    requires Inv(ps) && StageFits(ps, q)
    ensures TurnFits(Entry(ps, q), Dispatch(ps, ch), ch)
  {
    hide DispatchRequestLine, DispatchHeaders, DispatchChunkHead, DispatchBody, TurnFits, StageFits, Inv;
    match PartOf(ps.state) {
      case RequestLine => RequestLineFits(ps, q, ch);
      case Headers => HeadersFits(ps, q, ch);
      case ChunkHead =>
        if ps.state.ChunkSizeAlmostDone? { ChunkSizeDoneFits(ps, q, ch); } else { ChunkSizeFits(ps, q, ch); }
      case Content =>
        if ps.state.ChunkData? || ps.state.ChunkDataAlmostDone? || ps.state.ChunkDataDone? {
          ChunkFits(ps, q, ch);
        } else {
          IdentityFits(ps, q, ch);
        }
    }
  }

  /** All turns of a byte together. */
  predicate ChainFits(s: Pace, fed: Fed, ch: Byte) {
    var last := PaceAfterAll(s, fed.acts, ch);
    match fed
    case Refused(_, _) => !last.q.Broken?
    case Fed(ps, _, exit) =>
      if exit then last.open.None? && StageFits(ps, last.q) else StageFits(ps, Settle(last, ch))
  }

  lemma RefusedAtOnce(s: Pace, ps: Parser, e: Errno, ch: Byte)
    requires StageFits(ps, s.q)
    ensures ChainFits(s, Refused(e, []), ch)
  {
    hide StageFits;
    FitsNotBroken(ps, s.q);
  }

  lemma {:induction false} ChainKeepsFit(ps: Parser, q: Stage, ch: Byte)
    requires Counted(ps) && StageFits(ps, q)
    ensures ChainFits(Entry(ps, q), Chain(ps, ch), ch)
    decreases Rank(ps.state)
  {
    hide Dispatch, Inv, StageFits, PaceAfterAll, PaceAfterTurn, OpenKind;
    DispatchFits(ps, q, ch);
    DispatchOk(ps, ch);
    AgainLowersRank(ps, ch);
    DispatchDiscipline(ps, ch);
    var t := Dispatch(ps, ch);
    if t.Fail? {
      RefusedAtOnce(Entry(ps, q), ps, t.errno, ch);
    } else {
      PaceAfterTurnIsAll(Entry(ps, q), t.acts, ch);
    }
    if t.Again? {
      var mid := PaceAfterTurn(Entry(ps, q), t.acts, ch).q;
      ClosedIsNone(t.ps.state);
      ChainKeepsFit(t.ps, mid, ch);
      PaceAfterConcat(Entry(ps, q), t.acts, Chain(t.ps, ch).acts, ch);
    }
  }

  lemma ClosedIsNone(s: State)
    ensures PenOf(s).Closed? ==> OpenKind(s).None?
  {
  }

  // ---------------------------------------------------------------- runs

  /** The marks of a single-byte call, against the pace. */
  predicate Paced(s: Pace, marks: Marks, t: Trace) {
    && StageOf(t) == s.q
    && marks == match s.open case None => map[] case Some(k) => map[k := 0]
  }

  lemma PlayOnePaced(s: Pace, a: Act, marks: Marks, t: Trace, ch: Byte)
    requires Paced(s, marks, t) && (s.open.Some? && a.Mark? ==> s.open == Some(a.kind))
    requires forall k <- marks :: marks[k] <= 0
    ensures var (m, u) := PlayOne(a, marks, t, [ch], 0);
            Paced(PaceAfter(s, a, ch), m, u)
  {
    hide StageOf, Emit, Advance;
    var one := [ch];
    assert one[0..0] == [] && one[0..1] == one;
    match a
    case Mark(k) =>
    case Flush(k) =>
      if k in marks { assert marks - {k} == map[]; StageOfEmit(t, Data(k, [])); }
    case FlushThrough(k) =>
      if k in marks { assert marks - {k} == map[]; StageOfEmit(t, Data(k, one)); }
    case Notify(e) => StageOfEmit(t, e);
  }

  lemma {:induction false} PlayPaced(s: Pace, pen: Pen, acts: seq<Act>, marks: Marks, t: Trace, ch: Byte)
    requires Paced(s, marks, t) && PenAfterAll(pen, acts).Some?
    requires s.open.Some? ==> pen == Open(s.open.value)
    requires forall k <- marks :: marks[k] <= 0
    ensures var (m, u) := Play(acts, marks, t, [ch], 0);
            Paced(PaceAfterAll(s, acts, ch), m, u)
    decreases |acts|
  {
    hide StageOf, Emit, Advance, PlayOne;
    if acts != [] {
      var (m, u) := PlayOne(acts[0], marks, t, [ch], 0);
      PlayOnePaced(s, acts[0], marks, t, ch);
      if |acts| == 1 { assert acts[1..] == []; }
      PlayPaced(PaceAfter(s, acts[0], ch), PenAfter(pen, acts[0]).value, acts[1..], m, u, ch);
    }
  }

  lemma FlushPaced(s: Pace, marks: Marks, t: Trace, ch: Byte)
    requires Paced(s, marks, t) && forall k <- marks :: marks[k] <= 0
    ensures StageOf(FlushAll(marks, t, [ch])) == Settle(s, ch)
  {
    hide StageOf, Emit, Advance;
    assert [ch][0..] == [ch];
    hide FlushAll;
    FlushAllOne(BodyData, t, ch);
    if s.open.Some? {
      FlushAllOne(s.open.value, t, ch);
      StageOfEmit(t, Data(s.open.value, [ch]));
    }
  }

  lemma FeedFits(ps: Parser, q: Stage, ch: Byte)
    requires Valid(ps) && StageFits(ps, q)
    ensures ChainFits(Entry(ps, q), Feed(ps, ch), ch)
  {
    hide Chain, PaceAfterAll, NameState, ValueState, MethodState, OpenKind, BodyStage, ChainFits, StageFits;
    if ParsingHeader(ps.state) {
      RefusedAtOnce(Entry(ps, q), ps, HeaderOverflow, ch);
      if ps.nread + 1 <= MAX_HEADER_SIZE {
        RecountFits(ps, q, ps.nread + 1);
        ChainKeepsFit(ps.(nread := ps.nread + 1), q, ch);
      }
    } else {
      ChainKeepsFit(ps, q, ch);
    }
  }

  lemma RecountFits(ps: Parser, q: Stage, n: nat)
    ensures StageFits(ps.(nread := n), q) == StageFits(ps, q)
  {
  }

  lemma EntryPaced(ps: Parser, t: Trace)
    ensures Paced(Entry(ps, StageOf(t)), EntryMarks(ps.state), t)
    ensures forall k <- EntryMarks(ps.state) :: EntryMarks(ps.state)[k] <= 0
    ensures OpenKind(ps.state).Some? ==> PenOf(ps.state) == Open(OpenKind(ps.state).value)
  {
  }

  /** The callbacks are well framed, and as the parser expects them unless it has failed. */
  predicate Framed(r: Ran) {
    && !StageOf(r.trace).Broken?
    && (!r.outcome.Failed? ==> Valid(r.ps) && StageFits(r.ps, StageOf(r.trace)))
  }

  /** One more byte leaves the callbacks well framed, also if it is refused. */
  lemma StepFramed(ps: Parser, t: Trace, ch: Byte)
    requires Valid(ps) && StageFits(ps, StageOf(t))
    ensures Framed(Step(ps, t, ch))
  {
    hide Feed, Play, FlushAll, StageOf, StageFits, Valid, PenAfterAll, PaceAfterAll, OpenKind, Paced, EntryMarks, PenOf;
    FeedOk(ps, ch);
    FeedFits(ps, StageOf(t), ch);
    FeedDiscipline(ps, ch);
    EntryPaced(ps, t);
    var fed := Feed(ps, ch);
    var start := Entry(ps, StageOf(t));
    var (m, u) := Play(fed.acts, EntryMarks(ps.state), t, [ch], 0);
    PlayPaced(start, PenOf(ps.state), fed.acts, EntryMarks(ps.state), t, ch);
    PacedStage(PaceAfterAll(start, fed.acts, ch), m, u);
    FlushPaced(PaceAfterAll(start, fed.acts, ch), m, u, ch);
    var s := Step(ps, t, ch);
    if !s.outcome.Failed? { FitsNotBroken(s.ps, StageOf(s.trace)); }
  }

  lemma PacedStage(s: Pace, marks: Marks, t: Trace)
    requires Paced(s, marks, t)
    ensures StageOf(t) == s.q
  {
  }

  /** Over every run, also one that ends in an error, the reference automaton accepts the callbacks. */
  lemma {:induction false} RunFramed(ps: Parser, t: Trace, data: seq<Byte>)
    requires Valid(ps) && StageFits(ps, StageOf(t))
    ensures Framed(Run(ps, t, data))
    decreases |data|
  {
    hide Step, StageOf, StageFits, StateInv;
    FitsNotBroken(ps, StageOf(t));
    if data != [] {
      StepFramed(ps, t, data[0]);
      var s := Step(ps, t, data[0]);
      if s.outcome.Going? { RunFramed(s.ps, s.trace, data[1..]); }
    }
  }

  lemma FitsNotBroken(ps: Parser, q: Stage)
    requires StageFits(ps, q)
    ensures !q.Broken?
  {
  }

  // ---------------------------------------------------------------- what acceptance means

  /** The bytes delivered through on_body. */
  function BodyBytes(t: Trace): nat {
    if t == [] then 0
    else BodyBytes(t[..|t| - 1]) + match t[|t| - 1]
                                   case Data(BodyData, bytes) => |bytes|
                                   case _ => 0
  }

  /** The sum of the sizes announced by on_chunk_header. */
  function ChunkSum(t: Trace): nat {
    if t == [] then 0
    else ChunkSum(t[..|t| - 1]) + match t[|t| - 1]
                                  case Note(ChunkHeader, n, _, _) => n
                                  case _ => 0
  }

  predicate Is(e: Event, n: NoteKind) { e.Note? && e.note == n }

  predicate InsideOneMessage(b: Trace) {
    forall i :: 0 <= i < |b| ==> !Is(b[i], MessageBegin) && !Is(b[i], MessageComplete) && !Is(b[i], HeadersComplete)
  }

  /** The automaton does not recover from a bad trace. */
  lemma {:induction false} StageOfPrefix(a: Trace, b: Trace)
    requires !StageOf(a + b).Broken?
    ensures !StageOf(a).Broken?
    decreases |b|
  {
    if b == [] {
      assert a + b == a;
    } else {
      assert (a + b)[..|a + b| - 1] == a + b[..|b| - 1];
      StageOfPrefix(a, b[..|b| - 1]);
    }
  }

  /** Where the automaton is inside a message, from what has been announced and delivered. */
  lemma {:induction false} StageInBody(a: Trace, h: Event, b: Trace)
    requires Is(h, HeadersComplete) && InsideOneMessage(b) && !StageOf(a + [h] + b).Broken?
    ensures var q := StageOf(a + [h] + b);
            match BodyStage(h.contentLength, h.chunked, h.isConnect)
            case Fixed(n) => q.Fixed? && BodyBytes(b) + q.left == n
            case ChunkGap =>
              || (q.Chunk? && BodyBytes(b) + q.left == ChunkSum(b))
              || ((q.ChunkGap? || q.TrailerStart? || q == Name(true) || q == Value(true) || q.Ended?)
                  && BodyBytes(b) == ChunkSum(b))
            case _ => q.Ended? && BodyBytes(b) == 0
    decreases |b|
  {
    if b == [] {
      assert a + [h] + b == a + [h] && (a + [h])[..|a|] == a;
      assert StageOf(a + [h]) == Advance(StageOf(a), h);
    } else {
      var c := b[..|b| - 1];
      assert (a + [h] + b)[..|a + [h] + b| - 1] == a + [h] + c;
      assert StageOf(a + [h] + b) == Advance(StageOf(a + [h] + c), b[|b| - 1]);
      StageInBody(a, h, c);
    }
  }

  /** Content-Length framing and chunked framing: when a message completes, on_body has delivered exactly
      the announced number of bytes, or exactly the sum of the chunk sizes, or nothing. */
  lemma CompleteBody(a: Trace, h: Event, b: Trace, done: Event, rest: Trace)
    requires Is(h, HeadersComplete) && InsideOneMessage(b) && Is(done, MessageComplete)
    requires !StageOf(a + [h] + b + [done] + rest).Broken?
    ensures BodyBytes(b) == if h.isConnect then 0
                            else if h.chunked then ChunkSum(b)
                            else if h.contentLength < ULLONG_MAX then h.contentLength
                            else 0
    ensures StageOf(a + [h] + b + [done]).Between?
  {
    hide StageOf, BodyBytes, ChunkSum;
    StageOfPrefix(a + [h] + b + [done], rest);
    StageOfPrefix(a + [h] + b, [done]);
    StageInBody(a, h, b);
    StageOfSnoc(a + [h] + b, done);
  }

  lemma StageOfSnoc(t: Trace, e: Event)
    ensures StageOf(t + [e]) == Advance(StageOf(t), e)
  {
    assert (t + [e])[..|t|] == t;
  }

  /** Every message that any input drives a fresh parser to complete has been framed as announced. */
  lemma EveryMessageIsFramed(allow: bool, data: seq<Byte>, a: Trace, h: Event, b: Trace, done: Event, rest: Trace)
    requires Run(Init(allow), [], data).trace == a + [h] + b + [done] + rest
    requires Is(h, HeadersComplete) && InsideOneMessage(b) && Is(done, MessageComplete)
    ensures h.isConnect ==> BodyBytes(b) == 0
    ensures !h.isConnect && h.chunked ==> BodyBytes(b) == ChunkSum(b)
    ensures !h.isConnect && !h.chunked && h.contentLength < ULLONG_MAX ==> BodyBytes(b) == h.contentLength
    ensures !h.isConnect && !h.chunked && h.contentLength >= ULLONG_MAX ==> BodyBytes(b) == 0
  {
    hide Run, StageOf, BodyBytes, ChunkSum, StageFits, StateInv;
    InitFramed(allow);
    RunFramed(Init(allow), [], data);
    CompleteBody(a, h, b, done, rest);
  }

  lemma InitFramed(allow: bool)
    ensures Valid(Init(allow)) && StageFits(Init(allow), StageOf([]))
  {
  }

  /** Messages begin and complete in turn: between two completions there is exactly one beginning. */
  lemma CompletesOnce(allow: bool, data: seq<Byte>, a: Trace, done: Event, b: Trace, again: Event, rest: Trace)
    requires Run(Init(allow), [], data).trace == a + [done] + b + [again] + rest
    requires Is(done, MessageComplete) && Is(again, MessageComplete)
    requires forall i :: 0 <= i < |b| ==> !Is(b[i], MessageComplete)
    ensures b != [] && Is(b[0], MessageBegin) && forall i :: 0 < i < |b| ==> !Is(b[i], MessageBegin)
  {
    hide Run, StageOf, StageFits, StateInv;
    InitFramed(allow);
    RunFramed(Init(allow), [], data);
    StageOfPrefix(a + [done] + b + [again], rest);
    StageOfPrefix(a + [done] + b, [again]);
    StageOfPrefix(a + [done], b);
    StageOfSnoc(a, done);
    StageOfSnoc(a + [done] + b, again);
    assert StageOf(a + [done]).Between?;
    OneBeginning(a + [done], b);
  }

  lemma {:induction false} OneBeginning(a: Trace, b: Trace)
    requires StageOf(a).Between? && !StageOf(a + b).Broken? && forall i :: 0 <= i < |b| ==> !Is(b[i], MessageComplete)
    ensures if b == [] then StageOf(a + b).Between?
            else !StageOf(a + b).Between? && Is(b[0], MessageBegin)
                 && forall i :: 0 < i < |b| ==> !Is(b[i], MessageBegin)
    decreases |b|
  {
    hide StageOf;
    if b == [] {
      assert a + b == a;
    } else {
      var c := b[..|b| - 1];
      var e := b[|b| - 1];
      assert a + b == (a + c) + [e];
      StageOfSnoc(a + c, e);
      StageOfPrefix(a + c, [e]);
      OneBeginning(a, c);
      assert forall i :: 0 <= i < |c| ==> c[i] == b[i];
    }
  }

  // ---------------------------------------------------------------- the bytes themselves

  lemma BodyStep(ps: Parser, t: Trace, ch: Byte)
    requires Valid(ps) && (ps.state.BodyIdentity? || ps.state.ChunkData?) && ps.contentLength > 1
    ensures Step(ps, t, ch)
         == Ran(ps.(contentLength := ps.contentLength - 1), Emit(t, Data(BodyData, [ch])), 1, Going)
  {
    hide Emit, FlushAll, NameState, ValueState, MethodState;
    var acts := [Mark(BodyData)];
    assert acts[1..] == [];
    assert Feed(ps, ch) == Fed(ps.(contentLength := ps.contentLength - 1), acts, false);
    assert Play(acts, map[], t, [ch], 0) == (map[BodyData := 0], t);
    FlushAllOne(BodyData, t, ch);
  }

  /** Short of its end, a body is handed on as it came in. */
  lemma {:induction false} BodyInOrder(ps: Parser, t: Trace, data: seq<Byte>)
    requires Valid(ps) && (ps.state.BodyIdentity? || ps.state.ChunkData?) && 0 < |data| < ps.contentLength
    ensures Run(ps, t, data)
         == Ran(ps.(contentLength := ps.contentLength - |data|), Emit(t, Data(BodyData, data)), |data|, Going)
    decreases |data|
  {
    hide Emit, Step, Run, NameState, ValueState, MethodState;
    var next := ps.(contentLength := ps.contentLength - 1);
    var u := Emit(t, Data(BodyData, [data[0]]));
    BodyStep(ps, t, data[0]);
    RunOne(ps, t, data[0]);
    if |data| > 1 {
      BodyInOrder(next, u, data[1..]);
      EmitJoins(t, BodyData, [data[0]], data[1..]);
      RunConcat(ps, t, [data[0]], data[1..]);
      assert [data[0]] + data[1..] == data;
    } else {
      assert data == [data[0]];
    }
  }

  lemma LastChunkStep(ps: Parser, t: Trace, ch: Byte)
    requires Valid(ps) && ps.state.ChunkData? && ps.contentLength == 1
    ensures Step(ps, t, ch)
         == Ran(ps.(contentLength := 0, state := ChunkDataAlmostDone), Emit(t, Data(BodyData, [ch])), 1, Going)
  {
    hide Emit, FlushAll, NameState, ValueState, MethodState;
    var acts := [Mark(BodyData)];
    assert acts[1..] == [];
    assert Feed(ps, ch) == Fed(ps.(contentLength := 0, state := ChunkDataAlmostDone), acts, false);
    assert Play(acts, map[], t, [ch], 0) == (map[BodyData := 0], t);
    FlushAllOne(BodyData, t, ch);
  }

  /** A chunk's data: its announced bytes, all of them and in order. */
  lemma WholeChunk(ps: Parser, t: Trace, data: seq<Byte>)
    requires Valid(ps) && ps.state.ChunkData? && |data| == ps.contentLength
    ensures Run(ps, t, data)
         == Ran(ps.(contentLength := 0, state := ChunkDataAlmostDone), Emit(t, Data(BodyData, data)), |data|, Going)
  {
    hide Emit, Step, Run, NameState, ValueState, MethodState;
    var n := |data|;
    var last := data[n - 1];
    assert data == data[..n - 1] + [last];
    if n == 1 {
      assert data == [last];
      LastChunkStep(ps, t, last);
      RunOne(ps, t, last);
    } else {
      BodyInOrder(ps, t, data[..n - 1]);
      RunConcat(ps, t, data[..n - 1], [last]);
      var next := ps.(contentLength := 1);
      var u := Emit(t, Data(BodyData, data[..n - 1]));
      LastChunkStep(next, u, last);
      RunOne(next, u, last);
      EmitJoins(t, BodyData, data[..n - 1], [last]);
    }
  }

  lemma MessageEnds(mid: Parser, ch: Byte)
    requires mid.state.MessageDone?
    ensures var done := mid.(state := NewMessage(mid));
            Chain(mid, ch) == Fed(done, [Notice(done, MessageComplete)], mid.upgrade)
  {
    hide NewMessage;
  }

  lemma LastBodyStep(ps: Parser, t: Trace, ch: Byte)
    requires Valid(ps) && ps.state.BodyIdentity? && ps.contentLength == 1
    ensures var done := ps.(contentLength := 0, state := NewMessage(ps));
            Step(ps, t, ch) == Ran(done, Emit(Emit(t, Data(BodyData, [ch])), Notice(done, MessageComplete).event), 1,
                                   if ps.upgrade then Upgraded else Going)
  {
    hide Emit, FlushAll, Feed, Chain, StateInv;
    var mid := ps.(contentLength := 0, state := MessageDone);
    var note := Notice(ps.(contentLength := 0, state := NewMessage(ps)), MessageComplete);
    assert NewMessage(mid) == NewMessage(ps);
    hide NewMessage;
    LastBodyFeed(ps, ch);
    MessageEnds(mid, ch);
    assert [Mark(BodyData), FlushThrough(BodyData)] + [note] == [Mark(BodyData), FlushThrough(BodyData), note];
    PlayLastByte(t, note, ch);
    FlushAllOne(BodyData, Emit(Emit(t, Data(BodyData, [ch])), note.event), ch);
  }

  lemma PlayLastByte(t: Trace, note: Act, ch: Byte)
    requires note.Notify?
    ensures Play([Mark(BodyData), FlushThrough(BodyData), note], map[], t, [ch], 0)
         == (map[], Emit(Emit(t, Data(BodyData, [ch])), note.event))
  {
    hide Emit;
    var acts := [Mark(BodyData), FlushThrough(BodyData), note];
    assert acts[1..] == [FlushThrough(BodyData), note] && acts[1..][1..] == [note] && acts[1..][1..][1..] == [];
    assert [ch][0..1] == [ch];
    var marks: Marks := map[BodyData := 0];
    assert marks - {BodyData} == map[];
    var u := Emit(t, Data(BodyData, [ch]));
    assert Play([note], map[], u, [ch], 0) == (map[], Emit(u, note.event));
    assert Play([FlushThrough(BodyData), note], marks, t, [ch], 0) == Play([note], map[], u, [ch], 0);
  }

  /** A body of known length: its announced bytes, all of them and in order, then the completion. */
  lemma WholeBody(ps: Parser, t: Trace, data: seq<Byte>)
    requires Valid(ps) && ps.state.BodyIdentity? && |data| == ps.contentLength
    ensures var done := ps.(contentLength := 0, state := NewMessage(ps));
            Run(ps, t, data) == Ran(done, Emit(Emit(t, Data(BodyData, data)), Notice(done, MessageComplete).event),
                                    |data|, if ps.upgrade then Upgraded else Going)
  {
    hide Emit, Step, Run, NameState, ValueState, MethodState;
    var n := |data|;
    var last := data[n - 1];
    assert data == data[..n - 1] + [last];
    if n == 1 {
      assert data == [last];
      LastBodyStep(ps, t, last);
      RunOne(ps, t, last);
    } else {
      BodyInOrder(ps, t, data[..n - 1]);
      RunConcat(ps, t, data[..n - 1], [last]);
      var next := ps.(contentLength := 1);
      var u := Emit(t, Data(BodyData, data[..n - 1]));
      LastBodyStep(next, u, last);
      RunOne(next, u, last);
      EmitJoins(t, BodyData, data[..n - 1], [last]);
    }
  }
}
