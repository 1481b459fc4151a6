// What holds of every reachable request parser, and that the asserts of the program follow from it.

module HttpInvariant {
  import opened Words
  import opened HttpChars
  import opened HttpParser

  /** `index` points inside `name`, with at least one byte still to match. */
  predicate Inside(index: nat, name: string) { index + 1 < |name| }

  /** The header states a header name can be in, with the position of the matcher. */
  predicate NameState(h: HState, index: nat) {
    match h
    case General | Connection | ContentLength | TransferEncoding | Upgrade => true
    case MatchC => index == 0
    case MatchCO => index == 1
    case MatchCON => index == 2
    case MatchingConnection => Inside(index, CONNECTION)
    case MatchingProxyConnection => Inside(index, PROXY_CONNECTION)
    case MatchingContentLength => Inside(index, CONTENT_LENGTH)
    case MatchingTransferEncoding => Inside(index, TRANSFER_ENCODING)
    case MatchingUpgrade => Inside(index, UPGRADE)
    case _ => false
  }

  /** The header states a header value can be in. */
  predicate ValueState(h: HState, index: nat, hasLength: bool) {
    match h
    case General | TeToken | ConnToken | TeChunked | ConnKeepAlive | ConnClose | ConnUpgrade => true
    case TeTokenStart | ConnTokenStart => index == 0
    case ContentLengthNum | ContentLengthWs => hasLength
    case MatchingTeChunked => Inside(index, CHUNKED)
    case MatchingConnKeepAlive => Inside(index, KEEP_ALIVE)
    case MatchingConnClose => Inside(index, CLOSE)
    case MatchingConnUpgrade => Inside(index, UPGRADE)
    case _ => false
  }

  predicate MethodState(index: nat, m: Method) { 1 <= index <= |MethodString(m)| }

  predicate StateInv(ps: Parser) {
    match ps.state
    case ReqMethod => MethodState(ps.index, ps.verb)
    case HeaderField | HeaderValueDiscardWsAlmostDone => NameState(ps.hstate, ps.index)
    case HeaderValueDiscardWs | HeaderValueDiscardLws => NameState(ps.hstate, ps.index)
    case HeaderValue | HeaderAlmostDone | HeaderValueLws => ValueState(ps.hstate, ps.index, ps.flags.contentLength)
    case HeaderValueStart => ValueState(ps.hstate, ps.index, ps.flags.contentLength) && !ps.hstate.ContentLengthNum?
    case ChunkSizeStart | ChunkDataDone => ps.flags.chunked
    case ChunkSize | ChunkParameters | ChunkSizeAlmostDone => ps.flags.chunked && ps.contentLength < ULLONG_MAX
    case ChunkData => ps.flags.chunked && 0 < ps.contentLength < ULLONG_MAX
    case ChunkDataAlmostDone => ps.flags.chunked && ps.contentLength == 0
    case BodyIdentity => 0 < ps.contentLength < ULLONG_MAX
    case BodyIdentityEof => false
    case _ => true
  }

  /** Holds in every state, also in those that a byte only passes through. */
  predicate Inv(ps: Parser) {
    && ps.errno == Ok
    && ps.index < 32
    && ps.contentLength <= ULLONG_MAX
    && (ps.flags.contentLength ==> ps.contentLength < ULLONG_MAX)
    && StateInv(ps)
  }

  /** States a parser is never left in: the byte that reaches them is dispatched on. */
  predicate Passing(s: State) { s.HeadersDone? || s.MessageDone? || s.HeaderValueStart? }

  /** Between two bytes: the header count is within its limit, and a chunk-size line starts counting at 0. */
  predicate Valid(ps: Parser) {
    && Inv(ps)
    && ps.nread <= MAX_HEADER_SIZE
    && !Passing(ps.state)
    && (ps.state.ChunkSizeStart? ==> ps.nread == 0)
  }

  /** When a byte is dispatched: it has been counted. */
  predicate Counted(ps: Parser) {
    && Inv(ps)
    && ps.nread <= MAX_HEADER_SIZE
    && (ps.state.ChunkSizeStart? ==> ps.nread == 1)
  }

  lemma InitValid(allow: bool)
    ensures Valid(Init(allow))
  {
  }

  /** A turn keeps the invariant and breaks no assert. */
  predicate TurnOk(t: Turn) {
    match t
    case Next(ps, _) => Valid(ps)
    case Exit(ps, _) => Valid(ps)
    case Again(ps, _) => Counted(ps)
    case Fail(e) => e != AssertionViolated && e != Ok
  }

  /** Every method name has 3 to 11 letters. */
  lemma MethodLengths(m: Method)
    ensures 3 <= |MethodString(m)| <= 11
  {
  }

  lemma SwitchStaysInside(m: Method, index: nat, c: Byte)
    requires SwitchGuess(m, index, c).Some?
    ensures index < |MethodString(m)|
    ensures index < |MethodString(SwitchGuess(m, index, c).value)|
  {
    hide MethodString;
    MethodLengths(m);
    MethodLengths(SwitchGuess(m, index, c).value);
    assert |MethodString(PROPFIND)| == 8 && |MethodString(PROPPATCH)| == 9 && |MethodString(UNLINK)| == 6
        && |MethodString(MKCOL)| == 5 && |MethodString(MKCALENDAR)| == 10 && |MethodString(UNLOCK)| == 6 by {
      LongMethods();
    }
  }

  lemma LongMethods()
    ensures |MethodString(PROPFIND)| == 8 && |MethodString(PROPPATCH)| == 9 && |MethodString(UNLINK)| == 6
    ensures |MethodString(MKCOL)| == 5 && |MethodString(MKCALENDAR)| == 10 && |MethodString(UNLOCK)| == 6
  {
  }

  lemma MethodOk(ps: Parser, ch: Byte)
    requires Counted(ps) && ps.state.ReqMethod?
    ensures TurnOk(DispatchMethod(ps, ch))
  {
    hide MethodString, SwitchGuess;
    MethodLengths(ps.verb);
    if SwitchGuess(ps.verb, ps.index, ch).Some? {
      SwitchStaysInside(ps.verb, ps.index, ch);
      MethodLengths(SwitchGuess(ps.verb, ps.index, ch).value);
    }
  }

  /** The states of the request line after its method, and the start of a header: nothing to keep. */
  predicate Free(s: State) {
    (PartOf(s).RequestLine? && !s.ReqMethod?) || s.HeaderFieldStart? || s.HeadersAlmostDone?
  }

  lemma FreeValid(ps: Parser)
    requires ps.errno == Ok && ps.index < 32 && ps.contentLength <= ULLONG_MAX && Free(ps.state)
    requires (ps.flags.contentLength ==> ps.contentLength < ULLONG_MAX) && ps.nread <= MAX_HEADER_SIZE
    ensures Valid(ps) && Counted(ps)
  {
    hide MethodState, NameState, ValueState;
  }

  lemma StartOk(ps: Parser, ch: Byte)
    requires Counted(ps) && (ps.state.StartReq? || ps.state.Dead?)
    ensures TurnOk(DispatchRequestLine(ps, ch))
  {
    hide MethodString, DispatchVersion, Lower, NameState, ValueState;
    if ps.state.StartReq? && FirstGuess(ch).Some? { MethodLengths(FirstGuess(ch).value); }
  }

  lemma UrlOk(ps: Parser, ch: Byte)
    requires Counted(ps) && (ps.state.ReqSpacesBeforeUrl? || UrlState(ps.state))
    ensures TurnOk(DispatchRequestLine(ps, ch))
  {
    hide DispatchRequestLine, StateInv, Valid, Free, UrlState;
    FreeStates();
    UrlMoves(ps, ch);
    var t := DispatchRequestLine(ps, ch);
    if t.Next? { FreeValid(t.ps); }
  }

  lemma FreeStates()
    ensures forall s :: UrlState(s) ==> Free(s)
    ensures Free(ReqSpacesBeforeUrl) && Free(ReqHttpStart) && Free(ReqLineAlmostDone) && Free(HeaderFieldStart)
  {
  }

  /** What a byte of the URL, or behind it, does. */
  lemma UrlMoves(ps: Parser, ch: Byte)
    requires ps.state.ReqSpacesBeforeUrl? || UrlState(ps.state)
    ensures match DispatchRequestLine(ps, ch)
            case Next(next, _) =>
              && (UrlState(next.state) || next.state.ReqSpacesBeforeUrl? || next.state.ReqHttpStart?
                  || next.state.ReqLineAlmostDone? || next.state.HeaderFieldStart?)
              && next == ps.(state := next.state, major := next.major, minor := next.minor)
            case Again(_, _) => false
            case Exit(_, _) => false
            case Fail(e) => e == InvalidUrl
  {
    hide DispatchMethod, DispatchVersion, DispatchUrl, Lower, UrlState;
    UrlByte(ps, ch, []);
    UrlByte(ps, ch, [Mark(UrlData)]);
    UrlByte(ps.(state := ReqServerStart), ch, [Mark(UrlData)]);
    UrlKinds(ps.state);
  }

  lemma UrlByte(ps: Parser, ch: Byte, acts: seq<Act>)
    ensures var s := ParseUrlChar(ps.state, ch);
            DispatchUrl(ps, ch, acts) == if UrlState(s) then Next(ps.(state := s), acts) else Fail(InvalidUrl)
  {
    hide ParseUrlChar, UrlState;
    UrlStates(ps.state, ch);
    UrlKinds(Dead);
  }

  lemma UrlKinds(s: State)
    ensures UrlState(s) <==> s.ReqSchema? || s.ReqSchemaSlash? || s.ReqSchemaSlashSlash? || s.ReqServerStart?
                             || s.ReqServer? || s.ReqServerWithAt? || s.ReqPath? || s.ReqQueryStringStart?
                             || s.ReqQueryString? || s.ReqFragmentStart? || s.ReqFragment?
  {
  }

  /** The states of DispatchVersion. */
  predicate VersionState(s: State) {
    || s.ReqHttpStart? || s.ReqHttpH? || s.ReqHttpHT? || s.ReqHttpHTT? || s.ReqHttpHTTP? || s.ReqHttpI? || s.ReqHttpIC?
    || s.ReqHttpMajor? || s.ReqHttpDot? || s.ReqHttpMinor? || s.ReqHttpEnd? || s.ReqLineAlmostDone?
  }

  lemma VersionOk(ps: Parser, ch: Byte)
    requires Counted(ps) && VersionState(ps.state)
    ensures TurnOk(DispatchVersion(ps, ch))
  {
    hide Lower, StateInv;
    var t := DispatchVersion(ps, ch);
    if t.Next? { FreeValid(t.ps); }
  }

  lemma RequestLineOk(ps: Parser, ch: Byte)
    requires Counted(ps) && PartOf(ps.state).RequestLine?
    ensures TurnOk(DispatchRequestLine(ps, ch))
  {
    hide Counted, TurnOk, DispatchMethod, DispatchUrl, DispatchVersion;
    if ps.state.ReqMethod? {
      MethodOk(ps, ch);
    } else if ps.state.StartReq? || ps.state.Dead? {
      StartOk(ps, ch);
    } else if ps.state.ReqSpacesBeforeUrl? || UrlState(ps.state) {
      UrlOk(ps, ch);
    } else {
      VersionOk(ps, ch);
    }
  }

  /** The states the URL automaton moves between. */
  predicate UrlState(s: State) { OpenKind(s) == Some(UrlData) }

  lemma UrlStates(s: State, ch: Byte)
    ensures ParseUrlChar(s, ch).Dead? || UrlState(ParseUrlChar(s, ch))
  {
    hide Lower, IsUserinfoChar, IsUrlChar;
  }

  /** The lengths of the names that are matched: the 5-bit index never wraps. */
  lemma NameLengths()
    ensures |CONNECTION| == 10 && |PROXY_CONNECTION| == 16 && |CONTENT_LENGTH| == 14
    ensures |TRANSFER_ENCODING| == 17 && |UPGRADE| == 7 && |CHUNKED| == 7 && |KEEP_ALIVE| == 10 && |CLOSE| == 5
  {
  }

  lemma MatchStays(ps: Parser, name: string, c: Byte, miss: HState, full: HState)
    requires Inside(ps.index, name) && |name| < 32
    ensures var m := Match(ps, name, c, miss, full);
            && (m.hstate == miss || m.hstate == full || (m.hstate == ps.hstate && Inside(m.index, name)))
            && m == ps.(index := ps.index + 1, hstate := m.hstate)
  {
  }

  lemma MatchingFieldOk(ps: Parser, c: Byte)
    requires NameState(ps.hstate, ps.index)
    requires ps.hstate.MatchingConnection? || ps.hstate.MatchingProxyConnection? || ps.hstate.MatchingContentLength?
             || ps.hstate.MatchingTransferEncoding? || ps.hstate.MatchingUpgrade?
    ensures FieldStep(ps, c).Some? && FieldChange(ps, FieldStep(ps, c).value)
  {
    hide Match, CONNECTION, PROXY_CONNECTION, CONTENT_LENGTH, TRANSFER_ENCODING, UPGRADE;
    NameLengths();
    match ps.hstate {
      case MatchingConnection => MatchStays(ps, CONNECTION, c, General, Connection);
      case MatchingProxyConnection => MatchStays(ps, PROXY_CONNECTION, c, General, Connection);
      case MatchingContentLength => MatchStays(ps, CONTENT_LENGTH, c, General, ContentLength);
      case MatchingTransferEncoding => MatchStays(ps, TRANSFER_ENCODING, c, General, TransferEncoding);
      case MatchingUpgrade => MatchStays(ps, UPGRADE, c, General, Upgrade);
    }
  }

  /** A byte of a header name changes only the matcher and the transfer-encoding note. */
  predicate FieldChange(was: Parser, now: Parser) {
    && NameState(now.hstate, now.index)
    && now.index < 32
    && now == was.(hstate := now.hstate, index := now.index, usesTe := now.usesTe)
  }

  lemma FieldStepOk(ps: Parser, c: Byte)
    requires NameState(ps.hstate, ps.index) && ps.index < 32
    ensures FieldStep(ps, c).Some? && FieldChange(ps, FieldStep(ps, c).value)
  {
    hide Match, CONNECTION, PROXY_CONNECTION, CONTENT_LENGTH, TRANSFER_ENCODING, UPGRADE;
    NameLengths();
    if ps.hstate.MatchingConnection? || ps.hstate.MatchingProxyConnection? || ps.hstate.MatchingContentLength?
       || ps.hstate.MatchingTransferEncoding? || ps.hstate.MatchingUpgrade? {
      MatchingFieldOk(ps, c);
    }
  }

  /** A byte of a header value changes only the matcher, the connection flags and the length. */
  predicate ValueChange(was: Parser, now: Parser) {
    && ValueState(now.hstate, now.index, now.flags.contentLength)
    && now.index < 32
    && now.contentLength <= ULLONG_MAX
    && (now.flags.contentLength ==> now.contentLength < ULLONG_MAX)
    && now == was.(hstate := now.hstate, index := now.index, flags := now.flags, contentLength := now.contentLength)
  }

  lemma MatchingValueOk(ps: Parser, ch: Byte)
    requires ValueChange(ps, ps)
    requires ps.hstate.MatchingTeChunked? || ps.hstate.MatchingConnKeepAlive? || ps.hstate.MatchingConnClose?
             || ps.hstate.MatchingConnUpgrade?
    ensures ValueStep(ps, ch).Good? && ValueChange(ps, ValueStep(ps, ch).ps)
  {
    hide IsToken, Lower, Match, CHUNKED, KEEP_ALIVE, CLOSE, UPGRADE;
    NameLengths();
    var c := Lower(ch);
    match ps.hstate {
      case MatchingTeChunked => MatchStays(ps, CHUNKED, c, TeToken, TeChunked);
      case MatchingConnKeepAlive => MatchStays(ps, KEEP_ALIVE, c, ConnToken, ConnKeepAlive);
      case MatchingConnClose => MatchStays(ps, CLOSE, c, ConnToken, ConnClose);
      case MatchingConnUpgrade => MatchStays(ps, UPGRADE, c, ConnToken, ConnUpgrade);
    }
  }

  lemma TokenStartOk(ps: Parser, ch: Byte)
    requires ValueChange(ps, ps) && (ps.hstate.TeTokenStart? || ps.hstate.ConnTokenStart?)
    ensures ValueStep(ps, ch).Good? && ValueChange(ps, ValueStep(ps, ch).ps)
  {
    hide IsToken, Lower, Match, CHUNKED, KEEP_ALIVE, CLOSE, UPGRADE, ConnectionFlag, ContentLengthDigit;
    NameLengths();
  }

  lemma ValueStepOk(ps: Parser, ch: Byte)
    requires ValueChange(ps, ps)
    ensures match ValueStep(ps, ch)
            case Good(next) => ValueChange(ps, next)
            case Bad(e) => e == InvalidContentLength
  {
    hide Lower, Match, Inside, IsToken;
    match ps.hstate {
      case ContentLengthNum =>
      case ContentLengthWs =>
      case MatchingTeChunked | MatchingConnKeepAlive | MatchingConnClose | MatchingConnUpgrade =>
        MatchingValueOk(ps, ch);
      case TeTokenStart | ConnTokenStart => TokenStartOk(ps, ch);
      case _ =>
    }
  }

  lemma FieldAndValueOk(ps: Parser, ch: Byte)
    requires Counted(ps)
    ensures ps.state.HeaderField? ==> TurnOk(DispatchField(ps, ch))
    ensures ps.state.HeaderValue? ==> TurnOk(DispatchValue(ps, ch))
  {
    hide Token, FieldStep, ValueStep, Lower, MethodState, NameState, ValueState, IsHeaderChar;
    if ps.state.HeaderField? {
      FieldStepOk(ps, Token(ch));
    } else if ps.state.HeaderValue? {
      ValueStepOk(ps, ch);
    }
  }

  lemma FieldStartOk(ps: Parser, ch: Byte)
    requires Counted(ps) && ps.state.HeaderFieldStart?
    ensures TurnOk(DispatchFieldStart(ps, ch))
  {
    hide Token, MethodState, ValueState;
  }

  /** The first byte of a value leaves the matcher at index 0, in a state of the value automaton. */
  lemma ValueStartState(ps: Parser, ch: Byte)
    requires Inv(ps)
    requires NameState(ps.hstate, ps.index) || ValueState(ps.hstate, ps.index, ps.flags.contentLength)
    ensures match DispatchValueStart(ps, ch)
            case Next(v, _) =>
              && ValueChange(v, v) && v.state.HeaderValue?
              && v.errno == ps.errno && v.nread == ps.nread
            case Again(_, _) => false
            case Exit(_, _) => false
            case Fail(e) => e == InvalidContentLength || e == UnexpectedContentLength
  {
    hide DispatchValueStart, StateInv, ValueState, NameState;
    ValueStartSets(ps, ch);
  }

  /** What changes with it. */
  predicate ValueBegun(was: Parser, v: Parser) {
    && v == was.(state := HeaderValue, index := 0, hstate := v.hstate, flags := v.flags,
                 contentLength := v.contentLength)
    && ((v.flags.contentLength == was.flags.contentLength && v.contentLength == was.contentLength)
        || v.contentLength < 10)
  }

  lemma ValueStartSets(ps: Parser, ch: Byte)
    requires NameState(ps.hstate, ps.index) || ValueState(ps.hstate, ps.index, ps.flags.contentLength)
    ensures match DispatchValueStart(ps, ch)
            case Next(v, _) => ValueBegun(ps, v) && ValueState(v.hstate, 0, v.flags.contentLength)
            case Again(_, _) => false
            case Exit(_, _) => false
            case Fail(e) => e == InvalidContentLength || e == UnexpectedContentLength
  {
    hide DispatchValueStart, ValueState, NameState, ValueBegun;
    match ps.hstate {
      case ContentLengthWs | TeTokenStart | ConnTokenStart =>
        StaysInValue(ps);
        GoesOnAs(ps, ch);
      case Connection | TransferEncoding => OptionsBegin(ps, ch);
      case ContentLength => LengthBegins(ps, ch);
      case _ => OtherBegins(ps, ch);
    }
  }

  lemma GoesOnAs(ps: Parser, ch: Byte)
    requires ps.hstate.ContentLengthWs? || ps.hstate.TeTokenStart? || ps.hstate.ConnTokenStart?
    ensures DispatchValueStart(ps, ch) == Next(ps.(state := HeaderValue, index := 0), [Mark(ValueData)])
    ensures ValueBegun(ps, ps.(state := HeaderValue, index := 0))
  {
    hide Lower;
  }

  lemma OptionsBegin(ps: Parser, ch: Byte)
    requires ps.hstate.Connection? || ps.hstate.TransferEncoding?
    ensures var t := DispatchValueStart(ps, ch);
            t.Next? && ValueBegun(ps, t.ps) && ValueState(t.ps.hstate, 0, t.ps.flags.contentLength)
  {
    hide Lower, ValueState;
    AtFirstByte(ps.flags.contentLength);
  }

  lemma LengthBegins(ps: Parser, ch: Byte)
    requires ps.hstate.ContentLength?
    ensures var t := DispatchValueStart(ps, ch);
            if t.Fail? then t.errno == InvalidContentLength || t.errno == UnexpectedContentLength
            else t.Next? && ValueBegun(ps, t.ps) && ValueState(t.ps.hstate, 0, t.ps.flags.contentLength)
  {
    hide Lower, ValueState;
    AtFirstByte(ps.flags.contentLength);
  }

  lemma OtherBegins(ps: Parser, ch: Byte)
    requires !ps.hstate.ContentLengthWs? && !ps.hstate.TeTokenStart? && !ps.hstate.ConnTokenStart?
    requires !ps.hstate.Connection? && !ps.hstate.TransferEncoding? && !ps.hstate.ContentLength?
    ensures var t := DispatchValueStart(ps, ch);
            t.Next? && ValueBegun(ps, t.ps) && ValueState(t.ps.hstate, 0, t.ps.flags.contentLength)
  {
    hide Lower, ValueState;
    AtFirstByte(ps.flags.contentLength);
  }

  /** The states a value begins in. */
  lemma AtFirstByte(hasLength: bool)
    ensures ValueState(General, 0, hasLength) && ValueState(TeToken, 0, hasLength)
    ensures ValueState(ConnToken, 0, hasLength)
    ensures ValueState(MatchingTeChunked, 0, hasLength) && ValueState(MatchingConnKeepAlive, 0, hasLength)
    ensures ValueState(MatchingConnClose, 0, hasLength) && ValueState(MatchingConnUpgrade, 0, hasLength)
    ensures ValueState(ContentLengthNum, 0, true)
  {
    NameLengths();
  }

  lemma StaysInValue(ps: Parser)
    requires NameState(ps.hstate, ps.index) || ValueState(ps.hstate, ps.index, ps.flags.contentLength)
    requires ps.hstate.ContentLengthWs? || ps.hstate.TeTokenStart? || ps.hstate.ConnTokenStart?
    ensures ValueState(ps.hstate, 0, ps.flags.contentLength)
  {
  }

  lemma ValueStartOk(ps: Parser, ch: Byte)
    requires Counted(ps)
    requires (ps.state.HeaderValueDiscardWs? && ch != CR) || ps.state.HeaderValueStart?
    ensures TurnOk(DispatchValueStart(ps, ch))
  {
    hide DispatchValueStart, MethodState, NameState, ValueState;
    ValueStartState(ps, ch);
  }

  lemma HeadersDoneOk(ps: Parser, ch: Byte)
    requires Counted(ps)
    ensures ps.state.HeadersAlmostDone? ==> TurnOk(DispatchHeadersAlmostDone(ps, ch))
    ensures ps.state.HeadersDone? ==> TurnOk(DispatchHeadersDone(ps, ch))
  {
    hide MethodState, ValueState, NameState;
  }

  lemma FinishHeaderKeeps(ps: Parser)
    ensures FinishHeader(ps) == ps.(flags := FinishHeader(ps).flags)
    ensures FinishHeader(ps).flags.contentLength == ps.flags.contentLength
  {
  }

  lemma LwsOk(ps: Parser, ch: Byte)
    requires Counted(ps) && (ps.state.HeaderValueLws? || ps.state.HeaderValueDiscardLws?)
    ensures TurnOk(DispatchHeaders(ps, ch))
  {
    hide MethodState, NameState, Inside, FinishHeader;
    FinishHeaderKeeps(ps);
    if ch != ' ' && ch != '\t' {
      hide StateInv;
      FreeValid(FinishHeader(ps).(state := HeaderFieldStart));
    }
  }

  lemma HeadersOk(ps: Parser, ch: Byte)
    requires Counted(ps) && PartOf(ps.state).Headers?
    ensures TurnOk(DispatchHeaders(ps, ch))
  {
    hide DispatchField, DispatchValue, DispatchFieldStart, DispatchValueStart, DispatchHeadersAlmostDone,
      DispatchHeadersDone, MethodState, NameState, ValueState;
    match ps.state {
      case HeaderField | HeaderValue => FieldAndValueOk(ps, ch);
      case HeaderFieldStart => FieldStartOk(ps, ch);
      case HeaderValueDiscardWs => if ch != CR { ValueStartOk(ps, ch); }
      case HeaderValueStart => ValueStartOk(ps, ch);
      case HeadersAlmostDone | HeadersDone => HeadersDoneOk(ps, ch);
      case HeaderValueLws | HeaderValueDiscardLws => LwsOk(ps, ch);
      case _ =>
    }
  }

  /** The asserts on content_length, on nread and on the chunked flag hold in every reachable state. */
  lemma ChunkHeadOk(ps: Parser, ch: Byte)
    requires Counted(ps) && PartOf(ps.state).ChunkHead?
    ensures TurnOk(DispatchChunkHead(ps, ch))
  {
    hide Counted, TurnOk, DispatchChunkHead;
    if ps.state.ChunkSizeStart? || ps.state.ChunkSize? { ChunkDigitsOk(ps, ch); } else { ChunkLineOk(ps, ch); }
  }

  lemma ChunkDigitsOk(ps: Parser, ch: Byte)
    requires Counted(ps) && (ps.state.ChunkSizeStart? || ps.state.ChunkSize?)
    ensures TurnOk(DispatchChunkHead(ps, ch))
  {
    hide Lower, MethodState, ValueState, NameState;
  }

  lemma ChunkLineOk(ps: Parser, ch: Byte)
    requires Counted(ps) && (ps.state.ChunkParameters? || ps.state.ChunkSizeAlmostDone?)
    ensures TurnOk(DispatchChunkHead(ps, ch))
  {
    hide Lower, MethodState, ValueState, NameState, Unhex;
  }

  lemma ContentOk(ps: Parser, ch: Byte)
    requires Counted(ps) && PartOf(ps.state).Content?
    ensures TurnOk(DispatchBody(ps, ch))
  {
    hide Counted, TurnOk, DispatchBody;
    if ps.state.BodyIdentity? || ps.state.BodyIdentityEof? || ps.state.MessageDone? {
      IdentityOk(ps, ch);
    } else {
      ChunkOk(ps, ch);
    }
  }

  lemma IdentityOk(ps: Parser, ch: Byte)
    requires Counted(ps) && (ps.state.BodyIdentity? || ps.state.BodyIdentityEof? || ps.state.MessageDone?)
    ensures TurnOk(DispatchBody(ps, ch))
  {
    hide MethodState, ValueState, NameState;
  }

  lemma ChunkOk(ps: Parser, ch: Byte)
    requires Counted(ps) && (ps.state.ChunkData? || ps.state.ChunkDataAlmostDone? || ps.state.ChunkDataDone?)
    ensures TurnOk(DispatchBody(ps, ch))
  {
    hide MethodState, ValueState, NameState, NewMessage;
  }

  lemma DispatchOk(ps: Parser, ch: Byte)
    requires Counted(ps)
    ensures TurnOk(Dispatch(ps, ch))
  {
    hide Counted, TurnOk, DispatchRequestLine, DispatchHeaders, DispatchChunkHead, DispatchBody;
    match PartOf(ps.state) {
      case RequestLine => RequestLineOk(ps, ch);
      case Headers => HeadersOk(ps, ch);
      case ChunkHead => ChunkHeadOk(ps, ch);
      case Content => ContentOk(ps, ch);
    }
  }

  lemma {:induction false} ChainOk(ps: Parser, ch: Byte)
    requires Counted(ps)
    ensures match Chain(ps, ch)
            case Fed(next, _, _) => Valid(next)
            case Refused(e, _) => e != AssertionViolated && e != Ok
    decreases Rank(ps.state)
  {
    hide Dispatch, Inv;
    DispatchOk(ps, ch);
    AgainLowersRank(ps, ch);
    var t := Dispatch(ps, ch);
    if t.Again? { ChainOk(t.ps, ch); }
  }

  /** In a reachable state no assert of the program fails, and an accepted byte leads to a reachable state. */
  lemma FeedOk(ps: Parser, ch: Byte)
    requires Valid(ps)
    ensures match Feed(ps, ch)
            case Fed(next, _, _) => Valid(next)
            case Refused(e, _) => e != AssertionViolated && e != Ok
  {
    hide Chain, MethodState, NameState, ValueState;
    if ParsingHeader(ps.state) {
      if ps.nread + 1 <= MAX_HEADER_SIZE { ChainOk(ps.(nread := ps.nread + 1), ch); }
    } else {
      ChainOk(ps, ch);
    }
  }
}
