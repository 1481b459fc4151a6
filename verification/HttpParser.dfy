// The request parser one byte at a time: what http_parser_execute does when it is
// handed a single byte, and the run of such steps over a whole input.

module HttpParser {
  import opened Words
  import opened Digits
  import opened HttpChars

  const MAX_HEADER_SIZE: nat := 80 * 1024
  /** 2^64 - 1: the largest uint64_t, stored in content_length for "no such header". */
  const ULLONG_MAX: nat := 0xFFFF_FFFF_FFFF_FFFF

  /** The states a request parser can be in (the response states are not part of this model). */
  datatype State =
    | Dead
    | StartReq
    | ReqMethod
    | ReqSpacesBeforeUrl
    | ReqSchema
    | ReqSchemaSlash
    | ReqSchemaSlashSlash
    | ReqServerStart
    | ReqServer
    | ReqServerWithAt
    | ReqPath
    | ReqQueryStringStart
    | ReqQueryString
    | ReqFragmentStart
    | ReqFragment
    | ReqHttpStart
    | ReqHttpH
    | ReqHttpHT
    | ReqHttpHTT
    | ReqHttpHTTP
    | ReqHttpI
    | ReqHttpIC
    | ReqHttpMajor
    | ReqHttpDot
    | ReqHttpMinor
    | ReqHttpEnd
    | ReqLineAlmostDone
    | HeaderFieldStart
    | HeaderField
    | HeaderValueDiscardWs
    | HeaderValueDiscardWsAlmostDone
    | HeaderValueDiscardLws
    | HeaderValueStart
    | HeaderValue
    | HeaderValueLws
    | HeaderAlmostDone
    | ChunkSizeStart
    | ChunkSize
    | ChunkParameters
    | ChunkSizeAlmostDone
    | HeadersAlmostDone
    | HeadersDone
    | ChunkData
    | ChunkDataAlmostDone
    | ChunkDataDone
    | BodyIdentity
    | BodyIdentityEof
    | MessageDone

  predicate ParsingHeader(s: State) {
    !(s.ChunkData? || s.ChunkDataAlmostDone? || s.ChunkDataDone? || s.BodyIdentity? || s.BodyIdentityEof?
      || s.MessageDone?)
  }

  datatype HState =
    | General
    | MatchC
    | MatchCO
    | MatchCON
    | MatchingConnection
    | MatchingProxyConnection
    | MatchingContentLength
    | MatchingTransferEncoding
    | MatchingUpgrade
    | Connection
    | ContentLength
    | ContentLengthNum
    | ContentLengthWs
    | TransferEncoding
    | Upgrade
    | TeTokenStart
    | MatchingTeChunked
    | TeToken
    | ConnTokenStart
    | MatchingConnKeepAlive
    | MatchingConnClose
    | MatchingConnUpgrade
    | ConnToken
    | TeChunked
    | ConnKeepAlive
    | ConnClose
    | ConnUpgrade

  const CONNECTION: string := "connection"
  const PROXY_CONNECTION: string := "proxy-connection"
  const CONTENT_LENGTH: string := "content-length"
  const TRANSFER_ENCODING: string := "transfer-encoding"
  const UPGRADE: string := "upgrade"
  const CHUNKED: string := "chunked"
  const KEEP_ALIVE: string := "keep-alive"
  const CLOSE: string := "close"

  datatype Method =
    | DELETE | GET | HEAD | POST | PUT | CONNECT | OPTIONS | TRACE | COPY | LOCK | MKCOL | MOVE
    | PROPFIND | PROPPATCH | SEARCH | UNLOCK | BIND | REBIND | UNBIND | ACL | REPORT | MKACTIVITY
    | CHECKOUT | MERGE | MSEARCH | NOTIFY | SUBSCRIBE | UNSUBSCRIBE | PATCH | PURGE | MKCALENDAR
    | LINK | UNLINK | SOURCE

  function MethodString(m: Method): seq<Byte> {
    match m
    case DELETE => "DELETE"
    case GET => "GET"
    case HEAD => "HEAD"
    case POST => "POST"
    case PUT => "PUT"
    case CONNECT => "CONNECT"
    case OPTIONS => "OPTIONS"
    case TRACE => "TRACE"
    case COPY => "COPY"
    case LOCK => "LOCK"
    case MKCOL => "MKCOL"
    case MOVE => "MOVE"
    case PROPFIND => "PROPFIND"
    case PROPPATCH => "PROPPATCH"
    case SEARCH => "SEARCH"
    case UNLOCK => "UNLOCK"
    case BIND => "BIND"
    case REBIND => "REBIND"
    case UNBIND => "UNBIND"
    case ACL => "ACL"
    case REPORT => "REPORT"
    case MKACTIVITY => "MKACTIVITY"
    case CHECKOUT => "CHECKOUT"
    case MERGE => "MERGE"
    case MSEARCH => "M-SEARCH"
    case NOTIFY => "NOTIFY"
    case SUBSCRIBE => "SUBSCRIBE"
    case UNSUBSCRIBE => "UNSUBSCRIBE"
    case PATCH => "PATCH"
    case PURGE => "PURGE"
    case MKCALENDAR => "MKCALENDAR"
    case LINK => "LINK"
    case UNLINK => "UNLINK"
    case SOURCE => "SOURCE"
  }

  /** The method guessed from the first letter alone. */
  function FirstGuess(c: Byte): Option<Method> {
    if c == 'A' then Some(ACL) else if c == 'B' then Some(BIND) else if c == 'C' then Some(CONNECT)
    else if c == 'D' then Some(DELETE) else if c == 'G' then Some(GET) else if c == 'H' then Some(HEAD)
    else if c == 'L' then Some(LOCK) else if c == 'M' then Some(MKCOL) else if c == 'N' then Some(NOTIFY)
    else if c == 'O' then Some(OPTIONS) else if c == 'P' then Some(POST) else if c == 'R' then Some(REPORT)
    else if c == 'S' then Some(SUBSCRIBE) else if c == 'T' then Some(TRACE) else if c == 'U' then Some(UNLOCK)
    else None
  }

  /** The method to switch to when byte `c` at `index` contradicts the guess `m`. */
  function SwitchGuess(m: Method, index: nat, c: Byte): Option<Method> {
    match m
    case POST =>
      if index == 1 && c == 'U' then Some(PUT)
      else if index == 1 && c == 'A' then Some(PATCH)
      else if index == 1 && c == 'R' then Some(PROPFIND)
      else None
    case PUT => if index == 2 && c == 'R' then Some(PURGE) else None
    case CONNECT =>
      if index == 1 && c == 'H' then Some(CHECKOUT)
      else if index == 2 && c == 'P' then Some(COPY)
      else None
    case MKCOL =>
      if index == 1 && c == 'O' then Some(MOVE)
      else if index == 1 && c == 'E' then Some(MERGE)
      else if index == 1 && c == '-' then Some(MSEARCH)
      else if index == 2 && c == 'A' then Some(MKACTIVITY)
      else if index == 3 && c == 'A' then Some(MKCALENDAR)
      else None
    case SUBSCRIBE =>
      if index == 1 && c == 'E' then Some(SEARCH)
      else if index == 1 && c == 'O' then Some(SOURCE)
      else None
    case REPORT => if index == 2 && c == 'B' then Some(REBIND) else None
    case PROPFIND => if index == 4 && c == 'P' then Some(PROPPATCH) else None
    case LOCK => if index == 1 && c == 'I' then Some(LINK) else None
    case UNLOCK =>
      if index == 2 && c == 'S' then Some(UNSUBSCRIBE)
      else if index == 2 && c == 'B' then Some(UNBIND)
      else if index == 3 && c == 'I' then Some(UNLINK)
      else None
    case _ => None
  }

  datatype Errno =
    | Ok
    | InvalidEofState
    | HeaderOverflow
    | ClosedConnection
    | InvalidVersion
    | InvalidMethod
    | InvalidUrl
    | LfExpected
    | InvalidHeaderToken
    | InvalidContentLength
    | UnexpectedContentLength
    | InvalidChunkSize
    | InvalidConstant
    | Strict
    | InvalidTransferEncoding
    /** An assert of the program that does not hold. */
    | AssertionViolated

  /** F_SKIPBODY is left out: only a callback that returns 1 or 2 sets it. */
  datatype Flags = Flags(chunked: bool, keepAlive: bool, close: bool, connUpgrade: bool, trailing: bool,
                         upgrade: bool, contentLength: bool)

  const NO_FLAGS := Flags(false, false, false, false, false, false, false)

  datatype Parser = Parser(
    state: State,
    hstate: HState,
    index: nat,
    flags: Flags,
    usesTe: bool,
    allowChunkedLength: bool,
    nread: nat,
    contentLength: nat,
    major: nat,
    minor: nat,
    verb: Method,
    upgrade: bool,
    errno: Errno)

  /** The 5-bit `index` field, incremented. */
  function Bump(index: nat): nat { if index < 31 then index + 1 else 0 }

  /** A value stored in a uint64_t. */
  function Wrap64(n: nat): nat { if n <= ULLONG_MAX then n else n % (ULLONG_MAX + 1) }

  /** http_parser_init for HTTP_REQUEST; the memset leaves method 0, which is DELETE. */
  function Init(allowChunkedLength: bool): Parser {
    Parser(StartReq, General, 0, NO_FLAGS, false, allowChunkedLength, 0, 0, 0, 0, DELETE, false, Ok)
  }

  // ---------------------------------------------------------------- callbacks

  datatype DataKind = UrlData | FieldData | ValueData | BodyData

  datatype NoteKind = MessageBegin | HeadersComplete | MessageComplete | ChunkHeader | ChunkComplete

  /** One callback, with what the application can read from the parser at that moment. */
  datatype Event =
    | Note(note: NoteKind, contentLength: nat, chunked: bool, isConnect: bool)
    | Data(kind: DataKind, bytes: seq<Byte>)

  /** What the application has heard. Consecutive data callbacks of one kind are joined: how
      often they are called is not promised, only the bytes they carry. */
  type Trace = seq<Event>

  function Emit(t: Trace, e: Event): Trace {
    if e.Data? && t != [] && t[|t| - 1].Data? && t[|t| - 1].kind == e.kind
    then t[..|t| - 1] + [Data(e.kind, t[|t| - 1].bytes + e.bytes)]
    else t + [e]
  }

  /** What one turn of the state switch does besides changing the parser: MARK, CALLBACK_DATA,
      its variant that takes the current byte in, and CALLBACK_NOTIFY. */
  datatype Act =
    | Mark(kind: DataKind)
    | Flush(kind: DataKind)
    | FlushThrough(kind: DataKind)
    | Notify(event: Event)

  function Notice(ps: Parser, n: NoteKind): Act {
    Notify(Note(n, ps.contentLength, ps.flags.chunked, ps.verb.CONNECT?))
  }

  /** The marks that are set, with the input offset they point at. */
  type Marks = map<DataKind, nat>

  function PlayOne(a: Act, marks: Marks, t: Trace, data: seq<Byte>, p: nat): (Marks, Trace)
    requires p < |data| && forall k <- marks :: marks[k] <= p
  {
    match a
    case Mark(k) => (if k in marks then marks else marks[k := p], t)
    case Flush(k) => if k in marks then (marks - {k}, Emit(t, Data(k, data[marks[k]..p]))) else (marks, t)
    case FlushThrough(k) =>
      if k in marks then (marks - {k}, Emit(t, Data(k, data[marks[k]..p + 1]))) else (marks, t)
    case Notify(e) => (marks, Emit(t, e))
  }

  function Play(acts: seq<Act>, marks: Marks, t: Trace, data: seq<Byte>, p: nat): (r: (Marks, Trace))
    requires p < |data| && forall k <- marks :: marks[k] <= p
    ensures forall k <- r.0 :: r.0[k] <= p
  {
    if acts == [] then (marks, t)
    else
      var (m, u) := PlayOne(acts[0], marks, t, data, p);
      Play(acts[1..], m, u, data, p)
  }

  /** The kind of data callback that is open in a state. */
  function OpenKind(s: State): Option<DataKind> {
    match s
    case HeaderField => Some(FieldData)
    case HeaderValue => Some(ValueData)
    case ReqSchema | ReqSchemaSlash | ReqSchemaSlashSlash | ReqServerStart | ReqServer | ReqServerWithAt
      | ReqPath | ReqQueryStringStart | ReqQueryString | ReqFragmentStart | ReqFragment => Some(UrlData)
    case _ => None
  }

  /** The marks http_parser_execute sets before it looks at the first byte. */
  function EntryMarks(s: State): Marks {
    match OpenKind(s)
    case Some(k) => map[k := 0]
    case None => map[]
  }

  function FlushKind(k: DataKind, marks: Marks, t: Trace, data: seq<Byte>): Trace
    requires forall j <- marks :: marks[j] <= |data|
  {
    if k in marks then Emit(t, Data(k, data[marks[k]..])) else t
  }

  /** The callbacks for the marks left over when the input runs out, in the program's order. */
  function FlushAll(marks: Marks, t: Trace, data: seq<Byte>): Trace
    requires forall k <- marks :: marks[k] <= |data|
  {
    FlushKind(BodyData, marks,
              FlushKind(UrlData, marks,
                        FlushKind(ValueData, marks,
                                  FlushKind(FieldData, marks, t, data), data), data), data)
  }

  // ---------------------------------------------------------------- the state switch

  /** The outcome of one turn of the switch: on to the next byte, the same byte again in another
      state, an early return for an upgrade, or an error. */
  datatype Turn =
    | Next(ps: Parser, acts: seq<Act>)
    | Again(ps: Parser, acts: seq<Act>)
    | Exit(ps: Parser, acts: seq<Act>)
    | Fail(errno: Errno)

  /** The states after which the same byte is dispatched again, by how long the chain can be. */
  function Rank(s: State): nat {
    match s
    case HeaderValueLws | HeaderValueDiscardLws => 3
    case HeaderFieldStart => 2
    case HeadersAlmostDone | HeaderValue | BodyIdentity => 1
    case _ => 0
  }

  /** A request never needs an EOF to find the end of its message. */
  predicate MessageNeedsEof(ps: Parser) { false }

  predicate ShouldKeepAlive(ps: Parser) {
    && (if ps.major > 0 && ps.minor > 0 then !ps.flags.close else ps.flags.keepAlive)
    && !MessageNeedsEof(ps)
  }

  function NewMessage(ps: Parser): State { if ShouldKeepAlive(ps) then StartReq else Dead }

  function ParseUrlChar(s: State, ch: Byte): State {
    if ch == ' ' || ch == CR || ch == LF || ch == '\t' || ch == FORM_FEED then Dead
    else
      match s
      case ReqSpacesBeforeUrl =>
        if ch == '/' || ch == '*' then ReqPath else if IsAlpha(ch) then ReqSchema else Dead
      case ReqSchema => if IsAlpha(ch) then s else if ch == ':' then ReqSchemaSlash else Dead
      case ReqSchemaSlash => if ch == '/' then ReqSchemaSlashSlash else Dead
      case ReqSchemaSlashSlash => if ch == '/' then ReqServerStart else Dead
      case ReqServerWithAt | ReqServerStart | ReqServer =>
        if s.ReqServerWithAt? && ch == '@' then Dead
        else if ch == '/' then ReqPath
        else if ch == '?' then ReqQueryStringStart
        else if ch == '@' then ReqServerWithAt
        else if IsUserinfoChar(ch) || ch == '[' || ch == ']' then ReqServer
        else Dead
      case ReqPath =>
        if IsUrlChar(ch) then s else if ch == '?' then ReqQueryStringStart
        else if ch == '#' then ReqFragmentStart else Dead
      case ReqQueryStringStart | ReqQueryString =>
        if IsUrlChar(ch) || ch == '?' then ReqQueryString else if ch == '#' then ReqFragmentStart else Dead
      case ReqFragmentStart =>
        if IsUrlChar(ch) || ch == '?' then ReqFragment else if ch == '#' then s else Dead
      case ReqFragment => if IsUrlChar(ch) || ch == '?' || ch == '#' then s else Dead
      case _ => Dead
  }

  /** STRICT_CHECK followed by a state change. */
  function Expect(ps: Parser, ch: Byte, want: Byte, next: State, e: Errno): Turn {
    if ch == want then Next(ps.(state := next), []) else Fail(e)
  }

  function DispatchUrl(ps: Parser, ch: Byte, acts: seq<Act>): Turn {
    var s := ParseUrlChar(ps.state, ch);
    if s.Dead? then Fail(InvalidUrl) else Next(ps.(state := s), acts)
  }

  function DispatchMethod(ps: Parser, ch: Byte): Turn {
    var matcher := MethodString(ps.verb);
    var counted := ps.(index := Bump(ps.index));
    if ch == '\0' then Fail(InvalidMethod)
    else if ch == ' ' && ps.index == |matcher| then Next(counted.(state := ReqSpacesBeforeUrl), [])
    else if ps.index < |matcher| && ch == matcher[ps.index] then Next(counted, [])
    else if 'A' <= ch <= 'Z' || ch == '-' then
      match SwitchGuess(ps.verb, ps.index, ch)
      case Some(m) => Next(counted.(verb := m), [])
      case None => Fail(InvalidMethod)
    else Fail(InvalidMethod)
  }

  /** The rest of the request line, after the URL. */
  function DispatchVersion(ps: Parser, ch: Byte): Turn {
    match ps.state
    case ReqHttpStart =>
      if ch == ' ' then Next(ps, [])
      else if ch == 'H' then Next(ps.(state := ReqHttpH), [])
      else if ch == 'I' && ps.verb.SOURCE? then Next(ps.(state := ReqHttpI), [])
      else Fail(InvalidConstant)
    case ReqHttpH => Expect(ps, ch, 'T', ReqHttpHT, Strict)
    case ReqHttpHT => Expect(ps, ch, 'T', ReqHttpHTT, Strict)
    case ReqHttpHTT => Expect(ps, ch, 'P', ReqHttpHTTP, Strict)
    case ReqHttpI => Expect(ps, ch, 'C', ReqHttpIC, Strict)
    case ReqHttpIC => Expect(ps, ch, 'E', ReqHttpHTTP, Strict)
    case ReqHttpHTTP => Expect(ps, ch, '/', ReqHttpMajor, Strict)
    case ReqHttpMajor =>
      if IsDigit(ch) then Next(ps.(major := DigitValue(ch), state := ReqHttpDot), []) else Fail(InvalidVersion)
    case ReqHttpDot => Expect(ps, ch, '.', ReqHttpMinor, InvalidVersion)
    case ReqHttpMinor =>
      if IsDigit(ch) then Next(ps.(minor := DigitValue(ch), state := ReqHttpEnd), []) else Fail(InvalidVersion)
    case ReqHttpEnd =>
      if ch == CR then Next(ps.(state := ReqLineAlmostDone), [])
      else if ch == LF then Next(ps.(state := HeaderFieldStart), [])
      else Fail(InvalidVersion)
    case ReqLineAlmostDone => Expect(ps, ch, LF, HeaderFieldStart, LfExpected)
    case _ => Fail(AssertionViolated)
  }

  /** From the start of a message to the end of its request line. */
  function DispatchRequestLine(ps: Parser, ch: Byte): Turn {
    match ps.state
    case Dead => if ch == CR || ch == LF then Next(ps, []) else Fail(ClosedConnection)
    case StartReq =>
      if ch == CR || ch == LF then Next(ps, [])
      else
        (match FirstGuess(ch)
         case None => Fail(InvalidMethod)
         case Some(m) =>
           var begun := ps.(flags := NO_FLAGS, usesTe := false, contentLength := ULLONG_MAX, index := 1,
                            verb := m, state := ReqMethod);
           Next(begun, [Notice(begun, MessageBegin)]))
    case ReqMethod => DispatchMethod(ps, ch)
    case ReqSpacesBeforeUrl =>
      if ch == ' ' then Next(ps, [])
      else DispatchUrl(if ps.verb.CONNECT? then ps.(state := ReqServerStart) else ps, ch, [Mark(UrlData)])
    case ReqSchema | ReqSchemaSlash | ReqSchemaSlashSlash | ReqServerStart => DispatchUrl(ps, ch, [])
    case ReqServer | ReqServerWithAt | ReqPath | ReqQueryStringStart | ReqQueryString | ReqFragmentStart
      | ReqFragment =>
      if ch == ' ' then Next(ps.(state := ReqHttpStart), [Flush(UrlData)])
      else if ch == CR || ch == LF then
        Next(ps.(major := 0, minor := 9, state := if ch == CR then ReqLineAlmostDone else HeaderFieldStart),
             [Flush(UrlData)])
      else DispatchUrl(ps, ch, [])
    case _ => DispatchVersion(ps, ch)
  }

  /** One more byte against a name: the index moves on, a mismatch falls back to `miss`, the last
      byte of the name moves to `full`. */
  function Match(ps: Parser, name: string, c: Byte, miss: HState, full: HState): Parser {
    var i := Bump(ps.index);
    ps.(index := i, hstate := MatchState(i, ps.hstate, name, c, miss, full))
  }

  function MatchState(i: nat, h: HState, name: string, c: Byte, miss: HState, full: HState): HState {
    if i >= |name| || c != name[i] then miss
    else if i == |name| - 1 then full
    else h
  }

  /** The header-name matcher; `c` is the lower-cased token character of `ch`. */
  function FieldStep(ps: Parser, c: Byte): Option<Parser> {
    var next := ps.(index := Bump(ps.index));
    match ps.hstate
    case General => Some(ps)
    case MatchC => Some(next.(hstate := if c == 'o' then MatchCO else General))
    case MatchCO => Some(next.(hstate := if c == 'n' then MatchCON else General))
    case MatchCON =>
      Some(next.(hstate := if c == 'n' then MatchingConnection else if c == 't' then MatchingContentLength
                           else General))
    case MatchingConnection => Some(Match(ps, CONNECTION, c, General, Connection))
    case MatchingProxyConnection => Some(Match(ps, PROXY_CONNECTION, c, General, Connection))
    case MatchingContentLength => Some(Match(ps, CONTENT_LENGTH, c, General, ContentLength))
    case MatchingTransferEncoding =>
      var m := Match(ps, TRANSFER_ENCODING, c, General, TransferEncoding);
      Some(if m.hstate.TransferEncoding? then m.(usesTe := true) else m)
    case MatchingUpgrade => Some(Match(ps, UPGRADE, c, General, Upgrade))
    case Connection | ContentLength | TransferEncoding | Upgrade =>
      // a space is not a token character, so every byte that gets here lengthens the name
      Some(ps.(hstate := General))
    case _ => None
  }

  function DispatchField(ps: Parser, ch: Byte): Turn {
    if IsToken(ch) then
      match FieldStep(ps, Token(ch))
      case Some(next) => Next(next, [])
      case None => Fail(AssertionViolated)
    else if ch == ':' then Next(ps.(state := HeaderValueDiscardWs), [Flush(FieldData)])
    else Fail(InvalidHeaderToken)
  }

  function DispatchFieldStart(ps: Parser, ch: Byte): Turn {
    if ch == CR then Next(ps.(state := HeadersAlmostDone), [])
    else if ch == LF then Again(ps.(state := HeadersAlmostDone), [])
    else if !IsToken(ch) then Fail(InvalidHeaderToken)
    else
      var c := Token(ch);
      var h := if c == 'c' then MatchC
               else if c == 'p' then MatchingProxyConnection
               else if c == 't' then MatchingTransferEncoding
               else if c == 'u' then MatchingUpgrade
               else General;
      Next(ps.(index := 0, state := HeaderField, hstate := h), [Mark(FieldData)])
  }

  /** The first byte of a header value. */
  function DispatchValueStart(ps: Parser, ch: Byte): Turn {
    var c := Lower(ch);
    var v := ps.(state := HeaderValue, index := 0);
    var acts := [Mark(ValueData)];
    match ps.hstate
    case Upgrade => Next(v.(flags := v.flags.(upgrade := true), hstate := General), acts)
    case TransferEncoding => Next(v.(hstate := if c == 'c' then MatchingTeChunked else TeToken), acts)
    case TeTokenStart | ContentLengthWs | ConnTokenStart => Next(v, acts)
    case ContentLength =>
      if !IsDigit(ch) then Fail(InvalidContentLength)
      else if ps.flags.contentLength then Fail(UnexpectedContentLength)
      else Next(v.(flags := v.flags.(contentLength := true), contentLength := DigitValue(ch),
                   hstate := ContentLengthNum), acts)
    case Connection =>
      Next(v.(hstate := if c == 'k' then MatchingConnKeepAlive
                        else if c == 'c' then MatchingConnClose
                        else if c == 'u' then MatchingConnUpgrade
                        else ConnToken), acts)
    case _ => Next(v.(hstate := General), acts)
  }

  datatype Valued = Good(ps: Parser) | Bad(errno: Errno)

  function ContentLengthDigit(ps: Parser, ch: Byte): Valued {
    if ch == ' ' then Good(ps.(hstate := ContentLengthWs))
    else if !IsDigit(ch) then Bad(InvalidContentLength)
    else if (ULLONG_MAX - 10) / 10 < ps.contentLength then Bad(InvalidContentLength)
    else Good(ps.(contentLength := Wrap64(ps.contentLength * 10 + DigitValue(ch))))
  }

  /** The header-value matcher on a byte that is neither CR nor LF. */
  function ValueStep(ps: Parser, ch: Byte): Valued {
    var c := Lower(ch);
    match ps.hstate
    case General => Good(ps)
    case Connection | TransferEncoding => Bad(AssertionViolated)
    case ContentLength => if ch == ' ' then Good(ps) else ContentLengthDigit(ps.(hstate := ContentLengthNum), ch)
    case ContentLengthNum => ContentLengthDigit(ps, ch)
    case ContentLengthWs => if ch == ' ' then Good(ps) else Bad(InvalidContentLength)
    case TeTokenStart =>
      Good(ps.(hstate := if c == 'c' then MatchingTeChunked else if IsToken(c) then TeToken
                         else if c == ' ' || c == '\t' then TeTokenStart else General))
    case MatchingTeChunked => Good(Match(ps, CHUNKED, c, TeToken, TeChunked))
    case TeToken => Good(if ch == ',' then ps.(hstate := TeTokenStart, index := 0) else ps)
    case ConnTokenStart =>
      Good(ps.(hstate := if c == 'k' then MatchingConnKeepAlive else if c == 'c' then MatchingConnClose
                         else if c == 'u' then MatchingConnUpgrade else if IsToken(c) then ConnToken
                         else if c == ' ' || c == '\t' then ConnTokenStart else General))
    case MatchingConnKeepAlive => Good(Match(ps, KEEP_ALIVE, c, ConnToken, ConnKeepAlive))
    case MatchingConnClose => Good(Match(ps, CLOSE, c, ConnToken, ConnClose))
    case MatchingConnUpgrade => Good(Match(ps, UPGRADE, c, ConnToken, ConnUpgrade))
    case ConnToken => Good(if ch == ',' then ps.(hstate := ConnTokenStart, index := 0) else ps)
    case TeChunked => Good(if ch != ' ' then ps.(hstate := TeToken) else ps)
    case ConnKeepAlive | ConnClose | ConnUpgrade =>
      Good(if ch == ',' then ConnectionFlag(ps).(hstate := ConnTokenStart, index := 0)
           else if ch != ' ' then ps.(hstate := ConnToken) else ps)
    case _ => Good(ps.(hstate := General))
  }

  /** The flags once the option that has just been recognised, if any, is recorded. */
  function NoteOption(h: HState, f: Flags): Flags {
    match h
    case ConnKeepAlive => f.(keepAlive := true)
    case ConnClose => f.(close := true)
    case ConnUpgrade => f.(connUpgrade := true)
    case _ => f
  }

  function ConnectionFlag(ps: Parser): Parser { ps.(flags := NoteOption(ps.hstate, ps.flags)) }

  /** What the end of a header line records. */
  function FinishHeader(ps: Parser): Parser {
    ps.(flags := if ps.hstate.TeChunked? then ps.flags.(chunked := true) else NoteOption(ps.hstate, ps.flags))
  }

  function DispatchValue(ps: Parser, ch: Byte): Turn {
    if ch == CR then Next(ps.(state := HeaderAlmostDone), [Flush(ValueData)])
    else if ch == LF then Again(ps.(state := HeaderAlmostDone), [Flush(ValueData)])
    else if !IsHeaderChar(ch) then Fail(InvalidHeaderToken)
    else
      match ValueStep(ps, ch)
      case Good(next) => Next(next, [])
      case Bad(e) => Fail(e)
  }

  function DispatchHeadersAlmostDone(ps: Parser, ch: Byte): Turn {
    if ch != LF then Fail(Strict)
    else if ps.flags.trailing then
      var done := ps.(state := MessageDone);
      Again(done, [Notice(done, ChunkComplete)])
    else if ps.usesTe && ps.flags.contentLength && !(ps.flags.chunked && ps.allowChunkedLength) then
      Fail(UnexpectedContentLength)
    else
      var done := ps.(state := HeadersDone,
                      upgrade := if ps.flags.upgrade && ps.flags.connUpgrade then true else ps.verb.CONNECT?);
      Again(done, [Notice(done, HeadersComplete)])
  }

  predicate HasBody(ps: Parser) {
    ps.flags.chunked || (ps.contentLength > 0 && ps.contentLength != ULLONG_MAX)
  }

  function DispatchHeadersDone(was: Parser, ch: Byte): Turn {
    var ps := was.(nread := 0);
    var done := ps.(state := NewMessage(ps));
    if ch != LF then Fail(Strict)
    else if ps.upgrade && (ps.verb.CONNECT? || !HasBody(ps)) then Exit(done, [Notice(done, MessageComplete)])
    else if ps.flags.chunked then Next(ps.(state := ChunkSizeStart), [])
    else if ps.usesTe then Fail(InvalidTransferEncoding)
    else if ps.contentLength == 0 then Next(done, [Notice(done, MessageComplete)])
    else if ps.contentLength != ULLONG_MAX then Next(ps.(state := BodyIdentity), [])
    else if !MessageNeedsEof(ps) then Next(done, [Notice(done, MessageComplete)])
    else Next(ps.(state := BodyIdentityEof), [])
  }

  /** The header block, from the first header field to the blank line. */
  function DispatchHeaders(ps: Parser, ch: Byte): Turn {
    match ps.state
    case HeaderFieldStart => DispatchFieldStart(ps, ch)
    case HeaderField => DispatchField(ps, ch)
    case HeaderValueDiscardWs =>
      if ch == ' ' || ch == '\t' then Next(ps, [])
      else if ch == CR then Next(ps.(state := HeaderValueDiscardWsAlmostDone), [])
      else if ch == LF then Next(ps.(state := HeaderValueDiscardLws), [])
      else DispatchValueStart(ps, ch)
    case HeaderValueStart => DispatchValueStart(ps, ch)
    case HeaderValue => DispatchValue(ps, ch)
    case HeaderAlmostDone => Expect(ps, ch, LF, HeaderValueLws, LfExpected)
    case HeaderValueLws =>
      if ch == ' ' || ch == '\t' then
        Again(ps.(state := HeaderValueStart,
                  hstate := if ps.hstate.ContentLengthNum? then ContentLengthWs else ps.hstate), [])
      else Again(FinishHeader(ps).(state := HeaderFieldStart), [])
    case HeaderValueDiscardWsAlmostDone => Expect(ps, ch, LF, HeaderValueDiscardLws, Strict)
    case HeaderValueDiscardLws =>
      if ch == ' ' || ch == '\t' then Next(ps.(state := HeaderValueDiscardWs), [])
      else if ps.hstate.ContentLength? then Fail(InvalidContentLength)
      else Again(FinishHeader(ps).(state := HeaderFieldStart), [Mark(ValueData), Flush(ValueData)])
    case HeadersAlmostDone => DispatchHeadersAlmostDone(ps, ch)
    case HeadersDone => DispatchHeadersDone(ps, ch)
    case _ => Fail(AssertionViolated)
  }

  /** The chunk-size line. */
  function DispatchChunkHead(ps: Parser, ch: Byte): Turn {
    match ps.state
    case ChunkSizeStart =>
      if ps.nread != 1 || !ps.flags.chunked then Fail(AssertionViolated)
      else
        (match Unhex(ch)
         case NotHex => Fail(InvalidChunkSize)
         case Hex(v) => Next(ps.(contentLength := v, state := ChunkSize), []))
    case ChunkSize =>
      if !ps.flags.chunked then Fail(AssertionViolated)
      else if ch == CR then Next(ps.(state := ChunkSizeAlmostDone), [])
      else
        (match Unhex(ch)
         case NotHex =>
           if ch == ';' || ch == ' ' then Next(ps.(state := ChunkParameters), []) else Fail(InvalidChunkSize)
         case Hex(v) =>
           if (ULLONG_MAX - 16) / 16 < ps.contentLength then Fail(InvalidContentLength)
           else Next(ps.(contentLength := Wrap64(ps.contentLength * 16 + v)), []))
    case ChunkParameters =>
      if !ps.flags.chunked then Fail(AssertionViolated)
      else if ch == CR then Next(ps.(state := ChunkSizeAlmostDone), [])
      else Next(ps, [])
    case ChunkSizeAlmostDone =>
      if !ps.flags.chunked then Fail(AssertionViolated)
      else if ch != LF then Fail(Strict)
      else
        var sized := if ps.contentLength == 0
                     then ps.(nread := 0, flags := ps.flags.(trailing := true), state := HeaderFieldStart)
                     else ps.(nread := 0, state := ChunkData);
        Next(sized, [Notice(sized, ChunkHeader)])
    case _ => Fail(AssertionViolated)
  }

  /** Body bytes, and the end of the message. A body byte is taken one at a time here, so the
      program's MIN(content_length, bytes left) is 1. */
  function DispatchBody(ps: Parser, ch: Byte): Turn {
    match ps.state
    case BodyIdentity =>
      if ps.contentLength == 0 || ps.contentLength == ULLONG_MAX then Fail(AssertionViolated)
      else if ps.contentLength == 1 then
        Again(ps.(contentLength := 0, state := MessageDone), [Mark(BodyData), FlushThrough(BodyData)])
      else Next(ps.(contentLength := ps.contentLength - 1), [Mark(BodyData)])
    case BodyIdentityEof => Next(ps, [Mark(BodyData)])
    case MessageDone =>
      var done := ps.(state := NewMessage(ps));
      if ps.upgrade then Exit(done, [Notice(done, MessageComplete)])
      else Next(done, [Notice(done, MessageComplete)])
    case ChunkData =>
      if !ps.flags.chunked || ps.contentLength == 0 || ps.contentLength == ULLONG_MAX then Fail(AssertionViolated)
      else
        Next(ps.(contentLength := ps.contentLength - 1,
                 state := if ps.contentLength == 1 then ChunkDataAlmostDone else ChunkData), [Mark(BodyData)])
    case ChunkDataAlmostDone =>
      if !ps.flags.chunked || ps.contentLength != 0 then Fail(AssertionViolated)
      else if ch != CR then Fail(Strict)
      else Next(ps.(state := ChunkDataDone), [Flush(BodyData)])
    case ChunkDataDone =>
      if !ps.flags.chunked then Fail(AssertionViolated)
      else if ch != LF then Fail(Strict)
      else
        var done := ps.(nread := 0, state := ChunkSizeStart);
        Next(done, [Notice(done, ChunkComplete)])
    case _ => Fail(AssertionViolated)
  }

  datatype Part = RequestLine | Headers | ChunkHead | Content

  function PartOf(s: State): Part {
    match s
    case HeaderFieldStart | HeaderField | HeaderValueDiscardWs | HeaderValueDiscardWsAlmostDone
      | HeaderValueDiscardLws | HeaderValueStart | HeaderValue | HeaderValueLws | HeaderAlmostDone
      | HeadersAlmostDone | HeadersDone => Headers
    case ChunkSizeStart | ChunkSize | ChunkParameters | ChunkSizeAlmostDone => ChunkHead
    case ChunkData | ChunkDataAlmostDone | ChunkDataDone | BodyIdentity | BodyIdentityEof | MessageDone => Content
    case _ => RequestLine
  }

  function Dispatch(ps: Parser, ch: Byte): Turn {
    match PartOf(ps.state)
    case RequestLine => DispatchRequestLine(ps, ch)
    case Headers => DispatchHeaders(ps, ch)
    case ChunkHead => DispatchChunkHead(ps, ch)
    case Content => DispatchBody(ps, ch)
  }

  lemma AgainLowersRankInHeaders(ps: Parser, ch: Byte)
    ensures DispatchHeaders(ps, ch).Again? ==> Rank(DispatchHeaders(ps, ch).ps.state) < Rank(ps.state)
  {
    hide Match, ValueStep, FieldStep, IsToken;
  }

  /** A dispatched byte goes round again only in a state of smaller rank. */
  lemma AgainLowersRank(ps: Parser, ch: Byte)
    ensures Dispatch(ps, ch).Again? ==> Rank(Dispatch(ps, ch).ps.state) < Rank(ps.state)
  {
    hide DispatchHeaders;
    AgainLowersRankInHeaders(ps, ch);
  }

  /** What all turns of the switch for one byte amount to. A byte that is refused can have been acted on
      in the turns before the one that refuses it. */
  datatype Fed =
    | Fed(ps: Parser, acts: seq<Act>, exit: bool)
    | Refused(errno: Errno, acts: seq<Act>)

  function Chain(ps: Parser, ch: Byte): Fed
    decreases Rank(ps.state)
  {
    match Dispatch(ps, ch)
    case Next(next, acts) => Fed(next, acts, false)
    case Exit(next, acts) => Fed(next, acts, true)
    case Fail(e) => Refused(e, [])
    case Again(next, acts) =>
      AgainLowersRank(ps, ch);
      match Chain(next, ch)
      case Fed(last, more, exit) => Fed(last, acts + more, exit)
      case Refused(e, more) => Refused(e, acts + more)
  }

  /** COUNT_HEADER_SIZE on the 32-bit counter: None is the overflow error. */
  function CountHeader(nread: nat, v: nat): Option<nat> {
    var n := (nread + v) % UINT32_RANGE;
    if n > MAX_HEADER_SIZE then None else Some(n)
  }

  /** One byte from the top of the loop: the header count, then the switch. */
  function Feed(ps: Parser, ch: Byte): Fed {
    if ParsingHeader(ps.state) then
      match CountHeader(ps.nread, 1)
      case None => Refused(HeaderOverflow, [])
      case Some(n) => Chain(ps.(nread := n), ch)
    else Chain(ps, ch)
  }

  datatype Outcome = Going | Upgraded | Failed

  /** Where a run ends: the parser, the callbacks so far and the bytes consumed. */
  datatype Ran = Ran(ps: Parser, trace: Trace, used: nat, outcome: Outcome)

  /** A call with one byte of input. An error leaves the marks without their callbacks. */
  function Step(ps: Parser, t: Trace, ch: Byte): Ran {
    var fed := Feed(ps, ch);
    var (marks, u) := Play(fed.acts, EntryMarks(ps.state), t, [ch], 0);
    match fed
    case Refused(e, _) => Ran(ps.(errno := e), u, 0, Failed)
    case Fed(next, _, exit) =>
      if exit then Ran(next, u, 1, Upgraded) else Ran(next, FlushAll(marks, u, [ch]), 1, Going)
  }

  /** The reference semantics: one call per byte, until the input ends, an upgrade or an error. */
  function Run(ps: Parser, t: Trace, data: seq<Byte>): Ran
    decreases |data|
  {
    if ps.errno != Ok then Ran(ps, t, 0, Failed)
    else if data == [] then Ran(ps, t, 0, Going)
    else
      var s := Step(ps, t, data[0]);
      if s.outcome != Going then s
      else
        var r := Run(s.ps, s.trace, data[1..]);
        r.(used := 1 + r.used)
  }
}
