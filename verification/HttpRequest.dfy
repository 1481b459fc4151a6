// Whole requests as text: a request line, header lines and a body lead to exactly these callbacks, and to a parser
// that is ready for the next request or closed.

module HttpRequest {
  import opened Words
  import opened Digits
  import opened HttpChars
  import opened HttpParser
  import opened HttpInvariant
  import opened HttpRun
  import opened HttpMarks
  import opened HttpSteps
  import opened HttpNames
  import opened HttpNumbers
  import opened HttpElements
  import F = HttpFraming
  import opened HttpOptions
  import opened HttpCodings
  import opened HttpFields
  import opened HttpHeaders
  import opened HttpChunks
  import L = HttpRequestLine

  // ---------------------------------------------------------------- what the header lines decide

  /** Whether the connection stays open behind a message, by its version and options. */
  predicate StaysOpen(major: nat, minor: nat, f: Flags) { if major > 0 && minor > 0 then !f.close else f.keepAlive }

  /** Both an Upgrade header and the option, or CONNECT. */
  predicate Upgrades(k: Known, m: Method) { (k.flags.upgrade && k.flags.connUpgrade) || m.CONNECT? }

  /** A length beside a transfer coding, unless the coding is chunked and the user allows it. */
  predicate Contradicts(k: Known, allow: bool) { k.usesTe && k.flags.contentLength && !(k.flags.chunked && allow) }

  datatype Shape = Bodiless | ByLength | InChunks | Unframed

  /** How a body is framed: by its length or in chunks, or not at all. */
  function ShapeOf(k: Known, m: Method): Shape {
    if m.CONNECT? then Bodiless
    else if k.flags.chunked then InChunks
    else if k.length == 0 || k.length == ULLONG_MAX then if k.usesTe && !Upgrades(k, m) then Unframed else Bodiless
    else if k.usesTe then Unframed
    else ByLength
  }

  // ---------------------------------------------------------------- the blank line

  lemma HeadTurn(ps: Parser)
    requires ps.state.HeadersAlmostDone? && !ps.flags.trailing && !Contradicts(KnownOf(ps), ps.allowChunkedLength)
    ensures var h := ps.(state := HeadersDone, upgrade := Upgrades(KnownOf(ps), ps.verb));
            Dispatch(ps, LF) == Again(h, [Notice(h, HeadersComplete)])
  {
  }

  lemma DoneTurn(ps: Parser)
    requires ps.state.HeadersDone? && ps.upgrade == Upgrades(KnownOf(ps), ps.verb)
    ensures var h, s := ps.(nread := 0), ShapeOf(KnownOf(ps), ps.verb);
            var done := h.(state := if StaysOpen(ps.major, ps.minor, ps.flags) then StartReq else Dead);
            && (s.Bodiless? ==>
                  Dispatch(ps, LF) == if ps.upgrade then Exit(done, [Notice(done, MessageComplete)])
                                      else Next(done, [Notice(done, MessageComplete)]))
            && (s.ByLength? ==> Dispatch(ps, LF) == Next(h.(state := BodyIdentity), []))
            && (s.InChunks? ==> Dispatch(ps, LF) == Next(h.(state := ChunkSizeStart), []))
  {
  }

  /** The parser behind the head. */
  function AfterHead(ps: Parser): Parser {
    var k := KnownOf(ps);
    ps.(upgrade := Upgrades(k, ps.verb), nread := 0,
        state := match ShapeOf(k, ps.verb)
                 case ByLength => BodyIdentity
                 case InChunks => ChunkSizeStart
                 case _ => if StaysOpen(ps.major, ps.minor, ps.flags) then StartReq else Dead)
  }

  function HeadNote(n: NoteKind, k: Known, m: Method): Event { Note(n, k.length, k.flags.chunked, m.CONNECT?) }

  /** What the application hears at the end of the head: the length that is announced, and the end of a message
      without a body. */
  function HeadTold(k: Known, m: Method): Trace {
    [HeadNote(HeadersComplete, k, m)] + if ShapeOf(k, m).Bodiless? then [HeadNote(MessageComplete, k, m)] else []
  }

  function HeadOutcome(k: Known, m: Method): Outcome {
    if ShapeOf(k, m).Bodiless? && Upgrades(k, m) then Upgraded else Going
  }

  predicate HeadOk(k: Known, m: Method, allow: bool) {
    !k.flags.trailing && !Contradicts(k, allow) && !ShapeOf(k, m).Unframed?
  }

  function HeadActs(ps: Parser): seq<Act> {
    var k := KnownOf(ps);
    [Notify(HeadNote(HeadersComplete, k, ps.verb))]
    + if ShapeOf(k, ps.verb).Bodiless? then [Notify(HeadNote(MessageComplete, k, ps.verb))] else []
  }

  lemma HeadChain(ps: Parser)
    requires ps.state.HeadersAlmostDone? && HeadOk(KnownOf(ps), ps.verb, ps.allowChunkedLength)
    ensures Chain(ps, LF) ==
            Fed(AfterHead(ps), HeadActs(ps), HeadOutcome(KnownOf(ps), ps.verb).Upgraded?)
  {
    hide Dispatch;
    HeadTurn(ps);
    var k := KnownOf(ps);
    var h := ps.(state := HeadersDone, upgrade := Upgrades(k, ps.verb));
    var note := Notice(h, HeadersComplete);
    DoneTurn(h);
    assert KnownOf(h) == k;
    hide Upgrades, StaysOpen;
    var d := Dispatch(h, LF);
    assert Chain(h, LF) == Fed(d.ps, d.acts, d.Exit?);
    ChainAgain(ps, LF, h, [note], d.ps, d.acts, d.Exit?);
  }

  lemma HeadStep(ps: Parser, t: Trace)
    requires Valid(ps) && HeadOk(KnownOf(ps), ps.verb, ps.allowChunkedLength) && ps.nread < MAX_HEADER_SIZE
    requires ps.state.HeaderFieldStart? || ps.state.HeadersAlmostDone?
    ensures Run(ps, t, [LF])
         == Ran(AfterHead(ps), t + HeadTold(KnownOf(ps), ps.verb), 1, HeadOutcome(KnownOf(ps), ps.verb))
    ensures Valid(AfterHead(ps))
  {
    hide Run, Valid, Step, Chain, Dispatch, HeadOk, AfterHead, Emit;
    var counted := ps.(nread := ps.nread + 1);
    var almost := counted.(state := HeadersAlmostDone);
    HeadChain(almost);
    AfterAlike(ps, almost);
    var exit := HeadOutcome(KnownOf(ps), ps.verb).Upgraded?;
    if ps.state.HeaderFieldStart? {
      LineFeedTurn(counted);
      ChainAgain(counted, LF, almost, [], AfterHead(ps), HeadActs(ps), exit);
      assert [] + HeadActs(ps) == HeadActs(ps);
    } else {
      assert counted == almost;
    }
    HeadFed(ps, t);
    RunOne(ps, t, LF);
    StepOk(ps, t, LF);
  }

  lemma AfterAlike(ps: Parser, other: Parser)
    requires other == ps.(state := other.state, nread := other.nread)
    ensures AfterHead(other) == AfterHead(ps) && HeadActs(other) == HeadActs(ps) && KnownOf(other) == KnownOf(ps)
  {
    hide ShapeOf, Upgrades, StaysOpen;
  }

  lemma LineFeedTurn(ps: Parser)
    requires ps.state.HeaderFieldStart?
    ensures Dispatch(ps, LF) == Again(ps.(state := HeadersAlmostDone), [])
    ensures Dispatch(ps, CR) == Next(ps.(state := HeadersAlmostDone), [])
  {
  }

  lemma HeadFed(ps: Parser, t: Trace)
    requires ps.state.HeaderFieldStart? || ps.state.HeadersAlmostDone?
    requires ps.nread < MAX_HEADER_SIZE
    requires Chain(ps.(nread := ps.nread + 1), LF)
          == Fed(AfterHead(ps), HeadActs(ps), HeadOutcome(KnownOf(ps), ps.verb).Upgraded?)
    ensures Step(ps, t, LF)
         == Ran(AfterHead(ps), t + HeadTold(KnownOf(ps), ps.verb), 1, HeadOutcome(KnownOf(ps), ps.verb))
  {
    hide Step, Chain, AfterHead, Upgrades;
    var k, m := KnownOf(ps), ps.verb;
    var a, b := Notify(HeadNote(HeadersComplete, k, m)), Notify(HeadNote(MessageComplete, k, m));
    if ShapeOf(k, m).Bodiless? {
      assert HeadActs(ps) == [a, b];
      NoticesStep(ps, t, LF, AfterHead(ps), a, b, HeadOutcome(k, m).Upgraded?);
      assert t + HeadTold(k, m) == t + [a.event] + [b.event];
    } else {
      assert HeadActs(ps) == [a];
      NoticeStep(ps, t, LF, AfterHead(ps), a);
    }
  }

  /** The blank line ends the head: the application hears the length that the header lines have given. */
  lemma HeadEnds(ps: Parser, t: Trace, eol: seq<Byte>)
    requires Valid(ps) && ps.state.HeaderFieldStart? && HeadOk(KnownOf(ps), ps.verb, ps.allowChunkedLength)
    requires IsEol(eol) && ps.nread + |eol| <= MAX_HEADER_SIZE
    ensures Run(ps, t, eol)
         == Ran(AfterHead(ps), t + HeadTold(KnownOf(ps), ps.verb), |eol|, HeadOutcome(KnownOf(ps), ps.verb))
    ensures Valid(AfterHead(ps))
  {
    hide Run, Valid, Dispatch, HeadOk, AfterHead, HeadTold, HeadOutcome;
    if eol == [LF] {
      HeadStep(ps, t);
    } else {
      var almost := ps.(state := HeadersAlmostDone, nread := ps.nread + 1);
      EmptyRun(ps, t);
      LineFeedTurn(ps.(nread := ps.nread + 1));
      SilentSnoc(ps, t, [], CR, ps, t, almost);
      assert [] + [CR] == [CR];
      HeadStep(almost, t);
      AfterAlike(ps, almost);
      RunConcat(ps, t, [CR], [LF]);
      assert [CR] + [LF] == eol;
    }
  }

  // ---------------------------------------------------------------- the end of a chunked body

  lemma TrailerChain(ps: Parser)
    requires ps.state.HeadersAlmostDone? && ps.flags.trailing
    ensures var k, acts := KnownOf(ps), [Notify(HeadNote(ChunkComplete, KnownOf(ps), ps.verb)),
                                         Notify(HeadNote(MessageComplete, KnownOf(ps), ps.verb))];
            Chain(ps, LF) == Fed(AfterTrailer(ps, 0), acts, ps.upgrade)
  {
    var k, mid := KnownOf(ps), ps.(state := MessageDone);
    var a, b := Notify(HeadNote(ChunkComplete, k, ps.verb)), Notify(HeadNote(MessageComplete, k, ps.verb));
    assert Dispatch(ps, LF) == Again(mid, [a]);
    F.MessageEnds(mid, LF);
    var done := mid.(state := NewMessage(mid));
    assert [a] + [b] == [a, b];
    ChainAgain(ps, LF, mid, [a], done, [b], ps.upgrade);
  }

  function TrailerTold(k: Known, m: Method): Trace {
    [HeadNote(ChunkComplete, k, m), HeadNote(MessageComplete, k, m)]
  }

  function AfterTrailer(ps: Parser, n: nat): Parser {
    ps.(state := if StaysOpen(ps.major, ps.minor, ps.flags) then StartReq else Dead, nread := ps.nread + n)
  }

  lemma TrailerStep(ps: Parser, t: Trace)
    requires Valid(ps) && ps.flags.trailing && ps.nread < MAX_HEADER_SIZE
    requires ps.state.HeaderFieldStart? || ps.state.HeadersAlmostDone?
    ensures Run(ps, t, [LF])
         == Ran(AfterTrailer(ps, 1), t + TrailerTold(KnownOf(ps), ps.verb), 1, if ps.upgrade then Upgraded else Going)
    ensures Valid(AfterTrailer(ps, 1))
  {
    hide Run, Valid, Step, Chain, Dispatch, StaysOpen, Emit;
    var counted := ps.(nread := ps.nread + 1);
    var almost := counted.(state := HeadersAlmostDone);
    TrailerChain(almost);
    var k := KnownOf(ps);
    assert KnownOf(almost) == k;
    var a, b := Notify(HeadNote(ChunkComplete, k, ps.verb)), Notify(HeadNote(MessageComplete, k, ps.verb));
    if ps.state.HeaderFieldStart? {
      LineFeedTurn(counted);
      ChainAgain(counted, LF, almost, [], AfterTrailer(ps, 1), [a, b], ps.upgrade);
      assert [] + [a, b] == [a, b];
    } else {
      assert counted == almost;
    }
    TrailerFed(ps, t, a, b);
    RunOne(ps, t, LF);
    StepOk(ps, t, LF);
  }

  lemma TrailerFed(ps: Parser, t: Trace, a: Act, b: Act)
    requires ps.state.HeaderFieldStart? || ps.state.HeadersAlmostDone?
    requires ps.nread < MAX_HEADER_SIZE && a.Notify? && b.Notify? && a.event.Note? && b.event.Note?
    requires Chain(ps.(nread := ps.nread + 1), LF) == Fed(AfterTrailer(ps, 1), [a, b], ps.upgrade)
    ensures Step(ps, t, LF)
         == Ran(AfterTrailer(ps, 1), t + [a.event, b.event], 1, if ps.upgrade then Upgraded else Going)
  {
    hide Step, Chain, AfterTrailer;
    NoticesStep(ps, t, LF, AfterTrailer(ps, 1), a, b, ps.upgrade);
    assert t + [a.event, b.event] == t + [a.event] + [b.event];
  }

  /** The blank line behind the trailer ends the last chunk and the message. */
  lemma TrailerEnds(ps: Parser, t: Trace, eol: seq<Byte>)
    requires Valid(ps) && ps.state.HeaderFieldStart? && ps.flags.trailing
    requires IsEol(eol) && ps.nread + |eol| <= MAX_HEADER_SIZE
    ensures Run(ps, t, eol)
         == Ran(AfterTrailer(ps, |eol|), t + TrailerTold(KnownOf(ps), ps.verb), |eol|,
                if ps.upgrade then Upgraded else Going)
    ensures Valid(AfterTrailer(ps, |eol|))
  {
    hide Run, Valid, Dispatch, TrailerTold, StaysOpen;
    if eol == [LF] {
      TrailerStep(ps, t);
    } else {
      var almost := ps.(state := HeadersAlmostDone, nread := ps.nread + 1);
      EmptyRun(ps, t);
      LineFeedTurn(ps.(nread := ps.nread + 1));
      SilentSnoc(ps, t, [], CR, ps, t, almost);
      assert [] + [CR] == [CR];
      TrailerStep(almost, t);
      assert KnownOf(almost) == KnownOf(ps);
      RunConcat(ps, t, [CR], [LF]);
      assert [CR] + [LF] == eol;
    }
  }

  // ---------------------------------------------------------------- a request

  datatype Content =
    | Nothing
    | Whole(body: seq<Byte>)
    | Chunks(chunks: seq<Chunk>, size: seq<Byte>, ext: seq<Byte>, trailers: seq<HeaderLine>, eol: seq<Byte>)

  /** A request, with line ends that may come before it. */
  datatype Request =
    Request(lead: seq<Byte>, line: L.RequestLine, fields: seq<HeaderLine>, eol: seq<Byte>, content: Content)

  function ContentText(c: Content): seq<Byte> {
    match c
    case Nothing => []
    case Whole(body) => body
    case Chunks(chunks, size, ext, trailers, eol) =>
      ChunksText(chunks) + SizeLine(size, ext) + LinesText(trailers) + eol
  }

  function HeadText(r: Request): seq<Byte> { r.lead + L.LineText(r.line) + LinesText(r.fields) + r.eol }

  function RequestText(r: Request): seq<Byte> { HeadText(r) + ContentText(r.content) }

  /** What is known when the header lines begin. */
  const START: Known := Known(NO_FLAGS, ULLONG_MAX, false)

  function HeadKnown(r: Request): Known { LearntFrom(START, r.fields) }

  /** The same for the trailer of a chunked body. */
  function TrailerStart(k: Known): Known { Known(k.flags.(trailing := true), 0, k.usesTe) }

  function LastKnown(r: Request): Known {
    if r.content.Chunks? then LearntFrom(TrailerStart(HeadKnown(r)), r.content.trailers) else HeadKnown(r)
  }

  predicate TrailerOk(trailers: seq<HeaderLine>, eol: seq<Byte>, k: Known) {
    LinesOk(trailers) && AllFit(TrailerStart(k), trailers) && IsEol(eol)
    && |LinesText(trailers) + eol| <= MAX_HEADER_SIZE
  }

  /** The content is what the head announces. */
  predicate ContentFits(c: Content, k: Known, m: Method) {
    match ShapeOf(k, m)
    case Bodiless => c.Nothing?
    case ByLength => c.Whole? && |c.body| == k.length
    case InChunks =>
      c.Chunks? && AreChunks(c.chunks) && SizeLineOk(c.size, c.ext) && Hexadecimal(c.size) == 0
      && TrailerOk(c.trailers, c.eol, k)
    case Unframed => false
  }

  predicate IsLead(w: seq<Byte>) { forall i :: 0 <= i < |w| ==> w[i] == CR || w[i] == LF }

  /** A head that is taken by a parser that has counted `nread` header bytes. */
  predicate HeadFits(r: Request, nread: nat, allow: bool) {
    && IsLead(r.lead) && L.LineOk(r.line) && LinesOk(r.fields) && AllFit(START, r.fields) && IsEol(r.eol)
    && nread + |HeadText(r)| <= MAX_HEADER_SIZE
    && !Contradicts(HeadKnown(r), allow) && !ShapeOf(HeadKnown(r), r.line.verb).Unframed?
  }

  /** A request that is taken. */
  predicate RequestOk(r: Request, nread: nat, allow: bool) {
    HeadFits(r, nread, allow) && ContentFits(r.content, HeadKnown(r), r.line.verb)
  }

  /** What the application hears of the content. */
  function ContentTold(c: Content, k: Known, m: Method): Trace {
    match c
    case Nothing => []
    case Whole(body) => [Data(BodyData, body), Note(MessageComplete, 0, k.flags.chunked, m.CONNECT?)]
    case Chunks(chunks, _, _, trailers, _) =>
      ChunksTold(chunks, m) + [SizeTold(0, m)] + LinesTold(trailers)
      + TrailerTold(LearntFrom(TrailerStart(k), trailers), m)
  }

  /** What it hears of the whole request. */
  function RequestTold(r: Request): Trace {
    [L.BeginNote(r.line.verb), Data(UrlData, r.line.url)] + LinesTold(r.fields) + HeadTold(HeadKnown(r), r.line.verb)
    + ContentTold(r.content, HeadKnown(r), r.line.verb)
  }

  predicate Stays(r: Request) {
    StaysOpen(L.MajorOf(r.line.version), L.MinorOf(r.line.version), LastKnown(r).flags)
  }

  /** The header bytes that stay counted behind the message. */
  function Left(c: Content): nat { if c.Chunks? then |LinesText(c.trailers) + c.eol| else 0 }

  function EndOutcome(r: Request): Outcome { if Upgrades(HeadKnown(r), r.line.verb) then Upgraded else Going }

  // ---------------------------------------------------------------- the body

  /** The parser behind a message. */
  predicate Ends(b: Parser, e: Parser, k: Known, left: nat) {
    && e.state == (if StaysOpen(b.major, b.minor, k.flags) then StartReq else Dead)
    && e.nread == left && e.allowChunkedLength == b.allowChunkedLength && e.upgrade == b.upgrade && Valid(e)
  }

  lemma BodyRead(b: Parser, t: Trace, body: seq<Byte>) returns (e: Parser)
    requires Valid(b) && b.state.BodyIdentity? && |body| == b.contentLength && b.nread == 0 && !Joins(t, BodyData)
    ensures Run(b, t, body)
         == Ran(e, t + [Data(BodyData, body), Note(MessageComplete, 0, b.flags.chunked, b.verb.CONNECT?)], |body|,
                if b.upgrade then Upgraded else Going)
    ensures Ends(b, e, KnownOf(b), 0)
  {
    hide Run, Valid, Emit;
    F.WholeBody(b, t, body);
    EmitApart(t, BodyData, body);
    e := b.(contentLength := 0, state := NewMessage(b));
    RunOk(b, t, body);
    NoteApart(t + [Data(BodyData, body)], Notice(e, MessageComplete).event);
  }

  lemma NoteApart(t: Trace, e: Event)
    requires e.Note?
    ensures Emit(t, e) == t + [e]
  {
  }

  lemma LearntTrailing(k: Known, l: HeaderLine)
    ensures Learnt(k, l).flags.trailing == k.flags.trailing
  {
  }

  lemma {:induction false} KeepsTrailing(k: Known, ls: seq<HeaderLine>)
    ensures LearntFrom(k, ls).flags.trailing == k.flags.trailing
    decreases |ls|
  {
    hide Learnt;
    if ls != [] {
      KeepsTrailing(k, ls[..|ls| - 1]);
      LearntTrailing(LearntFrom(k, ls[..|ls| - 1]), ls[|ls| - 1]);
    }
  }

  lemma EolStarts(eol: seq<Byte>)
    requires IsEol(eol)
    ensures eol != [] && !IsBlank(eol[0])
  {
  }

  /** The trailer of a chunked body. */
  lemma TrailerRead(d: Parser, t: Trace, k: Known, ls: seq<HeaderLine>, eol: seq<Byte>) returns (e: Parser)
    requires Valid(d) && d.state.HeaderFieldStart? && d.nread == 0 && KnownOf(d) == TrailerStart(k)
    requires TrailerOk(ls, eol, k) && !Joins(t, FieldData)
    ensures var last := LearntFrom(TrailerStart(k), ls);
            && Run(d, t, LinesText(ls) + eol)
            == Ran(e, t + LinesTold(ls) + TrailerTold(last, d.verb), |LinesText(ls) + eol|,
                   if d.upgrade then Upgraded else Going)
            && Ends(d, e, last, |LinesText(ls) + eol|)
  {
    hide Run, Valid, LinesOk, Leads, AllFit, LearntFrom, TrailerTold, LinesTold, LinesText, IsEol, IsBlank;
    KeepsTrailing(TrailerStart(k), ls);
    var c, u, f := LinesRead(d, t, ls);
    var v := t + LinesTold(ls);
    TrailerEnds(f, v, eol);
    EolStarts(eol);
    LeadsTo(c, u, f, v, eol);
    RunConcat(d, t, LinesText(ls), eol);
    e := AfterTrailer(f, |eol|);
  }

  /** The last chunk: a size of 0 and the trailer. */
  lemma LastChunkRead(m: Parser, t: Trace, k: Known, c: Content) returns (e: Parser)
    requires Valid(m) && m.state.ChunkSizeStart? && m.nread == 0 && c.Chunks?
    requires m.flags == k.flags && m.usesTe == k.usesTe
    requires SizeLineOk(c.size, c.ext) && Hexadecimal(c.size) == 0 && TrailerOk(c.trailers, c.eol, k)
    ensures var w, last := SizeLine(c.size, c.ext) + (LinesText(c.trailers) + c.eol),
                           LearntFrom(TrailerStart(k), c.trailers);
            && Run(m, t, w)
            == Ran(e, t + ([SizeTold(0, m.verb)] + LinesTold(c.trailers) + TrailerTold(last, m.verb)), |w|,
                   if m.upgrade then Upgraded else Going)
            && Ends(m, e, last, Left(c))
  {
    hide Run, Valid, SizeLineOk, Hexadecimal, TrailerOk, SizeLine, LinesText, LinesTold, LearntFrom, TrailerTold,
      StaysOpen;
    SizeLineRead(m, t, c.size, c.ext);
    var d, v := Sized(m, 0), t + [SizeTold(0, m.verb)];
    e := TrailerRead(d, v, k, c.trailers, c.eol);
    RunConcat(m, t, SizeLine(c.size, c.ext), LinesText(c.trailers) + c.eol);
    var last := LearntFrom(TrailerStart(k), c.trailers);
    assert v + LinesTold(c.trailers) + TrailerTold(last, m.verb)
        == t + ([SizeTold(0, m.verb)] + LinesTold(c.trailers) + TrailerTold(last, m.verb));
  }

  /** A chunked body: its chunks in order, the last one and the trailer. */
  lemma ChunkedRead(b: Parser, t: Trace, c: Content) returns (e: Parser)
    requires Valid(b) && b.state.ChunkSizeStart? && b.nread == 0 && c.Chunks? && AreChunks(c.chunks)
    requires SizeLineOk(c.size, c.ext) && Hexadecimal(c.size) == 0 && TrailerOk(c.trailers, c.eol, KnownOf(b))
    ensures Run(b, t, ContentText(c))
         == Ran(e, t + ContentTold(c, KnownOf(b), b.verb), |ContentText(c)|, if b.upgrade then Upgraded else Going)
    ensures Ends(b, e, LearntFrom(TrailerStart(KnownOf(b)), c.trailers), Left(c))
  {
    hide Run, Valid, AreChunks, SizeLineOk, Hexadecimal, TrailerOk, ChunksText, SizeLine, LinesText, LinesTold,
      ChunksTold, LearntFrom, TrailerTold, StaysOpen;
    ChunksRead(b, t, c.chunks);
    var m, u := if c.chunks == [] then b else Emptied(b), t + ChunksTold(c.chunks, b.verb);
    e := LastChunkRead(m, u, KnownOf(b), c);
    var first, rest := ChunksText(c.chunks), SizeLine(c.size, c.ext) + (LinesText(c.trailers) + c.eol);
    RunConcat(b, t, first, rest);
    assert first + rest == ContentText(c);
    var last := LearntFrom(TrailerStart(KnownOf(b)), c.trailers);
    assert u + ([SizeTold(0, b.verb)] + LinesTold(c.trailers) + TrailerTold(last, b.verb))
        == t + ContentTold(c, KnownOf(b), b.verb);
  }

  // ---------------------------------------------------------------- the head

  lemma LeadTurn(ps: Parser, ch: Byte)
    requires ps.state.StartReq? && (ch == CR || ch == LF)
    ensures Dispatch(ps, ch) == Next(ps, [])
  {
  }

  lemma {:induction false} LeadRead(ps: Parser, t: Trace, w: seq<Byte>)
    requires Valid(ps) && ps.state.StartReq? && IsLead(w) && ps.nread + |w| <= MAX_HEADER_SIZE
    ensures var next := ps.(nread := ps.nread + |w|);
            Run(ps, t, w) == Ran(next, t, |w|, Going) && Valid(next)
    decreases |w|
  {
    hide Run, Valid, Dispatch;
    if w == [] {
      EmptyRun(ps, t);
    } else {
      var u, c := w[..|w| - 1], w[|w| - 1];
      assert w == u + [c];
      LeadRead(ps, t, u);
      LeadTurn(ps.(nread := ps.nread + |w|), c);
      SilentSnoc(ps, t, u, c, ps.(nread := ps.nread + |u|), t, ps.(nread := ps.nread + |w|));
    }
  }

  /** Where the header lines of a request begin. */
  predicate AtFields(ps: Parser, q: Parser, r: Request, n: nat) {
    && q == ps.(state := HeaderFieldStart, verb := r.line.verb, major := L.MajorOf(r.line.version),
                minor := L.MinorOf(r.line.version), flags := NO_FLAGS, usesTe := false, contentLength := ULLONG_MAX,
                index := q.index, nread := ps.nread + n)
    && Valid(q)
  }

  lemma LinesBegin(ps: Parser, t: Trace, r: Request) returns (q: Parser)
    requires Valid(ps) && ps.state.StartReq? && HeadFits(r, ps.nread, ps.allowChunkedLength)
    ensures var w := r.lead + L.LineText(r.line);
            && Run(ps, t, w) == Ran(q, t + [L.BeginNote(r.line.verb), Data(UrlData, r.line.url)], |w|, Going)
            && AtFields(ps, q, r, |w|)
  {
    hide Run, Valid, L.LineText, L.LineOk, L.BeginNote, IsLead, LinesOk, AllFit, Contradicts, ShapeOf, LinesText;
    LeadRead(ps, t, r.lead);
    var p := ps.(nread := ps.nread + |r.lead|);
    L.RequestLineRead(p, t, r.line);
    RunConcat(ps, t, r.lead, L.LineText(r.line));
    q := L.BehindLine(p, r.line);
  }

  /** The parser behind the head of a request. */
  predicate AtContent(ps: Parser, b: Parser, r: Request) {
    var k, m := HeadKnown(r), r.line.verb;
    && Valid(b) && b.nread == 0 && b.verb == m && b.allowChunkedLength == ps.allowChunkedLength
    && b.major == L.MajorOf(r.line.version) && b.minor == L.MinorOf(r.line.version)
    && KnownOf(b) == k && b.upgrade == Upgrades(k, m)
    && b.state == match ShapeOf(k, m)
                  case ByLength => BodyIdentity
                  case InChunks => ChunkSizeStart
                  case _ => if StaysOpen(b.major, b.minor, k.flags) then StartReq else Dead
  }

  lemma HeadIsOk(r: Request, nread: nat, allow: bool)
    requires HeadFits(r, nread, allow)
    ensures HeadOk(HeadKnown(r), r.line.verb, allow)
  {
    KeepsTrailing(START, r.fields);
    hide L.LineOk, LearntFrom, AllFit, LinesOk, Contradicts, LinesText, L.LineText, IsLead, ShapeOf;
  }

  /** The head of a request: its line, its header lines and the blank line. */
  lemma HeadRead(ps: Parser, t: Trace, r: Request) returns (b: Parser)
    requires Valid(ps) && ps.state.StartReq? && HeadFits(r, ps.nread, ps.allowChunkedLength)
    ensures var k, m := HeadKnown(r), r.line.verb;
            Run(ps, t, HeadText(r))
            == Ran(b, t + [L.BeginNote(m), Data(UrlData, r.line.url)] + LinesTold(r.fields) + HeadTold(k, m),
                   |HeadText(r)|, HeadOutcome(k, m))
    ensures AtContent(ps, b, r)
  {
    hide Run, Valid, L.LineText, L.LineOk, L.BeginNote, IsLead, LinesOk, AllFit, HeadOk, LinesText,
      Leads, LinesTold, HeadTold, HeadOutcome, LearntFrom, IsEol, IsBlank, Upgrades, StaysOpen, ShapeOf;
    HeadIsOk(r, ps.nread, ps.allowChunkedLength);
    var q := LinesBegin(ps, t, r);
    var w := r.lead + L.LineText(r.line);
    var s := t + [L.BeginNote(r.line.verb), Data(UrlData, r.line.url)];
    var c, u, f := LinesRead(q, s, r.fields);
    RunConcat(ps, t, w, LinesText(r.fields));
    var v := s + LinesTold(r.fields);
    HeadEnds(f, v, r.eol);
    EolStarts(r.eol);
    OutcomeIsFine(KnownOf(f), f.verb);
    LeadsTo(c, u, f, v, r.eol);
    RunConcat(ps, t, w + LinesText(r.fields), r.eol);
    b := AfterHead(f);
  }

  lemma OutcomeIsFine(k: Known, m: Method)
    ensures !HeadOutcome(k, m).Failed?
  {
  }

  // ---------------------------------------------------------------- whole requests

  lemma ContentRead(b: Parser, t: Trace, ps: Parser, r: Request) returns (e: Parser)
    requires AtContent(ps, b, r) && ContentFits(r.content, HeadKnown(r), r.line.verb)
    requires HeadOutcome(HeadKnown(r), r.line.verb).Going? && !Joins(t, BodyData) && !Joins(t, FieldData)
    ensures Run(b, t, ContentText(r.content))
         == Ran(e, t + ContentTold(r.content, HeadKnown(r), r.line.verb), |ContentText(r.content)|, EndOutcome(r))
    ensures Ends(b, e, LastKnown(r), Left(r.content))
  {
    hide Run, Valid, L.LineOk, LearntFrom, StaysOpen, Upgrades, TrailerTold, LinesTold, ChunksTold, ChunksText,
      SizeLine, LinesText, AreChunks, SizeLineOk, TrailerOk, Hexadecimal;
    var k, m := HeadKnown(r), r.line.verb;
    if ShapeOf(k, m).Bodiless? {
      EmptyRun(b, t);
      assert t + ContentTold(r.content, k, m) == t;
      e := b;
    } else if ShapeOf(k, m).ByLength? {
      e := BodyRead(b, t, r.content.body);
    } else {
      e := ChunkedRead(b, t, r.content);
    }
  }

  /** A request is read as what it says: the application hears its method, its URL, its header lines, the length its
      head announces and exactly its body, and the parser is then ready for the next request or closed. */
  lemma RequestRead(ps: Parser, t: Trace, r: Request) returns (e: Parser)
    requires Valid(ps) && ps.state.StartReq? && RequestOk(r, ps.nread, ps.allowChunkedLength)
    ensures Run(ps, t, RequestText(r)) == Ran(e, t + RequestTold(r), |RequestText(r)|, EndOutcome(r))
    ensures e.state == (if Stays(r) then StartReq else Dead) && e.nread == Left(r.content) && Valid(e)
    ensures e.allowChunkedLength == ps.allowChunkedLength && e.upgrade == Upgrades(HeadKnown(r), r.line.verb)
  {
    hide Run, Valid, HeadFits, L.BeginNote, ContentFits, HeadText, LinesTold, HeadTold, LearntFrom, Upgrades, StaysOpen,
      ContentTold, ContentText;
    var b := HeadRead(ps, t, r);
    var k, m := HeadKnown(r), r.line.verb;
    var u := t + [L.BeginNote(m), Data(UrlData, r.line.url)] + LinesTold(r.fields) + HeadTold(k, m);
    HeadIsNote(t + [L.BeginNote(m), Data(UrlData, r.line.url)] + LinesTold(r.fields), k, m);
    assert u + ContentTold(r.content, k, m) == t + RequestTold(r);
    RunConcat(ps, t, HeadText(r), ContentText(r.content));
    if HeadOutcome(k, m).Going? {
      e := ContentRead(b, u, ps, r);
    } else {
      NoContent(r);
      assert u == t + RequestTold(r) && RequestText(r) == HeadText(r);
      e := b;
    }
  }

  lemma HeadIsNote(t: Trace, k: Known, m: Method)
    ensures !Joins(t + HeadTold(k, m), BodyData) && !Joins(t + HeadTold(k, m), FieldData)
  {
    hide ShapeOf;
  }

  lemma NoContent(r: Request)
    requires ContentFits(r.content, HeadKnown(r), r.line.verb) && !HeadOutcome(HeadKnown(r), r.line.verb).Going?
    ensures ContentText(r.content) == [] && ContentTold(r.content, HeadKnown(r), r.line.verb) == []
    ensures r.content.Nothing? && EndOutcome(r).Upgraded?
  {
    hide LearntFrom;
  }

  // ---------------------------------------------------------------- requests one behind the other

  /** Requests that are taken one behind the other: only the last one may upgrade or close the connection. */
  predicate RequestsOk(rs: seq<Request>, nread: nat, allow: bool) {
    rs != [] ==>
      && RequestOk(rs[0], nread, allow)
      && (|rs| > 1 ==> Stays(rs[0]) && EndOutcome(rs[0]).Going?)
      && RequestsOk(rs[1..], Left(rs[0].content), allow)
  }

  function Texts(rs: seq<Request>): seq<Byte> { if rs == [] then [] else RequestText(rs[0]) + Texts(rs[1..]) }

  function AllTold(rs: seq<Request>): Trace { if rs == [] then [] else RequestTold(rs[0]) + AllTold(rs[1..]) }

  /** Requests that follow each other are each read as what they say. */
  lemma {:induction false} RequestsRead(ps: Parser, t: Trace, rs: seq<Request>)
    requires Valid(ps) && ps.state.StartReq? && RequestsOk(rs, ps.nread, ps.allowChunkedLength)
    ensures var r := Run(ps, t, Texts(rs));
            && r.trace == t + AllTold(rs) && r.used == |Texts(rs)| && Valid(r.ps)
            && r.outcome == (if rs == [] then Going else EndOutcome(rs[|rs| - 1]))
            && r.ps.state == (if rs == [] || Stays(rs[|rs| - 1]) then StartReq else Dead)
            && r.ps.nread == (if rs == [] then ps.nread else Left(rs[|rs| - 1].content))
    decreases |rs|
  {
    hide Run, Valid, RequestOk, RequestsOk, RequestText, RequestTold, Texts, AllTold, Stays, EndOutcome, Left;
    FirstText(rs);
    if rs == [] {
      EmptyRun(ps, t);
      assert t + AllTold(rs) == t;
    } else {
      FirstIsOk(rs, ps.nread, ps.allowChunkedLength);
      var e := RequestRead(ps, t, rs[0]);
      var rest := rs[1..];
      FirstText(rest);
      RunConcat(ps, t, RequestText(rs[0]), Texts(rest));
      assert t + RequestTold(rs[0]) + AllTold(rest) == t + AllTold(rs);
      if rest == [] {
        assert RequestText(rs[0]) + Texts(rest) == RequestText(rs[0]);
        assert t + RequestTold(rs[0]) + [] == t + RequestTold(rs[0]);
      } else {
        assert rest[|rest| - 1] == rs[|rs| - 1];
        RequestsRead(e, t + RequestTold(rs[0]), rest);
      }
    }
  }

  lemma FirstText(rs: seq<Request>)
    ensures rs == [] ==> Texts(rs) == [] && AllTold(rs) == []
    ensures rs != [] ==>
              && Texts(rs) == RequestText(rs[0]) + Texts(rs[1..])
              && AllTold(rs) == RequestTold(rs[0]) + AllTold(rs[1..])
  {
    hide RequestText, RequestTold;
  }

  lemma FirstIsOk(rs: seq<Request>, nread: nat, allow: bool)
    requires rs != [] && RequestsOk(rs, nread, allow)
    ensures RequestOk(rs[0], nread, allow)
    ensures |rs| > 1 ==> Stays(rs[0]) && EndOutcome(rs[0]).Going? && RequestsOk(rs[1..], Left(rs[0].content), allow)
  {
    hide RequestOk, Stays, EndOutcome;
  }

  // ---------------------------------------------------------------- one Content-Length

  /** The only line that speaks of the length is the one at `i`, and none of a transfer coding. */
  predicate OnlyLength(ls: seq<HeaderLine>, i: nat) {
    && i < |ls| && Tokens(ls[i].name) == CONTENT_LENGTH
    && forall j :: 0 <= j < |ls| ==> !(TRANSFER_ENCODING <= Tokens(ls[j].name))
                                     && (j != i ==> Tokens(ls[j].name) != CONTENT_LENGTH)
  }

  lemma LengthLearnt(k: Known, l: HeaderLine)
    requires !(TRANSFER_ENCODING <= Tokens(l.name)) && (Tokens(l.name) == CONTENT_LENGTH ==> l.value != [])
    ensures var n, isLength := Learnt(k, l), Tokens(l.name) == CONTENT_LENGTH;
            && n.usesTe == k.usesTe && n.flags.chunked == k.flags.chunked
            && (n.flags.contentLength <==> k.flags.contentLength || isLength)
            && n.length == if isLength then LengthOf(l.value) else k.length
  {
    NamesDiffer();
    hide CONNECTION, PROXY_CONNECTION, CONTENT_LENGTH, TRANSFER_ENCODING, UPGRADE, LengthOf, Heard, LastHeard;
  }

  lemma {:induction false} LengthUpTo(ls: seq<HeaderLine>, i: nat, n: nat)
    requires OnlyLength(ls, i) && n <= |ls| && ls[i].value != [] && IsLengthValue(ls[i].value)
    ensures var k := LearntFrom(START, ls[..n]);
            && AllFit(START, ls[..n]) && !k.usesTe && !k.flags.chunked && (k.flags.contentLength <==> i < n)
            && k.length == if i < n then LengthOf(ls[i].value) else ULLONG_MAX
    decreases n
  {
    hide IsLengthValue, LengthOf, Tokens, CONTENT_LENGTH, TRANSFER_ENCODING, Learnt;
    if n > 0 {
      assert ls[..n][..n - 1] == ls[..n - 1];
      LengthUpTo(ls, i, n - 1);
      LengthLearnt(LearntFrom(START, ls[..n - 1]), ls[n - 1]);
    }
  }

  /** The digits of a length that is taken. */
  predicate IsNumber(ds: seq<Byte>) {
    ds != [] && (forall j :: 0 <= j < |ds| ==> IsDigit(ds[j])) && Value(ds) < UINT64_RANGE - 6
  }

  lemma {:induction false} DigitsMarked(ds: seq<Byte>)
    requires IsNumber(ds)
    ensures IsLengthValue(Chars(ds)) && LengthOf(Chars(ds)) == Value(ds) < UINT64_RANGE - 6 && Chars(ds) != []
  {
    hide Leading, Value;
    CharsSent(ds);
    AllLeading(ds);
    assert ds[..|ds|] == ds;
    AllButLast(ds);
  }

  lemma AllButLast(ds: seq<Byte>)
    requires IsNumber(ds)
    ensures Value(ds[..|ds| - 1]) <= DECIMAL_GUARD
  {
    assert Value(ds) == Value(ds[..|ds| - 1]) * 10 + DigitValue(ds[|ds| - 1]);
  }

  /** What the application hears of a request with the body `body`. */
  function BodyTold(r: Request, body: seq<Byte>): Trace {
    [L.BeginNote(r.line.verb), Data(UrlData, r.line.url)] + LinesTold(r.fields)
    + [Note(HeadersComplete, |body|, false, false)]
    + (if body == [] then [] else [Data(BodyData, body)])
    + [Note(MessageComplete, 0, false, false)]
  }

  lemma LengthKnown(r: Request, i: nat)
    requires OnlyLength(r.fields, i) && r.fields[i].value != [] && IsLengthValue(r.fields[i].value)
    ensures AllFit(START, r.fields) && HeadKnown(r).length == LengthOf(r.fields[i].value)
    ensures !HeadKnown(r).usesTe && !HeadKnown(r).flags.chunked
  {
    hide IsLengthValue, LengthOf, AllFit, LearntFrom, Tokens, CONTENT_LENGTH, TRANSFER_ENCODING;
    LengthUpTo(r.fields, i, |r.fields|);
    assert r.fields[..|r.fields|] == r.fields;
  }

  /** The content that fits such a head, and what is heard of it. */
  lemma LengthShape(k: Known, m: Method, body: seq<Byte>, c: Content)
    requires k.length == |body| < UINT64_RANGE - 6 && !k.usesTe && !k.flags.chunked && !Upgrades(k, m)
    requires c == if body == [] then Nothing else Whole(body)
    ensures forall allow :: !Contradicts(k, allow)
    ensures ContentFits(c, k, m) && !ShapeOf(k, m).Unframed?
    ensures HeadTold(k, m) + ContentTold(c, k, m)
         == [Note(HeadersComplete, |body|, false, false)] + (if body == [] then [] else [Data(BodyData, body)])
            + [Note(MessageComplete, 0, false, false)]
  {
  }

  lemma LengthIsOk(allow: bool, r: Request, i: nat, body: seq<Byte>)
    requires IsLead(r.lead) && L.LineOk(r.line) && LinesOk(r.fields) && IsEol(r.eol) && |HeadText(r)| <= MAX_HEADER_SIZE
    requires OnlyLength(r.fields, i) && r.fields[i].value != [] && IsLengthValue(r.fields[i].value)
    requires |body| == LengthOf(r.fields[i].value) < UINT64_RANGE - 6
    requires !Upgrades(HeadKnown(r), r.line.verb) && r.content == if body == [] then Nothing else Whole(body)
    ensures RequestOk(r, 0, allow) && EndOutcome(r).Going? && RequestTold(r) == BodyTold(r, body)
    ensures ContentText(r.content) == body && LastKnown(r) == HeadKnown(r)
  {
    hide IsLead, L.LineOk, LinesOk, IsEol, HeadText, LengthOf, AllFit, LearntFrom, L.BeginNote, LinesTold,
      HeadTold, ContentTold, ContentFits, Upgrades, Contradicts, IsLengthValue, Tokens, CONTENT_LENGTH,
      TRANSFER_ENCODING;
    LengthKnown(r, i);
    LengthShape(HeadKnown(r), r.line.verb, body, r.content);
    var before := [L.BeginNote(r.line.verb), Data(UrlData, r.line.url)] + LinesTold(r.fields);
    var k, m := HeadKnown(r), r.line.verb;
    assert RequestTold(r) == before + (HeadTold(k, m) + ContentTold(r.content, k, m));
  }

  /** A request with one Content-Length, and no transfer coding, has exactly the body that its digits announce. */
  lemma LengthDeliversBody(allow: bool, r: Request, i: nat, ds: seq<Byte>, body: seq<Byte>)
    requires IsLead(r.lead) && L.LineOk(r.line) && LinesOk(r.fields) && IsEol(r.eol) && |HeadText(r)| <= MAX_HEADER_SIZE
    requires OnlyLength(r.fields, i) && r.fields[i].value == Chars(ds) && IsNumber(ds) && |body| == Value(ds)
    requires !Upgrades(HeadKnown(r), r.line.verb)
    ensures var e, v, f := Run(Init(allow), [], HeadText(r) + body), r.line.version, HeadKnown(r).flags;
            && e.outcome.Going? && e.used == |HeadText(r)| + |body| && e.trace == BodyTold(r, body)
            && e.ps.state == (if StaysOpen(L.MajorOf(v), L.MinorOf(v), f) then StartReq else Dead)
  {
    hide Run, Valid, IsLead, L.LineOk, LinesOk, IsEol, OnlyLength, Value, Upgrades, StaysOpen, LearntFrom, RequestOk,
      RequestTold, BodyTold, LinesText, L.LineText, IsNumber, IsLengthValue, LengthOf;
    var q := r.(content := if body == [] then Nothing else Whole(body));
    SameHead(r, q, body);
    DigitsMarked(ds);
    LengthIsOk(allow, q, i, body);
    InitValid(allow);
    var e := RequestRead(Init(allow), [], q);
    assert [] + RequestTold(q) == RequestTold(q);
  }

  lemma SameHead(r: Request, q: Request, body: seq<Byte>)
    requires q == r.(content := q.content)
    ensures HeadText(q) == HeadText(r) && HeadKnown(q) == HeadKnown(r) && BodyTold(q, body) == BodyTold(r, body)
  {
  }
}
