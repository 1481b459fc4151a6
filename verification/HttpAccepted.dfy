// The language of the parser: what it takes is a list of well-formed requests, and nothing else.

module HttpAccepted {
  import opened Words
  import opened HttpChars
  import opened HttpParser
  import opened HttpInvariant
  import opened HttpRun
  import opened HttpSteps
  import opened HttpNumbers
  import opened HttpElements
  import opened HttpLines
  import opened HttpOptions
  import opened HttpFields
  import opened HttpHeaders
  import opened HttpChunks
  import opened HttpRequest
  import opened HttpShapes
  import opened HttpHeaderShapes
  import F = HttpFraming
  import L = HttpRequestLine

  // ---------------------------------------------------------------- a size line

  lemma SizeFlow(ps: Parser, ch: Byte)
    requires ps.flags.chunked && !Dispatch(ps, ch).Fail?
    ensures ps.state.ChunkSizeStart? ==>
              Unhex(ch).Hex? && Dispatch(ps, ch).Next? && Dispatch(ps, ch).ps.state.ChunkSize?
              && Dispatch(ps, ch).ps.nread == ps.nread
    ensures ps.state.ChunkSize? && ch != CR ==>
              var d := Dispatch(ps, ch);
              && d.Next? && d.ps.nread == ps.nread
              && if Unhex(ch).Hex? then d.ps.state.ChunkSize?
                 else (ch == ';' || ch == ' ') && d.ps.state.ChunkParameters?
    ensures ps.state.ChunkParameters? && ch != CR ==> Dispatch(ps, ch) == Next(ps, [])
    ensures ps.state.ChunkSizeAlmostDone? ==> ch == LF
  {
    hide Unhex;
  }

  lemma SizeLineEnd(ps: Parser, t: Trace, data: seq<Byte>) returns (rest: seq<Byte>)
    requires Valid(ps) && (ps.state.ChunkSize? || ps.state.ChunkParameters?) && Complete(ps, t, data)
    requires data != [] && data[0] == CR
    ensures data == LINE_END + rest && ps.nread + 2 <= MAX_HEADER_SIZE
  {
    hide Valid, Complete, Step, Dispatch, Unhex;
    AtSize(ps);
    FirstTaken(ps, t, data);
    TurnTaken(ps, t, data[0]);
    SizeTurns(ps.(nread := ps.nread + 1), CR);
    var q, u := Peel(ps, t, data);
    FirstTaken(q, u, data[1..]);
    TurnTaken(q, u, data[1]);
    SizeFlow(q.(nread := q.nread + 1), data[1]);
    rest := data[2..];
  }

  lemma {:induction false} ExtensionRest(ps: Parser, t: Trace, data: seq<Byte>)
    returns (x: seq<Byte>, rest: seq<Byte>)
    requires Valid(ps) && ps.state.ChunkParameters? && Complete(ps, t, data)
    ensures data == x + LINE_END + rest && (forall i :: 0 <= i < |x| ==> x[i] != CR)
    ensures ps.nread + |x| + 2 <= MAX_HEADER_SIZE
    decreases |data|
  {
    hide Valid, Complete, Step, Dispatch, Unhex;
    AtSize(ps);
    FirstTaken(ps, t, data);
    TurnTaken(ps, t, data[0]);
    if data[0] == CR {
      rest := SizeLineEnd(ps, t, data);
      x := [];
    } else {
      SizeFlow(ps.(nread := ps.nread + 1), data[0]);
      var q, u := Peel(ps, t, data);
      var y;
      y, rest := ExtensionRest(q, u, data[1..]);
      x := [data[0]] + y;
      assert data == [data[0]] + (y + LINE_END + rest);
    }
  }

  lemma {:induction false} SizeRest(ps: Parser, t: Trace, data: seq<Byte>)
    returns (hs: seq<Byte>, ext: seq<Byte>, rest: seq<Byte>)
    requires Valid(ps) && ps.state.ChunkSize? && Complete(ps, t, data)
    ensures data == hs + ext + LINE_END + rest && AllHex(hs) && IsExtension(ext)
    ensures ps.nread + |hs + ext| + 2 <= MAX_HEADER_SIZE
    decreases |data|
  {
    hide Valid, Complete, Step, Dispatch, Unhex;
    AtSize(ps);
    FirstTaken(ps, t, data);
    TurnTaken(ps, t, data[0]);
    if data[0] == CR {
      rest := SizeLineEnd(ps, t, data);
      hs, ext := [], [];
      assert data == [] + [] + LINE_END + rest;
    } else {
      SizeFlow(ps.(nread := ps.nread + 1), data[0]);
      var q, u := Peel(ps, t, data);
      if Unhex(data[0]).Hex? {
        var more;
        more, ext, rest := SizeRest(q, u, data[1..]);
        hs := [data[0]] + more;
        assert data == [data[0]] + (more + ext + LINE_END + rest);
      } else {
        var y;
        y, rest := ExtensionRest(q, u, data[1..]);
        hs, ext := [], [data[0]] + y;
        assert data == [data[0]] + (y + LINE_END + rest) && hs + ext == ext;
        BeginsExtension(data[0], y);
      }
    }
  }

  lemma BeginsExtension(c: Byte, y: seq<Byte>)
    requires (c == ';' || c == ' ') && forall i :: 0 <= i < |y| ==> y[i] != CR
    ensures IsExtension([c] + y)
  {
  }

  /** What is taken as a chunk begins with a size line. */
  lemma SizeShape(ps: Parser, t: Trace, data: seq<Byte>)
    returns (size: seq<Byte>, ext: seq<Byte>, rest: seq<Byte>)
    requires Valid(ps) && ps.state.ChunkSizeStart? && Complete(ps, t, data)
    ensures data == SizeLine(size, ext) + rest && SizeLineOk(size, ext)
  {
    hide Valid, Complete, Step, Dispatch, Unhex, Run, Hexadecimal;
    AtSizeStart(ps);
    FirstTaken(ps, t, data);
    TurnTaken(ps, t, data[0]);
    SizeFlow(ps.(nread := ps.nread + 1), data[0]);
    var q, u := Peel(ps, t, data);
    var more;
    more, ext, rest := SizeRest(q, u, data[1..]);
    size := [data[0]] + more;
    assert data == [data[0]] + (more + ext + LINE_END + rest);
    assert data == size + (ext + LINE_END + rest);
    PrefixGoes(ps, t, size, ext + LINE_END + rest);
    ChunkSizeExact(ps, t, size);
    assert |SizeLine(size, ext)| == 1 + |more + ext| + 2;
  }

  // ---------------------------------------------------------------- a chunk

  lemma ChunkEndFlow(ps: Parser, t: Trace, ch: Byte)
    requires !Step(ps, t, ch).outcome.Failed?
    ensures ps.state.ChunkDataAlmostDone? ==> ch == CR
    ensures ps.state.ChunkDataDone? ==> ch == LF
  {
    hide Play, FlushAll;
  }

  /** The bytes of a chunk and its line end. */
  lemma DataShape(a: Parser, t: Trace, data: seq<Byte>) returns (d: seq<Byte>, rest: seq<Byte>)
    requires Valid(a) && a.state.ChunkData? && Complete(a, t, data) && a.flags.chunked
    ensures data == d + LINE_END + rest && |d| == a.contentLength
  {
    hide Valid, Complete, Step, Run, Emit;
    DataThere(a, t, data);
    d := data[..a.contentLength];
    var b := data[a.contentLength..];
    assert data == d + b;
    F.WholeChunk(a, t, d);
    RunOk(a, t, d);
    CompleteRest(a, t, d, b);
    var p, u := Run(a, t, d).ps, Run(a, t, d).trace;
    FirstTaken(p, u, b);
    ChunkEndFlow(p, u, b[0]);
    ChunkEndCr(p, u);
    var q := Step(p, u, CR).ps;
    var v := StepOff(p, u, b, q);
    FirstTaken(q, v, b[1..]);
    ChunkEndFlow(q, v, b[1..][0]);
    rest := b[1..][1..];
    assert b == LINE_END + rest;
  }

  lemma DataThere(a: Parser, t: Trace, data: seq<Byte>)
    requires Valid(a) && (a.state.ChunkData? || a.state.BodyIdentity?) && Complete(a, t, data)
    ensures |data| >= a.contentLength
  {
    hide Valid, Run, Emit;
    if data == [] {
      FirstTaken(a, t, data);
    } else if |data| < a.contentLength {
      F.BodyInOrder(a, t, data);
    }
  }

  /** Chunks up to the last one: `done` are those that have been read before. */
  lemma {:induction false} ChunksShape(m: Parser, t: Trace, data: seq<Byte>, done: seq<Chunk>)
    returns (cs: seq<Chunk>, size: seq<Byte>, ext: seq<Byte>, rest: seq<Byte>)
    requires Valid(m) && m.state.ChunkSizeStart? && Complete(m, t, data) && AreChunks(done)
    ensures ChunksText(done) + data == ChunksText(cs) + SizeLine(size, ext) + rest && AreChunks(cs)
    ensures SizeLineOk(size, ext) && Hexadecimal(size) == 0
    decreases |data|
  {
    hide Valid, Complete, Run, SizeLineOk, Hexadecimal, SizeLine, ChunksText, IsChunk, ChunkText, Sized;
    size, ext, rest := SizeShape(m, t, data);
    LineDigits(size, ext);
    var n, line := Hexadecimal(size), SizeLine(size, ext);
    if n == 0 {
      cs := done;
      assert ChunksText(done) + (line + rest) == ChunksText(done) + line + rest;
    } else {
      SizeLineRead(m, t, size, ext);
      var u := t + [SizeTold(n, m.verb)];
      RanRest(m, t, line, rest, Sized(m, n), u);
      AtSizeStart(m);
      AtData(m, n);
      var d, a := DataShape(Sized(m, n), u, rest);
      var c := Chunk(size, ext, d);
      OneChunk(c, a);
      ChunkRead(m, t, c);
      RanRest(m, t, ChunkText(c), a, Emptied(m), t + ChunkTold(c, m.verb));
      OneChunkMore(done, c);
      assert data == ChunkText(c) + a;
      assert ChunksText(done) + (ChunkText(c) + a) == ChunksText(done) + ChunkText(c) + a;
      cs, size, ext, rest := ChunksShape(Emptied(m), t + ChunkTold(c, m.verb), a, done + [c]);
    }
  }

  lemma LineDigits(size: seq<Byte>, ext: seq<Byte>)
    requires SizeLineOk(size, ext)
    ensures AllHex(size)
  {
  }

  lemma AtData(m: Parser, n: nat)
    requires n > 0
    ensures var a := Sized(m, n);
            a.state.ChunkData? && a.contentLength == n && a.flags == m.flags
  {
  }

  lemma OneChunk(c: Chunk, a: seq<Byte>)
    requires SizeLineOk(c.size, c.ext) && 0 < |c.data| == Hexadecimal(c.size)
    ensures IsChunk(c) && SizeLine(c.size, c.ext) + (c.data + LINE_END + a) == ChunkText(c) + a && |ChunkText(c)| > 0
  {
    hide SizeLineOk, Hexadecimal, SizeLine;
  }

  lemma OneChunkMore(done: seq<Chunk>, c: Chunk)
    requires AreChunks(done) && IsChunk(c)
    ensures AreChunks(done + [c]) && ChunksText(done + [c]) == ChunksText(done) + ChunkText(c)
  {
    hide IsChunk, ChunkText;
    assert (done + [c])[..|done|] == done;
  }

  // ---------------------------------------------------------------- the body

  lemma LinesNone(data: seq<Byte>)
    ensures LinesText([]) + data == data && ChunksText([]) + data == data
    ensures forall k :: AllFit(k, []) && LearntFrom(k, []) == k
    ensures LinesOk([]) && AreChunks([])
  {
  }

  lemma TrailerShape(d: Parser, t: Trace, data: seq<Byte>, k: Known)
    returns (trailers: seq<HeaderLine>, eol: seq<Byte>, rest: seq<Byte>)
    requires Valid(d) && d.state.HeaderFieldStart? && d.nread == 0 && KnownOf(d) == TrailerStart(k)
    requires Complete(d, t, data) && !Joins(t, FieldData)
    ensures TrailerOk(trailers, eol, k) && data == LinesText(trailers) + eol + rest
  {
    hide Valid, Complete, LinesOk, AllFit, LearntFrom, LinesText, IsEol;
    LinesNone(data);
    trailers, eol, rest := LinesShape(d, t, data, TrailerStart(k), []);
    LinesNone([]);
  }

  lemma ChunkedShape(b: Parser, t: Trace, data: seq<Byte>) returns (c: Content, rest: seq<Byte>)
    requires Valid(b) && b.state.ChunkSizeStart? && b.nread == 0 && Complete(b, t, data)
    ensures c.Chunks? && data == ContentText(c) + rest && AreChunks(c.chunks)
    ensures SizeLineOk(c.size, c.ext) && Hexadecimal(c.size) == 0 && TrailerOk(c.trailers, c.eol, KnownOf(b))
  {
    hide Valid, Complete, Run, AreChunks, SizeLineOk, Hexadecimal, TrailerOk, ChunksText, SizeLine, LinesText,
      ChunksTold;
    LinesNone(data);
    var cs, size, ext, a := ChunksShape(b, t, data, []);
    ChunksRead(b, t, cs);
    var m, u := if cs == [] then b else Emptied(b), t + ChunksTold(cs, b.verb);
    assert data == ChunksText(cs) + (SizeLine(size, ext) + a);
    RanRest(b, t, ChunksText(cs), SizeLine(size, ext) + a, m, u);
    LineDigits(size, ext);
    SizeLineRead(m, u, size, ext);
    RanRest(m, u, SizeLine(size, ext), a, Sized(m, 0), u + [SizeTold(0, m.verb)]);
    var trailers, eol;
    trailers, eol, rest := TrailerShape(Sized(m, 0), u + [SizeTold(0, m.verb)], a, KnownOf(b));
    c := Chunks(cs, size, ext, trailers, eol);
    assert data == ChunksText(cs) + (SizeLine(size, ext) + (LinesText(trailers) + eol + rest));
  }

  /** Behind the head there is the content that it announces. */
  lemma ContentShape(b: Parser, t: Trace, ps: Parser, r: Request, data: seq<Byte>)
    returns (c: Content, rest: seq<Byte>)
    requires AtContent(ps, b, r) && !ShapeOf(HeadKnown(r), r.line.verb).Unframed? && Complete(b, t, data)
    ensures data == ContentText(c) + rest && ContentFits(c, HeadKnown(r), r.line.verb)
  {
    hide Valid, Complete, Run, LearntFrom, StaysOpen, Upgrades, TrailerOk, ChunksText, SizeLine, LinesText, AreChunks,
      SizeLineOk, Hexadecimal;
    var s := ShapeOf(HeadKnown(r), r.line.verb);
    if s.Bodiless? {
      c, rest := Nothing, data;
      assert data == [] + rest;
    } else if s.ByLength? {
      DataThere(b, t, data);
      c, rest := Whole(data[..b.contentLength]), data[b.contentLength..];
    } else {
      c, rest := ChunkedShape(b, t, data);
    }
  }

  // ---------------------------------------------------------------- the head

  lemma LeadFlow(ps: Parser, ch: Byte)
    requires Between(ps.state) && (ch == CR || ch == LF)
    ensures Dispatch(ps, ch) == Next(ps, [])
  {
  }

  /** The line ends before a request, or behind the last one. */
  lemma {:induction false} LeadShape(ps: Parser, t: Trace, data: seq<Byte>) returns (w: seq<Byte>, rest: seq<Byte>)
    requires Valid(ps) && Between(ps.state) && Complete(ps, t, data)
    ensures data == w + rest && IsLead(w) && ps.nread + |w| <= MAX_HEADER_SIZE
    ensures rest != [] ==> rest[0] != CR && rest[0] != LF
    ensures ps.state.Dead? ==> rest == []
    decreases |data|
  {
    hide Valid, Complete, Step, Dispatch;
    CountLimit(ps);
    if data == [] {
      w, rest := [], [];
    } else {
      StartTaken(ps, t, data);
      TurnTaken(ps, t, data[0]);
      if data[0] == CR || data[0] == LF {
        LeadFlow(ps.(nread := ps.nread + 1), data[0]);
        var q, u := Peel(ps, t, data);
        var v;
        v, rest := LeadShape(q, u, data[1..]);
        w := [data[0]] + v;
        assert data == [data[0]] + (v + rest);
      } else {
        w, rest := [], data;
        DeadFlow(ps.(nread := ps.nread + 1), data[0]);
      }
    }
  }

  lemma DeadFlow(ps: Parser, ch: Byte)
    requires !Dispatch(ps, ch).Fail? && ch != CR && ch != LF
    ensures !ps.state.Dead?
  {
    hide ParseUrlChar;
  }

  lemma BadHead(ps: Parser)
    requires ps.state.HeadersAlmostDone? && !ps.flags.trailing
    requires Contradicts(KnownOf(ps), ps.allowChunkedLength) || ShapeOf(KnownOf(ps), ps.verb).Unframed?
    ensures Chain(ps, LF).Refused?
  {
    if !Contradicts(KnownOf(ps), ps.allowChunkedLength) {
      hide Dispatch;
      HeadTurn(ps);
      var h := ps.(state := HeadersDone, upgrade := Upgrades(KnownOf(ps), ps.verb));
      UnframedTurn(h);
      AgainLowersRank(ps, LF);
    }
  }

  lemma UnframedTurn(ps: Parser)
    requires ps.state.HeadersDone? && ps.upgrade == Upgrades(KnownOf(ps), ps.verb)
    requires ShapeOf(KnownOf(ps), ps.verb).Unframed?
    ensures Dispatch(ps, LF).Fail?
  {
  }

  /** The blank line is taken only behind header lines that agree on how the body is framed. */
  lemma HeadNeeded(f: Parser, t: Trace, eol: seq<Byte>, rest: seq<Byte>)
    requires Valid(f) && f.state.HeaderFieldStart? && !f.flags.trailing && IsEol(eol) && Complete(f, t, eol + rest)
    ensures !Contradicts(KnownOf(f), f.allowChunkedLength) && !ShapeOf(KnownOf(f), f.verb).Unframed?
  {
    hide Valid, Complete, Dispatch, Step, Run, Contradicts, ShapeOf;
    var data := eol + rest;
    FirstTaken(f, t, data);
    TurnTaken(f, t, data[0]);
    LineFeedTurn(f.(nread := f.nread + 1));
    if eol == [LF] {
      LastFeedNeeded(f, t);
    } else {
      var q, u := Peel(f, t, data);
      FirstTaken(q, u, data[1..]);
      LastFeedNeeded(q, u);
    }
  }

  lemma LastFeedNeeded(ps: Parser, t: Trace)
    requires Valid(ps) && (ps.state.HeaderFieldStart? || ps.state.HeadersAlmostDone?) && !ps.flags.trailing
    requires !Step(ps, t, LF).outcome.Failed?
    ensures !Contradicts(KnownOf(ps), ps.allowChunkedLength) && !ShapeOf(KnownOf(ps), ps.verb).Unframed?
  {
    hide Valid, Contradicts, ShapeOf, Step, Chain;
    ChainTaken(ps, t, LF);
    var counted := ps.(nread := ps.nread + 1);
    var almost := counted.(state := HeadersAlmostDone);
    assert KnownOf(almost) == KnownOf(ps);
    if Contradicts(KnownOf(ps), ps.allowChunkedLength) || ShapeOf(KnownOf(ps), ps.verb).Unframed? {
      BadHead(almost);
      StillRefused(ps, counted, almost);
    }
  }

  lemma ChainTaken(ps: Parser, t: Trace, ch: Byte)
    requires Valid(ps) && ParsingHeader(ps.state) && !Step(ps, t, ch).outcome.Failed?
    ensures Chain(ps.(nread := ps.nread + 1), ch).Fed?
  {
    hide Play, FlushAll, Chain, StateInv;
  }

  lemma StillRefused(ps: Parser, counted: Parser, almost: Parser)
    requires counted == ps.(nread := ps.nread + 1) && almost == counted.(state := HeadersAlmostDone)
    requires ps.state.HeaderFieldStart? || ps.state.HeadersAlmostDone?
    requires Chain(almost, LF).Refused?
    ensures Chain(counted, LF).Refused?
  {
    hide Dispatch;
    if ps.state.HeaderFieldStart? {
      LineFeedTurn(counted);
      AgainLowersRank(counted, LF);
    } else {
      assert counted == almost;
    }
  }

  lemma BlockNeeded(q: Parser, s: Trace, fields: seq<HeaderLine>, eol: seq<Byte>, rest: seq<Byte>)
    requires Valid(q) && q.state.HeaderFieldStart? && LinesOk(fields) && !Joins(s, FieldData) && IsEol(eol)
    requires q.nread + |LinesText(fields)| <= MAX_HEADER_SIZE && KnownOf(q) == START && AllFit(START, fields)
    requires Complete(q, s, LinesText(fields) + eol + rest)
    ensures var k := LearntFrom(START, fields);
            !Contradicts(k, q.allowChunkedLength) && !ShapeOf(k, q.verb).Unframed?
  {
    hide Valid, Complete, Run, LinesOk, AllFit, LearntFrom, Contradicts, ShapeOf, LinesText, IsEol, Leads, IsBlank;
    var c, u, f := LinesRead(q, s, fields);
    assert LinesText(fields) + eol + rest == LinesText(fields) + (eol + rest);
    RanRest(q, s, LinesText(fields), eol + rest, c, u);
    EolStarts(eol);
    LeadsOn(c, u, f, s + LinesTold(fields), eol + rest);
    KeepsTrailing(START, fields);
    HeadNeeded(f, s + LinesTold(fields), eol, rest);
  }

  /** The header lines of a request and the blank line. */
  lemma BlockShape(q: Parser, s: Trace, data: seq<Byte>)
    returns (fields: seq<HeaderLine>, eol: seq<Byte>, rest: seq<Byte>)
    requires Valid(q) && q.state.HeaderFieldStart? && KnownOf(q) == START && !Joins(s, FieldData)
    requires Complete(q, s, data)
    ensures data == LinesText(fields) + eol + rest && LinesOk(fields) && AllFit(START, fields) && IsEol(eol)
    ensures q.nread + |LinesText(fields) + eol| <= MAX_HEADER_SIZE
    ensures var k := LearntFrom(START, fields);
            !Contradicts(k, q.allowChunkedLength) && !ShapeOf(k, q.verb).Unframed?
  {
    hide Valid, Complete, LinesOk, AllFit, LearntFrom, Contradicts, ShapeOf, LinesText, IsEol;
    LinesNone(data);
    fields, eol, rest := LinesShape(q, s, data, START, []);
    LinesNone([]);
    BlockNeeded(q, s, fields, eol, rest);
  }

  /** What is taken as a request begins with a head. */
  lemma HeadShape(ps: Parser, t: Trace, lead: seq<Byte>, data: seq<Byte>) returns (r: Request, rest: seq<Byte>)
    requires Valid(ps) && ps.state.StartReq? && IsLead(lead) && ps.nread + |lead| <= MAX_HEADER_SIZE
    requires Complete(ps, t, lead + data) && data != [] && data[0] != CR && data[0] != LF
    ensures lead + data == HeadText(r) + rest && HeadFits(r, ps.nread, ps.allowChunkedLength) && r.content.Nothing?
  {
    hide Valid, Complete, Run, L.LineOk, L.LineText, IsLead, LinesOk, AllFit, LearntFrom, Contradicts, ShapeOf,
      LinesText, L.BeginNote, IsEol, HeadFits, HeadText, L.MajorOf, L.MinorOf;
    LeadRead(ps, t, lead);
    var p := ps.(nread := ps.nread + |lead|);
    RanRest(ps, t, lead, data, p, t);
    var line, a := RequestLineShape(p, t, data);
    L.RequestLineRead(p, t, line);
    var q, s := L.BehindLine(p, line), t + [L.BeginNote(line.verb), Data(UrlData, line.url)];
    RanRest(p, t, L.LineText(line), a, q, s);
    var fields, eol, b := BlockShape(q, s, a);
    r, rest := Request(lead, line, fields, eol, Nothing), b;
    Assembled(r, ps.nread, ps.allowChunkedLength, rest);
  }

  lemma Assembled(r: Request, nread: nat, allow: bool, rest: seq<Byte>)
    requires IsLead(r.lead) && L.LineOk(r.line) && LinesOk(r.fields) && AllFit(START, r.fields) && IsEol(r.eol)
    requires nread + |r.lead| + |L.LineText(r.line)| + |LinesText(r.fields) + r.eol| <= MAX_HEADER_SIZE
    requires !Contradicts(HeadKnown(r), allow) && !ShapeOf(HeadKnown(r), r.line.verb).Unframed?
    ensures HeadFits(r, nread, allow)
    ensures r.lead + (L.LineText(r.line) + (LinesText(r.fields) + r.eol + rest)) == HeadText(r) + rest
  {
    hide IsLead, L.LineOk, LinesOk, AllFit, IsEol, L.LineText, LinesText, Contradicts, ShapeOf, LearntFrom;
    assert LinesText(r.fields) + r.eol + rest == LinesText(r.fields) + (r.eol + rest);
    assert r.lead + (L.LineText(r.line) + (LinesText(r.fields) + (r.eol + rest))) == HeadText(r) + rest;
  }

  // ---------------------------------------------------------------- requests

  lemma SameContent(r: Request, c: Content)
    ensures var q := r.(content := c);
            && HeadText(q) == HeadText(r) && HeadKnown(q) == HeadKnown(r)
            && RequestText(q) == HeadText(r) + ContentText(c)
            && forall n, allow :: HeadFits(q, n, allow) == HeadFits(r, n, allow)
  {
    hide LinesOk, AllFit, LearntFrom, Contradicts, ShapeOf, LinesText;
  }

  lemma EndedRest(ps: Parser, t: Trace, w: seq<Byte>, rest: seq<Byte>)
    requires Complete(ps, t, w + rest) && !Run(ps, t, w).outcome.Going?
    ensures rest == []
  {
    hide Run;
    RunConcat(ps, t, w, rest);
    RunUsed(ps, t, w);
  }

  /** What is taken begins with a request, if there is anything but line ends. */
  lemma RequestShape(ps: Parser, t: Trace, lead: seq<Byte>, data: seq<Byte>) returns (r: Request, rest: seq<Byte>)
    requires Valid(ps) && ps.state.StartReq? && IsLead(lead) && ps.nread + |lead| <= MAX_HEADER_SIZE
    requires Complete(ps, t, lead + data) && data != [] && data[0] != CR && data[0] != LF
    ensures lead + data == RequestText(r) + rest && RequestOk(r, ps.nread, ps.allowChunkedLength)
  {
    hide Valid, Complete, Run, HeadFits, HeadText, ContentText, ContentFits, HeadKnown, HeadOutcome, LinesTold,
      HeadTold;
    var h, a := HeadShape(ps, t, lead, data);
    var b := HeadRead(ps, t, h);
    var u := t + [L.BeginNote(h.line.verb), Data(UrlData, h.line.url)] + LinesTold(h.fields)
             + HeadTold(HeadKnown(h), h.line.verb);
    var c: Content;
    if HeadOutcome(HeadKnown(h), h.line.verb).Going? {
      RanRest(ps, t, HeadText(h), a, b, u);
      HeadFitsShape(h, ps.nread, ps.allowChunkedLength);
      c, rest := ContentShape(b, u, ps, h, a);
    } else {
      EndedRest(ps, t, HeadText(h), a);
      UpgradedFits(h);
      c, rest := Nothing, [];
    }
    SameContent(h, c);
    r := h.(content := c);
    assert HeadText(h) + (ContentText(c) + rest) == RequestText(r) + rest;
  }

  lemma HeadFitsShape(r: Request, nread: nat, allow: bool)
    requires HeadFits(r, nread, allow)
    ensures !ShapeOf(HeadKnown(r), r.line.verb).Unframed?
  {
    hide HeadText, LinesOk, AllFit, LearntFrom, Contradicts, ShapeOf, L.LineOk, IsLead;
  }

  lemma UpgradedFits(r: Request)
    requires !HeadOutcome(HeadKnown(r), r.line.verb).Going?
    ensures ContentFits(Nothing, HeadKnown(r), r.line.verb) && ContentText(Nothing) == []
  {
    hide HeadKnown;
  }

  /** Where a parser stands between two messages. */
  lemma {:induction false} RequestsShape(ps: Parser, t: Trace, data: seq<Byte>)
    returns (rs: seq<Request>, tail: seq<Byte>)
    requires Valid(ps) && Between(ps.state) && Complete(ps, t, data)
    ensures data == Texts(rs) + tail && IsLead(tail) && RequestsOk(rs, ps.nread, ps.allowChunkedLength)
    ensures ps.state.Dead? ==> rs == []
    ensures TailFits(rs, tail, ps.nread)
    decreases |data|
  {
    hide Valid, Complete, Run, RequestOk, RequestText, RequestTold, Stays, EndOutcome, IsLead;
    var lead, a := LeadShape(ps, t, data);
    if a == [] {
      rs, tail := [], lead;
      assert lead + [] == lead && Texts([]) + tail == tail;
    } else {
      var r, b := RequestShape(ps, t, lead, a);
      var e := RequestRead(ps, t, r);
      RequestThere(r);
      if EndOutcome(r).Going? {
        RanRest(ps, t, RequestText(r), b, e, t + RequestTold(r));
        var more;
        more, tail := RequestsShape(e, t + RequestTold(r), b);
        rs := [r] + more;
        assert rs[1..] == more && Texts(rs) == RequestText(r) + Texts(more);
        assert RequestText(r) + (Texts(more) + tail) == Texts(rs) + tail;
        assert more != [] ==> rs[|rs| - 1] == more[|more| - 1];
      } else {
        EndedRest(ps, t, RequestText(r), b);
        rs, tail := [r], [];
        NoLead();
        assert rs[1..] == [] && Texts([]) == [] && Texts(rs) == RequestText(r) + [];
        assert Texts(rs) + tail == RequestText(r) + b;
      }
    }
  }

  /** The line ends behind the last request are counted, and nothing follows an upgrade. */
  predicate TailFits(rs: seq<Request>, tail: seq<Byte>, nread: nat) {
    if rs == [] then nread + |tail| <= MAX_HEADER_SIZE
    else
      var last := rs[|rs| - 1];
      if EndOutcome(last).Going? then Left(last.content) + |tail| <= MAX_HEADER_SIZE else tail == []
  }

  lemma NoLead()
    ensures IsLead([])
  {
  }

  lemma RequestThere(r: Request)
    ensures |RequestText(r)| > 0
  {
    hide MethodString;
  }

  // ---------------------------------------------------------------- the language

  /** An input: requests, and line ends behind them. */
  predicate IsInput(data: seq<Byte>, rs: seq<Request>, tail: seq<Byte>, allow: bool) {
    data == Texts(rs) + tail && RequestsOk(rs, 0, allow) && IsLead(tail) && TailFits(rs, tail, 0)
  }

  lemma TailRead(ps: Parser, t: Trace, tail: seq<Byte>)
    requires Valid(ps) && Between(ps.state) && IsLead(tail) && ps.nread + |tail| <= MAX_HEADER_SIZE
    ensures var r := Run(ps, t, tail);
            r.outcome.Going? && r.trace == t && Between(r.ps.state)
  {
    hide Valid, Run;
    if ps.state.StartReq? { LeadRead(ps, t, tail); } else { ClosedTakesOnlyLineEnds(ps, t, tail); }
  }

  /** Requests and line ends behind them are taken, and the application hears just the requests. */
  lemma InputRead(data: seq<Byte>, rs: seq<Request>, tail: seq<Byte>, allow: bool)
    requires IsInput(data, rs, tail, allow)
    ensures Complete(Init(allow), [], data) && Run(Init(allow), [], data).trace == AllTold(rs)
  {
    hide Run, Valid, RequestsOk, Texts, AllTold, IsLead, Stays, EndOutcome;
    InitValid(allow);
    RequestsRead(Init(allow), [], rs);
    var r := Run(Init(allow), [], Texts(rs));
    assert [] + AllTold(rs) == AllTold(rs);
    RunConcat(Init(allow), [], Texts(rs), tail);
    RunUsed(Init(allow), [], data);
    if r.outcome.Going? {
      TailRead(r.ps, r.trace, tail);
    } else {
      assert tail == [] && data == Texts(rs);
      LastOutcome(rs);
    }
  }

  lemma LastOutcome(rs: seq<Request>)
    ensures rs != [] ==> !EndOutcome(rs[|rs| - 1]).Failed?
  {
    hide Upgrades;
  }

  /** A fresh parser takes an input, up to the end of a message, if and only if it is a list of well-formed requests,
      of which only the last may close the connection or upgrade it; and then it has told the application what they
      say. */
  lemma AcceptedExactlyWhen(allow: bool, data: seq<Byte>)
    ensures Complete(Init(allow), [], data) <==> exists rs, tail :: IsInput(data, rs, tail, allow)
    ensures forall rs, tail :: IsInput(data, rs, tail, allow) ==> Run(Init(allow), [], data).trace == AllTold(rs)
  {
    hide Complete, Run, IsInput, Valid;
    forall rs, tail | IsInput(data, rs, tail, allow)
      ensures Complete(Init(allow), [], data) && Run(Init(allow), [], data).trace == AllTold(rs)
    {
      InputRead(data, rs, tail, allow);
    }
    if Complete(Init(allow), [], data) {
      InitValid(allow);
      var rs, tail := RequestsShape(Init(allow), [], data);
      ShapedInput(data, rs, tail, allow);
    }
  }

  lemma ShapedInput(data: seq<Byte>, rs: seq<Request>, tail: seq<Byte>, allow: bool)
    requires data == Texts(rs) + tail && RequestsOk(rs, 0, allow) && IsLead(tail) && TailFits(rs, tail, 0)
    ensures IsInput(data, rs, tail, allow)
  {
  }
}
