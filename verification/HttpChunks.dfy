// A chunked body as text: size lines, chunks and what the application hears of them.

module HttpChunks {
  import opened HttpChars
  import opened HttpParser
  import opened HttpInvariant
  import opened HttpRun
  import opened HttpMarks
  import opened HttpSteps
  import opened HttpNumbers
  import opened HttpFraming

  const LINE_END: seq<Byte> := [CR, LF]

  // ---------------------------------------------------------------- the size

  lemma SizeTurns(ps: Parser, ch: Byte)
    requires ps.flags.chunked
    ensures ps.state.ChunkSizeStart? && ps.nread == 1 && Unhex(ch).Hex? ==>
              Dispatch(ps, ch) == Next(ps.(contentLength := Unhex(ch).value, state := ChunkSize), [])
    ensures ps.state.ChunkSize? && Unhex(ch).Hex? && ps.contentLength <= HEX_GUARD
            && ps.contentLength * 16 + Unhex(ch).value <= ULLONG_MAX ==>
              Dispatch(ps, ch) == Next(ps.(contentLength := ps.contentLength * 16 + Unhex(ch).value), [])
    ensures ps.state.ChunkSize? && (ch == ';' || ch == ' ') ==>
              Dispatch(ps, ch) == Next(ps.(state := ChunkParameters), [])
    ensures ps.state.ChunkParameters? && ch != CR ==> Dispatch(ps, ch) == Next(ps, [])
    ensures ps.state.ChunkSize? || ps.state.ChunkParameters? ==>
              Dispatch(ps, CR) == Next(ps.(state := ChunkSizeAlmostDone), [])
  {
  }

  /** A size whose digits but the last are within the guard. */
  predicate IsSize(hs: seq<Byte>) { hs != [] && AllHex(hs) && Hexadecimal(hs[..|hs| - 1]) <= HEX_GUARD }

  lemma HexSnoc(u: seq<Byte>, c: Byte)
    requires AllHex(u) && Unhex(c).Hex?
    ensures AllHex(u + [c]) && Hexadecimal(u + [c]) == Hexadecimal(u) * 16 + Unhex(c).value
  {
    assert (u + [c])[..|u|] == u;
  }

  /** A beginning of a size is one. */
  lemma SizePrefix(hs: seq<Byte>)
    requires IsSize(hs) && |hs| > 1
    ensures var u := hs[..|hs| - 1];
            && IsSize(u) && Hexadecimal(u) <= HEX_GUARD
            && Hexadecimal(hs) == Hexadecimal(u) * 16 + Unhex(hs[|hs| - 1]).value
  {
    hide Unhex;
    var u := hs[..|hs| - 1];
    assert hs == u + [hs[|hs| - 1]];
    assert Hexadecimal(u) == Hexadecimal(u[..|u| - 1]) * 16 + Unhex(u[|u| - 1]).value;
  }

  lemma {:induction false} SizeRead(ps: Parser, t: Trace, hs: seq<Byte>)
    requires Valid(ps) && ps.state.ChunkSizeStart? && IsSize(hs) && |hs| <= MAX_HEADER_SIZE
    ensures var next := ps.(contentLength := Hexadecimal(hs), state := ChunkSize, nread := |hs|);
            Run(ps, t, hs) == Ran(next, t, |hs|, Going) && Valid(next)
    decreases |hs|
  {
    hide Run, Valid, Dispatch, Unhex, Hexadecimal, IsSize;
    SizeHex(hs);
    var u, c := hs[..|hs| - 1], hs[|hs| - 1];
    assert hs == u + [c];
    if u == [] {
      assert hs == [c];
      OneHex(c);
      SizeFirst(ps, t, c);
    } else {
      SizePrefix(hs);
      SizeRead(ps, t, u);
      SizeNext(ps, t, u, c, Hexadecimal(u));
    }
  }

  lemma SizeFirst(ps: Parser, t: Trace, c: Byte)
    requires Valid(ps) && ps.state.ChunkSizeStart? && Unhex(c).Hex?
    ensures var next := ps.(contentLength := Unhex(c).value, state := ChunkSize, nread := 1);
            Run(ps, t, [c]) == Ran(next, t, 1, Going) && Valid(next)
  {
    hide Run, Valid, Dispatch, Unhex;
    AtSizeStart(ps);
    EmptyRun(ps, t);
    SizeTurns(ps.(nread := 1), c);
    SilentSnoc(ps, t, [], c, ps, t, ps.(contentLength := Unhex(c).value, state := ChunkSize, nread := 1));
    assert [] + [c] == [c];
  }

  lemma SizeNext(ps: Parser, t: Trace, u: seq<Byte>, c: Byte, n: nat)
    requires Valid(ps) && ps.state.ChunkSizeStart? && Unhex(c).Hex? && |u| < MAX_HEADER_SIZE && n <= HEX_GUARD
    requires Run(ps, t, u) == Ran(ps.(contentLength := n, state := ChunkSize, nread := |u|), t, |u|, Going)
    ensures var next := ps.(contentLength := n * 16 + Unhex(c).value, state := ChunkSize, nread := |u| + 1);
            Run(ps, t, u + [c]) == Ran(next, t, |u| + 1, Going) && Valid(next)
  {
    hide Run, Valid, Dispatch, Unhex;
    AtSizeStart(ps);
    UnhexBound(c);
    var at := ps.(contentLength := n, state := ChunkSize, nread := |u|);
    var next := ps.(contentLength := n * 16 + Unhex(c).value, state := ChunkSize, nread := |u| + 1);
    SizeTurns(at.(nread := |u| + 1), c);
    SilentSnoc(ps, t, u, c, at, t, next);
  }

  lemma SizeHex(hs: seq<Byte>)
    requires IsSize(hs)
    ensures hs != [] && AllHex(hs) && Unhex(hs[|hs| - 1]).Hex?
  {
  }

  lemma OneHex(c: Byte)
    requires Unhex(c).Hex?
    ensures Hexadecimal([c]) == Unhex(c).value
  {
    assert [c][..0] == [];
  }

  lemma AtSizeStart(ps: Parser)
    requires Valid(ps) && ps.state.ChunkSizeStart?
    ensures ps.flags.chunked && ps.nread == 0
  {
  }

  /** What may stand behind a size: a space or a semicolon and anything but CR. */
  predicate IsExtension(x: seq<Byte>) {
    x != [] ==> (x[0] == ';' || x[0] == ' ') && forall i :: 0 <= i < |x| ==> x[i] != CR
  }

  lemma {:induction false} ExtensionRead(ps: Parser, t: Trace, x: seq<Byte>)
    requires Valid(ps) && ps.state.ChunkSize? && IsExtension(x) && x != [] && ps.nread + |x| <= MAX_HEADER_SIZE
    ensures var next := ps.(state := ChunkParameters, nread := ps.nread + |x|);
            Run(ps, t, x) == Ran(next, t, |x|, Going) && Valid(next)
    decreases |x|
  {
    hide Run, Valid;
    var u, c := x[..|x| - 1], x[|x| - 1];
    assert x == u + [c];
    if u == [] {
      assert x == [c];
      ExtensionFirst(ps, t, c);
    } else {
      assert u[0] == x[0];
      ExtensionRead(ps, t, u);
      ExtensionNext(ps, t, u, c);
    }
  }

  lemma ExtensionFirst(ps: Parser, t: Trace, c: Byte)
    requires Valid(ps) && ps.state.ChunkSize? && (c == ';' || c == ' ') && ps.nread < MAX_HEADER_SIZE
    ensures var next := ps.(state := ChunkParameters, nread := ps.nread + 1);
            Run(ps, t, [c]) == Ran(next, t, 1, Going) && Valid(next)
  {
    hide Run, Valid, Dispatch, Unhex;
    AtSize(ps);
    EmptyRun(ps, t);
    SizeTurns(ps.(nread := ps.nread + 1), c);
    SilentSnoc(ps, t, [], c, ps, t, ps.(state := ChunkParameters, nread := ps.nread + 1));
    assert [] + [c] == [c];
  }

  lemma ExtensionNext(ps: Parser, t: Trace, u: seq<Byte>, c: Byte)
    requires Valid(ps) && ps.state.ChunkSize? && c != CR && ps.nread + |u| < MAX_HEADER_SIZE
    requires Run(ps, t, u) == Ran(ps.(state := ChunkParameters, nread := ps.nread + |u|), t, |u|, Going)
    ensures var next := ps.(state := ChunkParameters, nread := ps.nread + |u| + 1);
            Run(ps, t, u + [c]) == Ran(next, t, |u| + 1, Going) && Valid(next)
  {
    hide Run, Valid, Dispatch, Unhex;
    AtSize(ps);
    var at := ps.(state := ChunkParameters, nread := ps.nread + |u|);
    SizeTurns(at.(nread := at.nread + 1), c);
    SilentSnoc(ps, t, u, c, at, t, at.(nread := at.nread + 1));
  }

  lemma AtSize(ps: Parser)
    requires Valid(ps) && (ps.state.ChunkSize? || ps.state.ChunkParameters? || ps.state.ChunkSizeAlmostDone?)
    ensures ps.flags.chunked
  {
  }

  // ---------------------------------------------------------------- the size line

  /** The parser behind the size line of `n` bytes to come. */
  function Sized(ps: Parser, n: nat): Parser {
    if n == 0 then ps.(contentLength := 0, nread := 0, flags := ps.flags.(trailing := true), state := HeaderFieldStart)
    else ps.(contentLength := n, nread := 0, state := ChunkData)
  }

  lemma SizeEndTurn(ps: Parser)
    requires ps.state.ChunkSizeAlmostDone? && ps.flags.chunked
    ensures var sized := Sized(ps, ps.contentLength);
            Dispatch(ps, LF) == Next(sized, [Notice(sized, ChunkHeader)])
  {
  }

  function SizeLine(size: seq<Byte>, ext: seq<Byte>): seq<Byte> { size + ext + LINE_END }

  predicate SizeLineOk(size: seq<Byte>, ext: seq<Byte>) {
    IsSize(size) && IsExtension(ext) && |SizeLine(size, ext)| <= MAX_HEADER_SIZE
  }

  /** What the application hears of a size line: how many bytes are announced. */
  function SizeTold(n: nat, m: Method): Event { Note(ChunkHeader, n, true, m.CONNECT?) }

  /** A size line announces the number its digits say, whatever stands behind them. */
  lemma SizeLineRead(ps: Parser, t: Trace, size: seq<Byte>, ext: seq<Byte>)
    requires Valid(ps) && ps.state.ChunkSizeStart? && SizeLineOk(size, ext)
    ensures var n := Hexadecimal(size);
            && Run(ps, t, SizeLine(size, ext))
            == Ran(Sized(ps, n), t + [SizeTold(n, ps.verb)], |SizeLine(size, ext)|, Going)
            && Valid(Sized(ps, n))
  {
    hide Run, Valid, IsSize, IsExtension, Hexadecimal, Sized;
    SizeHex(size);
    SizeRead(ps, t, size);
    var n := Hexadecimal(size);
    var a := ps.(contentLength := n, state := ChunkSize, nread := |size|);
    var b := if ext == [] then a else a.(state := ChunkParameters, nread := |size + ext|);
    if ext == [] { assert size + ext == size; } else { ExtensionRead(a, t, ext); }
    RunConcat(ps, t, size, ext);
    SizeLineEnds(ps, t, size + ext, b, n);
    assert size + ext + [CR] + [LF] == SizeLine(size, ext);
  }

  lemma SizeLineEnds(ps: Parser, t: Trace, w: seq<Byte>, b: Parser, n: nat)
    requires Valid(ps) && Valid(b) && (b.state.ChunkSize? || b.state.ChunkParameters?)
    requires b == ps.(contentLength := n, state := b.state, nread := |w|) && |w| + 2 <= MAX_HEADER_SIZE
    requires Run(ps, t, w) == Ran(b, t, |w|, Going)
    ensures Run(ps, t, w + [CR] + [LF]) == Ran(Sized(ps, n), t + [SizeTold(n, ps.verb)], |w| + 2, Going)
    ensures Valid(Sized(ps, n))
  {
    hide Run, Valid, Dispatch, Unhex, Sized;
    AtSize(b);
    SizeTurns(b.(nread := |w| + 1), CR);
    var c := b.(state := ChunkSizeAlmostDone, nread := |w| + 1);
    SilentSnoc(ps, t, w, CR, b, t, c);
    AnnouncesSize(c, t);
    RunSnoc(ps, t, w + [CR], LF, Sized(c, n), t + [SizeTold(n, ps.verb)]);
    SizedAlike(ps, c, n);
  }

  lemma SizedAlike(ps: Parser, c: Parser, n: nat)
    requires c == ps.(contentLength := n, state := c.state, nread := c.nread)
    ensures Sized(c, n) == Sized(ps, n)
  {
  }

  lemma AnnouncesSize(ps: Parser, t: Trace)
    requires ps.state.ChunkSizeAlmostDone? && ps.flags.chunked && ps.nread < MAX_HEADER_SIZE
    ensures Step(ps, t, LF)
         == Ran(Sized(ps, ps.contentLength), t + [SizeTold(ps.contentLength, ps.verb)], 1, Going)
  {
    hide Dispatch, Step, Chain;
    var counted, last := ps.(nread := ps.nread + 1), Sized(ps, ps.contentLength);
    SizeEndTurn(counted);
    var note := Notice(last, ChunkHeader);
    ChainOnce(counted, LF, last, [note]);
    NoticeStep(ps, t, LF, last, note);
  }

  // ---------------------------------------------------------------- a chunk

  datatype Chunk = Chunk(size: seq<Byte>, ext: seq<Byte>, data: seq<Byte>)

  function ChunkText(c: Chunk): seq<Byte> { SizeLine(c.size, c.ext) + c.data + LINE_END }

  /** A chunk has as many bytes as its size says, and at least one. */
  predicate IsChunk(c: Chunk) { SizeLineOk(c.size, c.ext) && 0 < |c.data| == Hexadecimal(c.size) }

  /** The application hears the size, the bytes and the end of a chunk. */
  function ChunkTold(c: Chunk, m: Method): Trace {
    [SizeTold(|c.data|, m), Data(BodyData, c.data), Note(ChunkComplete, 0, true, m.CONNECT?)]
  }

  /** The parser behind a chunk. */
  function Emptied(ps: Parser): Parser { ps.(contentLength := 0, nread := 0, state := ChunkSizeStart) }

  lemma ChunkEndTurns(ps: Parser)
    requires ps.flags.chunked && ps.contentLength == 0
    ensures ps.state.ChunkDataAlmostDone? ==> Feed(ps, CR) == Fed(ps.(state := ChunkDataDone), [Flush(BodyData)], false)
    ensures ps.state.ChunkDataDone? ==>
              Feed(ps, LF) == Fed(Emptied(ps), [Notice(Emptied(ps), ChunkComplete)], false)
  {
  }

  lemma ChunkEndCr(ps: Parser, t: Trace)
    requires ps.state.ChunkDataAlmostDone? && ps.flags.chunked && ps.contentLength == 0
    ensures Step(ps, t, CR) == Ran(ps.(state := ChunkDataDone), t, 1, Going)
  {
    ChunkEndTurns(ps);
    hide Feed, FlushAll, Emit;
    var none: seq<Act> := [];
    assert [Flush(BodyData)][1..] == none;
    assert Play([Flush(BodyData)], map[], t, [CR], 0) == (map[], t);
    FlushAllOne(BodyData, t, CR);
  }

  lemma ChunkEndLf(ps: Parser, t: Trace)
    requires ps.state.ChunkDataDone? && ps.flags.chunked && ps.contentLength == 0
    ensures Step(ps, t, LF) == Ran(Emptied(ps), t + [Note(ChunkComplete, 0, true, ps.verb.CONNECT?)], 1, Going)
  {
    ChunkEndTurns(ps);
    var note := Notice(Emptied(ps), ChunkComplete);
    PlayNotice(note, t, LF);
    hide Feed, FlushAll;
    FlushAllOne(BodyData, t + [note.event], LF);
  }

  /** A chunk is handed on as it is. */
  lemma ChunkRead(ps: Parser, t: Trace, c: Chunk)
    requires Valid(ps) && ps.state.ChunkSizeStart? && IsChunk(c)
    ensures Run(ps, t, ChunkText(c)) == Ran(Emptied(ps), t + ChunkTold(c, ps.verb), |ChunkText(c)|, Going)
    ensures Valid(Emptied(ps))
  {
    hide Run, Step, Valid, SizeLineOk, Hexadecimal, Emit, SizeLine;
    SizeLineRead(ps, t, c.size, c.ext);
    var line, n := SizeLine(c.size, c.ext), |c.data|;
    var a, u := Sized(ps, n), t + [SizeTold(n, ps.verb)];
    WholeChunk(a, u, c.data);
    AtSizeStart(ps);
    EmitApart(u, BodyData, c.data);
    RunConcat(ps, t, line, c.data);
    var b, v := a.(contentLength := 0, state := ChunkDataAlmostDone), u + [Data(BodyData, c.data)];
    RunOk(a, u, c.data);
    ChunkEndCr(b, v);
    RunSnoc(ps, t, line + c.data, CR, b.(state := ChunkDataDone), v);
    ChunkEndLf(b.(state := ChunkDataDone), v);
    var last := v + [Note(ChunkComplete, 0, true, ps.verb.CONNECT?)];
    RunSnoc(ps, t, line + c.data + [CR], LF, Emptied(ps), last);
    assert line + c.data + [CR] + [LF] == ChunkText(c);
    assert last == t + ChunkTold(c, ps.verb);
  }

  // ---------------------------------------------------------------- all chunks

  function ChunksText(cs: seq<Chunk>): seq<Byte> {
    if cs == [] then [] else ChunksText(cs[..|cs| - 1]) + ChunkText(cs[|cs| - 1])
  }

  predicate AreChunks(cs: seq<Chunk>) { forall i :: 0 <= i < |cs| ==> IsChunk(cs[i]) }

  function ChunksTold(cs: seq<Chunk>, m: Method): Trace {
    if cs == [] then [] else ChunksTold(cs[..|cs| - 1], m) + ChunkTold(cs[|cs| - 1], m)
  }

  lemma {:induction false} ChunksRead(ps: Parser, t: Trace, cs: seq<Chunk>)
    requires Valid(ps) && ps.state.ChunkSizeStart? && AreChunks(cs)
    ensures var next := if cs == [] then ps else Emptied(ps);
            && Run(ps, t, ChunksText(cs)) == Ran(next, t + ChunksTold(cs, ps.verb), |ChunksText(cs)|, Going)
            && Valid(next)
    decreases |cs|
  {
    hide Run, Valid, ChunkText, IsChunk, ChunkTold;
    if cs == [] {
      EmptyRun(ps, t);
      assert t + ChunksTold(cs, ps.verb) == t;
    } else {
      var bs, c := cs[..|cs| - 1], cs[|cs| - 1];
      ChunksRead(ps, t, bs);
      var at, u := if bs == [] then ps else Emptied(ps), t + ChunksTold(bs, ps.verb);
      ChunkRead(at, u, c);
      RunConcat(ps, t, ChunksText(bs), ChunkText(c));
      assert u + ChunkTold(c, ps.verb) == t + ChunksTold(cs, ps.verb);
    }
  }
}
