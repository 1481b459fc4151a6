// http_parser_execute itself: the loop over a whole input, with its inner scans, its marks and
// its header bytes counted in lumps, proved against the byte-wise reference semantics.

module HttpExecute {
  import opened Words
  import opened HttpChars
  import opened HttpParser
  import opened HttpInvariant
  import opened HttpRun
  import opened HttpMarks
  import opened HttpFraming

  /** The locals of the loop: the parser with its counter, the marks, what was delivered, and `p`. */
  datatype Cursor = Cursor(ps: Parser, marks: Marks, trace: Trace, p: nat)

  /** How a turn of the loop ends: at a later byte, out of the function, or in an error. */
  datatype Moved = Moved(c: Cursor) | Left(c: Cursor) | Broke(c: Cursor, errno: Errno)

  /** The call that started with parser `ps` and trace `t`. */
  datatype Call = Call(ps: Parser, t: Trace, data: seq<Byte>)

  function RunOf(call: Call): Ran { Run(call.ps, call.t, call.data) }

  /** The cursor is where the byte-wise run of the bytes before it is. */
  ghost predicate Synced(call: Call, c: Cursor) {
    && c.p <= |call.data|
    && Valid(c.ps)
    && var r := Run(call.ps, call.t, call.data[..c.p]);
    && r.outcome.Going? && r.ps == c.ps && r.used == c.p
    && Holds(PenOf(c.ps.state), c.marks, c.trace, call.data, c.p, r.trace)
  }

  /** The error `e` against the one that byte-wise calls end in: it is the same unless the header count
      overflows, which a scan notices late; and so are the callbacks but for the unfinished one. */
  ghost predicate SameFault(r: Ran, t: Trace, e: Errno) {
    && r.outcome.Failed?
    && (e == r.ps.errno || r.ps.errno == HeaderOverflow)
    && Like(t, r.trace)
  }

  ghost predicate Fails(call: Call, t: Trace, e: Errno) { SameFault(RunOf(call), t, e) }

  ghost predicate Tracks(call: Call, m: Moved) {
    match m
    case Moved(c) => Synced(call, c)
    case Left(c) => RunOf(call) == Ran(c.ps, c.trace, c.p, Upgraded)
    case Broke(c, e) => e != Ok && Fails(call, c.trace, e)
  }

  /** Plays the actions of a dispatched byte at the cursor. */
  function Played(fed: Fed, c: Cursor, data: seq<Byte>): Moved
    requires c.p < |data| && forall k <- c.marks :: c.marks[k] <= c.p
  {
    var (m, t) := Play(fed.acts, c.marks, c.trace, data, c.p);
    match fed
    case Refused(e, _) => Broke(Cursor(c.ps, m, t, c.p), e)
    case Fed(next, _, exit) =>
      if exit then Left(Cursor(next, m, t, c.p + 1)) else Moved(Cursor(next, m, t, c.p + 1))
  }

  lemma SyncedMarks(call: Call, c: Cursor)
    requires Synced(call, c)
    ensures forall k <- c.marks :: c.marks[k] <= c.p
  {
    hide Run, Valid;
    var pen := PenOf(c.ps.state);
    if !pen.Closed? { assert forall k <- c.marks :: k in c.marks.Keys && k == pen.kind; }
  }

  /** One byte, dispatched at the cursor. */
  lemma OneByte(call: Call, c: Cursor)
    requires Synced(call, c) && c.p < |call.data|
    ensures forall k <- c.marks :: c.marks[k] <= c.p
    ensures Tracks(call, Played(Feed(c.ps, call.data[c.p]), c, call.data))
  {
    hide Run, Feed, Valid, Holds, PenOf, Play, Step, Like;
    var data, p := call.data, c.p;
    var ch := data[p];
    var r := Run(call.ps, call.t, data[..p]);
    SyncedMarks(call, c);
    FeedAgrees(c.ps, c.marks, c.trace, data, p, r.trace);
    FeedOk(c.ps, ch);
    RunExtend(call.ps, call.t, data, p, p + 1);
    assert data[p..p + 1] == [ch];
    RunOne(c.ps, r.trace, ch);
    RunExtend(call.ps, call.t, data, p + 1, |data|);
    assert data[..|data|] == data;
  }

  // ---------------------------------------------------------------- counting in lumps

  /** The states of the scans. */
  predicate InScan(s: State) { s.HeaderField? || s.HeaderValue? }

  function ScanKind(s: State): DataKind { if s.HeaderField? then FieldData else ValueData }

  /** Byte-wise calls have failed at byte `q`, where the header count overflowed. */
  predicate FellAt(call: Call, c: Cursor, q: nat) {
    var k, r := ScanKind(c.ps.state), RunOf(call);
    && q <= c.p <= |call.data| && c.marks.Keys == {k} && c.marks[k] <= q
    && r.outcome.Failed? && r.ps.errno == HeaderOverflow
    && r.trace == Emit(c.trace, Data(k, call.data[c.marks[k]..q]))
  }

  /** A scan from `start` has reached `c.p`; the counter still stands where it was at `start`. It is
      behind the byte-wise run by the bytes scanned, or that run has overflowed. */
  ghost predicate Lagging(call: Call, c: Cursor, start: nat) {
    && start <= c.p <= |call.data|
    && InScan(c.ps.state) && c.ps.nread < MAX_HEADER_SIZE
    && if c.ps.nread + (c.p - start) <= MAX_HEADER_SIZE
       then Synced(call, c.(ps := c.ps.(nread := c.ps.nread + (c.p - start))))
       else exists q :: FellAt(call, c, q)
  }

  lemma Overflowing(ps: Parser, t: Trace, ch: Byte)
    requires ParsingHeader(ps.state) && ps.nread == MAX_HEADER_SIZE
    ensures Step(ps, t, ch) == Ran(ps.(errno := HeaderOverflow), t, 0, Failed)
  {
    assert Feed(ps, ch) == Refused(HeaderOverflow, []);
  }

  /** A header byte that takes the counter over its limit ends the byte-wise run. */
  lemma Overflows(call: Call, c: Cursor)
    requires Synced(call, c) && c.p < |call.data| && ParsingHeader(c.ps.state) && c.ps.nread == MAX_HEADER_SIZE
    ensures var r := Run(call.ps, call.t, call.data[..c.p]);
            RunOf(call) == Ran(r.ps.(errno := HeaderOverflow), r.trace, c.p, Failed)
  {
    hide Run, Step, Valid, Holds, PenOf;
    var data, p := call.data, c.p;
    var r := Run(call.ps, call.t, data[..p]);
    Overflowing(r.ps, r.trace, data[p]);
    RunExtend(call.ps, call.t, data, p, p + 1);
    assert data[p..p + 1] == [data[p]];
    RunOne(r.ps, r.trace, data[p]);
    RunExtend(call.ps, call.t, data, p + 1, |data|);
    assert data[..|data|] == data;
  }

  lemma HeldLike(pen: Pen, marks: Marks, t: Trace, data: seq<Byte>, p: nat, u: Trace)
    requires p <= |data| && Holds(pen, marks, t, data, p, u)
    ensures Like(t, u)
  {
    hide Emit;
    if u != t { assert HeldBack(t, u, pen.kind, data[marks[pen.kind]..p]); }
  }

  /** An overflow at the first byte of a scan, or at any byte in step. */
  lemma OverflowFails(call: Call, c: Cursor)
    requires Synced(call, c) && c.p < |call.data| && ParsingHeader(c.ps.state) && c.ps.nread == MAX_HEADER_SIZE
    ensures forall e :: Fails(call, c.trace, e)
  {
    hide Run, Valid, Holds, PenOf, Like;
    Overflows(call, c);
    HeldLike(PenOf(c.ps.state), c.marks, c.trace, call.data, c.p, Run(call.ps, call.t, call.data[..c.p]).trace);
  }

  /** Some way into a scan the byte-wise run has overflowed for good. */
  lemma OverflowFalls(call: Call, c: Cursor)
    requires Synced(call, c) && 0 < c.p < |call.data| && InScan(c.ps.state) && c.ps.nread == MAX_HEADER_SIZE
    ensures FellAt(call, c, c.p)
  {
    hide Run, Valid, Emit;
    Overflows(call, c);
  }

  lemma FellFails(call: Call, c: Cursor, q: nat, e: Errno)
    requires FellAt(call, c, q)
    ensures Fails(call, c.trace, e)
  {
    hide Run, Emit;
    var k := ScanKind(c.ps.state);
    assert HeldBack(c.trace, RunOf(call).trace, k, call.data[c.marks[k]..q]);
  }

  lemma StaysFallen(call: Call, c: Cursor, d: Cursor, q: nat)
    requires FellAt(call, c, q) && d == Cursor(d.ps, c.marks, c.trace, d.p) && c.p <= d.p <= |call.data|
    requires d.ps.state == c.ps.state
    ensures FellAt(call, d, q)
  {
    hide Run, Emit;
  }

  /** A byte that only moves the matcher from `c.ps` to `next`. */
  lemma LagByte(call: Call, c: Cursor, start: nat, next: Parser)
    requires Lagging(call, c, start) && c.p < |call.data| && next.state == c.ps.state && next.nread == c.ps.nread
    requires forall n: nat :: Dispatch(c.ps.(nread := n), call.data[c.p]) == Next(next.(nread := n), [])
    ensures Lagging(call, Cursor(next, c.marks, c.trace, c.p + 1), start)
  {
    hide Run, Dispatch, Valid, Holds, PenOf, FellAt;
    var n := c.ps.nread + (c.p - start);
    var there := Cursor(next, c.marks, c.trace, c.p + 1);
    if n > MAX_HEADER_SIZE {
      var q :| FellAt(call, c, q);
      StaysFallen(call, c, there, q);
    } else {
      var here := c.(ps := c.ps.(nread := n));
      if n == MAX_HEADER_SIZE {
        OverflowFalls(call, here);
        StaysFallen(call, here, there, c.p);
      } else {
        OneByte(call, here);
        assert Dispatch(c.ps.(nread := n + 1), call.data[c.p]) == Next(next.(nread := n + 1), []);
        CountedFeed(here.ps, call.data[c.p], next.(nread := n + 1));
        hide Feed;
      }
    }
  }

  lemma CountedFeed(ps: Parser, ch: Byte, next: Parser)
    requires ParsingHeader(ps.state) && ps.nread < MAX_HEADER_SIZE
    requires Dispatch(ps.(nread := ps.nread + 1), ch) == Next(next, [])
    ensures Feed(ps, ch) == Fed(next, [], false)
  {
    hide Dispatch;
  }

  /** A byte that the matcher refuses, whatever the counter says. */
  lemma LagRefused(call: Call, c: Cursor, start: nat, e: Errno)
    requires Lagging(call, c, start) && c.p < |call.data|
    requires forall n: nat :: Dispatch(c.ps.(nread := n), call.data[c.p]) == Fail(e)
    ensures Fails(call, c.trace, e)
  {
    hide Run, Dispatch, Valid, Holds, PenOf, FellAt, Fails;
    var n := c.ps.nread + (c.p - start);
    if n > MAX_HEADER_SIZE {
      var q :| FellAt(call, c, q);
      FellFails(call, c, q, e);
    } else {
      var here := c.(ps := c.ps.(nread := n));
      if n == MAX_HEADER_SIZE {
        OverflowFails(call, here);
      } else {
        OneByte(call, here);
        assert Dispatch(c.ps.(nread := n + 1), call.data[c.p]) == Fail(e);
        assert Feed(here.ps, call.data[c.p]) == Refused(e, []);
      }
    }
  }

  /** A byte that the scan jumps over without looking at it, more than MAX_HEADER_SIZE bytes in. */
  lemma LagSkipped(call: Call, c: Cursor, start: nat)
    requires Lagging(call, c, start) && c.p < |call.data| && c.p - start >= MAX_HEADER_SIZE
    ensures Lagging(call, c.(p := c.p + 1), start)
  {
    hide Run, Valid, Holds, PenOf, FellAt;
    var there := c.(p := c.p + 1);
    if c.ps.nread + (c.p - start) > MAX_HEADER_SIZE {
      var q :| FellAt(call, c, q);
      StaysFallen(call, c, there, q);
    } else {
      var here := c.(ps := c.ps.(nread := MAX_HEADER_SIZE));
      OverflowFalls(call, here);
      StaysFallen(call, here, there, c.p);
    }
  }

  // ---------------------------------------------------------------- header names

  lemma MatchIgnoresCount(ps: Parser, name: string, c: Byte, miss: HState, full: HState, n: nat)
    ensures Match(ps.(nread := n), name, c, miss, full) == Match(ps, name, c, miss, full).(nread := n)
  {
  }

  lemma FieldStepIgnoresCount(ps: Parser, c: Byte, n: nat)
    requires NameState(ps.hstate, ps.index) && ps.index < 32
    ensures FieldStep(ps, c).Some? && FieldStep(ps.(nread := n), c) == Some(FieldStep(ps, c).value.(nread := n))
  {
    hide Match, CONNECTION, PROXY_CONNECTION, CONTENT_LENGTH, TRANSFER_ENCODING, UPGRADE;
    FieldStepOk(ps, c);
    match ps.hstate {
      case MatchingConnection => MatchIgnoresCount(ps, CONNECTION, c, General, Connection, n);
      case MatchingProxyConnection => MatchIgnoresCount(ps, PROXY_CONNECTION, c, General, Connection, n);
      case MatchingContentLength => MatchIgnoresCount(ps, CONTENT_LENGTH, c, General, ContentLength, n);
      case MatchingTransferEncoding => MatchIgnoresCount(ps, TRANSFER_ENCODING, c, General, TransferEncoding, n);
      case MatchingUpgrade => MatchIgnoresCount(ps, UPGRADE, c, General, Upgrade, n);
      case _ =>
    }
  }

  lemma LagField(call: Call, c: Cursor, start: nat)
    requires Lagging(call, c, start) && c.p < |call.data| && IsToken(call.data[c.p])
    requires c.ps.state.HeaderField? && NameState(c.ps.hstate, c.ps.index) && c.ps.index < 32
    ensures var next := FieldStep(c.ps, Token(call.data[c.p]));
            && next.Some? && next.value.state.HeaderField? && next.value.nread == c.ps.nread
            && NameState(next.value.hstate, next.value.index) && next.value.index < 32
            && Lagging(call, Cursor(next.value, c.marks, c.trace, c.p + 1), start)
  {
    hide Lagging, FieldStep, NameState, Token;
    var ch := call.data[c.p];
    FieldStepOk(c.ps, Token(ch));
    var next := FieldStep(c.ps, Token(ch)).value;
    forall n: nat ensures Dispatch(c.ps.(nread := n), ch) == Next(next.(nread := n), []) {
      FieldStepIgnoresCount(c.ps, Token(ch), n);
    }
    LagByte(call, c, start, next);
  }

  /** The scan of a header name: on to the first byte that is no token character. A name that
      matches nothing is run over in an inner loop. */
  method ScanField(ghost call: Call, data: seq<Byte>, c: Cursor) returns (d: Cursor)
    requires data == call.data && c.p < |data| && Lagging(call, c, c.p)
    requires c.ps.state.HeaderField? && NameState(c.ps.hstate, c.ps.index) && c.ps.index < 32
    ensures Lagging(call, d, c.p) && d.ps.state.HeaderField? && d.ps.nread == c.ps.nread
    ensures c.p <= d.p <= |data| && d.marks == c.marks && d.trace == c.trace
    ensures forall i :: c.p <= i < d.p ==> IsToken(data[i])
    ensures d.p < |data| ==> !IsToken(data[d.p])
  {
    hide Lagging, FieldStep, NameState, Token;
    var h, p := c.ps, c.p;
    while p < |data| && IsToken(data[p])
      invariant c.p <= p <= |data|
      invariant Lagging(call, Cursor(h, c.marks, c.trace, p), c.p)
      invariant h.state.HeaderField? && NameState(h.hstate, h.index) && h.index < 32 && h.nread == c.ps.nread
      invariant forall i :: c.p <= i < p ==> IsToken(data[i])
    {
      if h.hstate.General? {
        var left := |data| - p;
        var pe := p + if left < MAX_HEADER_SIZE then left else MAX_HEADER_SIZE;
        while p + 1 < pe && IsToken(data[p + 1])
          invariant c.p <= p < pe <= |data|
          invariant Lagging(call, Cursor(h, c.marks, c.trace, p), c.p)
          invariant forall i :: c.p <= i <= p ==> IsToken(data[i])
        {
          LagField(call, Cursor(h, c.marks, c.trace, p), c.p);
          GeneralStays(h, Token(data[p]));
          p := p + 1;
        }
        LagField(call, Cursor(h, c.marks, c.trace, p), c.p);
        GeneralStays(h, Token(data[p]));
      } else {
        LagField(call, Cursor(h, c.marks, c.trace, p), c.p);
        h := FieldStep(h, Token(data[p])).value;
      }
      p := p + 1;
    }
    d := Cursor(h, c.marks, c.trace, p);
  }

  lemma GeneralStays(ps: Parser, c: Byte)
    requires ps.hstate.General?
    ensures FieldStep(ps, c) == Some(ps)
  {
  }

  lemma SyncedLags(call: Call, c: Cursor)
    requires Synced(call, c) && InScan(c.ps.state) && c.ps.nread < MAX_HEADER_SIZE
    ensures Lagging(call, c, c.p)
  {
    hide Run, StateInv, Holds, PenOf;
    assert c.(ps := c.ps.(nread := c.ps.nread + (c.p - c.p))) == c;
  }

  /** COUNT_HEADER_SIZE at the end of a scan: the byte at `start` has been counted on its own, the lump
      covers the rest up to and including the byte at `p`. */
  lemma LumpCounts(call: Call, c: Cursor, start: nat)
    requires Lagging(call, c, start) && c.p < |call.data| && c.p - start < LUMP_LIMIT
    ensures match CountHeader(c.ps.nread + 1, c.p - start)
            case None => Fails(call, c.trace, HeaderOverflow)
            case Some(n) => n == c.ps.nread + (c.p - start) + 1 && n <= MAX_HEADER_SIZE
  {
    hide Run, Valid, Holds, PenOf, FellAt, Fails;
    var n := c.ps.nread + (c.p - start);
    if n > MAX_HEADER_SIZE {
      var q :| FellAt(call, c, q);
      FellFails(call, c, q, HeaderOverflow);
    } else if n == MAX_HEADER_SIZE {
      OverflowFails(call, c.(ps := c.ps.(nread := n)));
    }
  }

  /** The same when the scan has used up the input: nothing is left to count. */
  lemma LumpCountsAll(call: Call, c: Cursor, start: nat)
    requires Lagging(call, c, start) && start < c.p == |call.data| && c.p - start <= LUMP_LIMIT
    ensures match CountHeader(c.ps.nread + 1, c.p - 1 - start)
            case None => Fails(call, c.trace, HeaderOverflow)
            case Some(n) => Synced(call, c.(ps := c.ps.(nread := n)))
  {
    hide Run, Valid, Holds, PenOf, FellAt, Fails;
    if c.ps.nread + (c.p - start) > MAX_HEADER_SIZE {
      var q :| FellAt(call, c, q);
      FellFails(call, c, q, HeaderOverflow);
    }
  }

  /** The byte that ends a scan, dispatched with the lump counted. */
  lemma LumpThenByte(call: Call, c: Cursor, start: nat, n: nat)
    requires Lagging(call, c, start) && c.p < |call.data|
    requires n == c.ps.nread + (c.p - start) + 1 && n <= MAX_HEADER_SIZE
    ensures forall k <- c.marks :: c.marks[k] <= c.p
    ensures Tracks(call, Played(Chain(c.ps.(nread := n), call.data[c.p]), c, call.data))
  {
    hide Run, Chain, Valid, Holds, PenOf, Played, FellAt, Fails;
    var here := c.(ps := c.ps.(nread := n - 1));
    OneByte(call, here);
    assert here.ps.(nread := n) == c.ps.(nread := n);
    assert Feed(here.ps, call.data[c.p]) == Chain(c.ps.(nread := n), call.data[c.p]);
    PlayedIgnoresParser(call, Chain(c.ps.(nread := n), call.data[c.p]), here, c);
  }

  lemma PlayedIgnoresParser(call: Call, fed: Fed, c: Cursor, d: Cursor)
    requires c.p < |call.data| && forall k <- c.marks :: c.marks[k] <= c.p
    requires d == c.(ps := d.ps)
    ensures Tracks(call, Played(fed, c, call.data)) == Tracks(call, Played(fed, d, call.data))
  {
    hide Synced, Run, Fails;
  }

  // ---------------------------------------------------------------- how long a scan can be

  /** A lump shorter than this cannot carry the 32-bit counter round to a value within its limit. */
  const LUMP_LIMIT: nat := UINT32_RANGE - MAX_HEADER_SIZE

  predicate EndsLine(ch: Byte) { ch == CR || ch == LF }

  /** Where the line that byte `p` is in ends, or the data. */
  function LineEnd(data: seq<Byte>, p: nat): (e: nat)
    requires p <= |data|
    ensures p <= e <= |data| && (e < |data| ==> EndsLine(data[e]))
    ensures forall i :: p <= i < e ==> !EndsLine(data[i])
    decreases |data| - p
  {
    if p == |data| || EndsLine(data[p]) then p else LineEnd(data, p + 1)
  }

  /** A scan from `p` cannot count too large a lump: the line is within the header limit, or the rest of
      the call is short enough. */
  predicate LineFits(data: seq<Byte>, p: nat)
    requires p <= |data|
  {
    |data| - p < LUMP_LIMIT || LineEnd(data, p) - p < MAX_HEADER_SIZE
  }

  /** Byte `p` of the call is in a header name or value. */
  predicate InHeaderLine(call: Call, p: nat)
    requires p <= |call.data|
  {
    var r := Run(call.ps, call.t, call.data[..p]);
    r.outcome.Going? && InScan(r.ps.state)
  }

  /** Every header line of the call that is longer than the header limit has less than LUMP_LIMIT bytes
      behind its beginning. Body bytes are not restricted. */
  ghost predicate LinesFit(call: Call) {
    forall p: nat :: p < |call.data| && InHeaderLine(call, p) ==> LineFits(call.data, p)
  }

  lemma ShortFits(call: Call)
    requires |call.data| < LUMP_LIMIT
    ensures LinesFit(call)
  {
    hide InHeaderLine;
  }

  lemma SyncedFits(call: Call, c: Cursor)
    requires LinesFit(call) && Synced(call, c) && c.p < |call.data| && InScan(c.ps.state)
    ensures LineFits(call.data, c.p)
  {
    hide Run, Holds, PenOf, LineFits;
    assert InHeaderLine(call, c.p);
  }

  /** The turn of the loop in state s_header_field. */
  method FieldTurn(ghost call: Call, data: seq<Byte>, c: Cursor) returns (m: Moved)
    requires data == call.data && c.p < |data| && LineFits(data, c.p)
    requires Synced(call, c) && c.ps.state.HeaderField?
    ensures Tracks(call, m) && (m.Moved? ==> m.c.p > c.p)
  {
    hide Run, Holds, PenOf, NameState, ValueState, MethodState, Chain, Token, FieldStep, Lagging, Fails;
    SyncedMarks(call, c);
    var n := CountHeader(c.ps.nread, 1);
    if n.None? {
      OverflowFails(call, c);
      return Broke(c, HeaderOverflow);
    }
    SyncedLags(call, c);
    var d := ScanField(call, data, c);
    NameInLine(data, c.p, d.p);
    if d.p == |data| {
      LumpCountsAll(call, d, c.p);
      var lump := CountHeader(n.value, d.p - 1 - c.p);
      if lump.None? { return Broke(d.(p := d.p - 1), HeaderOverflow); }
      return Moved(d.(ps := d.ps.(nread := lump.value)));
    }
    LumpCounts(call, d, c.p);
    var lump := CountHeader(n.value, d.p - c.p);
    if lump.None? { return Broke(d, HeaderOverflow); }
    LumpThenByte(call, d, c.p, lump.value);
    m := Played(Chain(d.ps.(nread := lump.value), data[d.p]), d, data);
  }

  lemma NameInLine(data: seq<Byte>, p: nat, q: nat)
    requires p <= q <= |data| && forall i :: p <= i < q ==> IsToken(data[i])
    ensures q <= LineEnd(data, p)
  {
  }

  // ---------------------------------------------------------------- header values

  /** `v` with the counter of its parser set to `n`. */
  function Recount(v: Valued, n: nat): Valued {
    match v
    case Good(ps) => Good(ps.(nread := n))
    case Bad(e) => v
  }

  lemma DigitIgnoresCount(ps: Parser, ch: Byte, n: nat)
    ensures ContentLengthDigit(ps.(nread := n), ch) == Recount(ContentLengthDigit(ps, ch), n)
  {
    hide Wrap64;
  }

  lemma FlagIgnoresCount(ps: Parser, n: nat)
    ensures ConnectionFlag(ps.(nread := n)) == ConnectionFlag(ps).(nread := n)
  {
  }

  lemma ValueStepIgnoresCount(ps: Parser, ch: Byte, n: nat)
    ensures ValueStep(ps.(nread := n), ch) == Recount(ValueStep(ps, ch), n)
  {
    hide Match, Lower, IsToken, CHUNKED, KEEP_ALIVE, CLOSE, UPGRADE, ConnectionFlag, ContentLengthDigit;
    var c := Lower(ch);
    match ps.hstate {
      case ContentLength => DigitIgnoresCount(ps.(hstate := ContentLengthNum), ch, n);
      case ContentLengthNum => DigitIgnoresCount(ps, ch, n);
      case MatchingTeChunked => MatchIgnoresCount(ps, CHUNKED, c, TeToken, TeChunked, n);
      case MatchingConnKeepAlive => MatchIgnoresCount(ps, KEEP_ALIVE, c, ConnToken, ConnKeepAlive, n);
      case MatchingConnClose => MatchIgnoresCount(ps, CLOSE, c, ConnToken, ConnClose, n);
      case MatchingConnUpgrade => MatchIgnoresCount(ps, UPGRADE, c, ConnToken, ConnUpgrade, n);
      case ConnKeepAlive | ConnClose | ConnUpgrade => FlagIgnoresCount(ps, n);
      case _ =>
    }
  }

  /** A cursor inside a header value. */
  predicate InValue(ps: Parser) { ps.state.HeaderValue? && ValueChange(ps, ps) }

  lemma LagValue(call: Call, c: Cursor, start: nat)
    requires Lagging(call, c, start) && c.p < |call.data| && InValue(c.ps)
    requires !EndsLine(call.data[c.p]) && IsHeaderChar(call.data[c.p])
    ensures match ValueStep(c.ps, call.data[c.p])
            case Bad(e) => e != Ok && Fails(call, c.trace, e)
            case Good(next) =>
              && InValue(next) && next.nread == c.ps.nread
              && Lagging(call, Cursor(next, c.marks, c.trace, c.p + 1), start)
  {
    hide Lagging, ValueStep, IsHeaderChar, ValueState, Fails;
    ValueStepState(c.ps, call.data[c.p]);
    var ch := call.data[c.p];
    ValueStepOk(c.ps, ch);
    var v := ValueStep(c.ps, ch);
    forall n: nat
      ensures Dispatch(c.ps.(nread := n), ch) == if v.Good? then Next(v.ps.(nread := n), []) else Fail(v.errno)
    {
      ValueStepIgnoresCount(c.ps, ch, n);
    }
    if v.Good? { LagByte(call, c, start, v.ps); } else { LagRefused(call, c, start, v.errno); }
  }

  lemma LagBadChar(call: Call, c: Cursor, start: nat)
    requires Lagging(call, c, start) && c.p < |call.data| && c.ps.state.HeaderValue?
    requires !EndsLine(call.data[c.p]) && !IsHeaderChar(call.data[c.p])
    ensures Fails(call, c.trace, InvalidHeaderToken)
  {
    hide Lagging, ValueStep, IsHeaderChar, Fails;
    LagRefused(call, c, start, InvalidHeaderToken);
  }

  lemma GeneralValueStays(ps: Parser, ch: Byte)
    requires ps.hstate.General?
    ensures ValueStep(ps, ch) == Good(ps)
  {
  }

  /** The scan of a header value: on to the CR or LF that ends the line. A value that matches nothing
      is run over in an inner loop, which after MAX_HEADER_SIZE bytes steps over one byte unseen. */
  method ScanValue(ghost call: Call, data: seq<Byte>, c: Cursor) returns (d: Cursor, e: Errno)
    requires data == call.data && c.p < |data| && Lagging(call, c, c.p) && InValue(c.ps)
    ensures e != Ok ==> Fails(call, d.trace, e)
    ensures e == Ok ==> Lagging(call, d, c.p) && InValue(d.ps) && d.ps.nread == c.ps.nread
    ensures e == Ok ==> c.p <= d.p <= |data| && (d.p < |data| ==> EndsLine(data[d.p]))
    ensures e == Ok && LineEnd(data, c.p) - c.p < MAX_HEADER_SIZE ==> d.p <= LineEnd(data, c.p)
    ensures c.ps.hstate.General? && (forall i :: c.p <= i < |data| ==> IsHeaderChar(data[i])) ==> e == Ok
    ensures e == Ok && c.ps.hstate.General? ==> d.ps == c.ps
    ensures d.marks == c.marks && d.trace == c.trace
  {
    hide Lagging, ValueStep, IsHeaderChar, InValue, Fails, LineEnd;
    ghost var end := LineEnd(data, c.p);
    var h, p := c.ps, c.p;
    d := c;
    while p < |data| && !EndsLine(data[p])
      invariant c.p <= p <= |data|
      invariant Lagging(call, Cursor(h, c.marks, c.trace, p), c.p)
      invariant InValue(h) && h.nread == c.ps.nread && (c.ps.hstate.General? ==> h == c.ps)
      invariant end - c.p < MAX_HEADER_SIZE ==> p <= end
    {
      if !IsHeaderChar(data[p]) {
        InValueState(h);
        LagBadChar(call, Cursor(h, c.marks, c.trace, p), c.p);
        return Cursor(h, c.marks, c.trace, p), InvalidHeaderToken;
      }
      if h.hstate.General? {
        var left := |data| - p;
        var pe := p + if left < MAX_HEADER_SIZE then left else MAX_HEADER_SIZE;
        while p < pe && !EndsLine(data[p])
          invariant c.p <= p <= pe <= |data|
          invariant Lagging(call, Cursor(h, c.marks, c.trace, p), c.p)
          invariant end - c.p < MAX_HEADER_SIZE ==> p <= end
        {
          if !IsHeaderChar(data[p]) {
            InValueState(h);
            LagBadChar(call, Cursor(h, c.marks, c.trace, p), c.p);
            return Cursor(h, c.marks, c.trace, p), InvalidHeaderToken;
          }
          LagValue(call, Cursor(h, c.marks, c.trace, p), c.p);
          GeneralValueStays(h, data[p]);
          p := p + 1;
        }
        if p == pe && pe < |data| {
          LagSkipped(call, Cursor(h, c.marks, c.trace, p), c.p);
          p := p + 1;
        }
      } else {
        LagValue(call, Cursor(h, c.marks, c.trace, p), c.p);
        match ValueStep(h, data[p])
        case Bad(refused) => return Cursor(h, c.marks, c.trace, p), refused;
        case Good(next) => h := next;
        p := p + 1;
      }
    }
    d, e := Cursor(h, c.marks, c.trace, p), Ok;
  }

  lemma InValueState(ps: Parser)
    requires InValue(ps)
    ensures ps.state.HeaderValue? && ParsingHeader(ps.state)
  {
  }

  lemma SyncedInValue(call: Call, c: Cursor)
    requires Synced(call, c) && c.ps.state.HeaderValue?
    ensures InValue(c.ps) && c.ps.nread <= MAX_HEADER_SIZE
  {
    hide Run, Holds, PenOf, ValueState;
  }

  /** CR in a header value does not look at the counter: the program counts it after its callback. */
  lemma CrIgnoresCount(ps: Parser, n: nat)
    requires ps.state.HeaderValue?
    ensures Chain(ps.(nread := n), CR) == Fed(ps.(nread := n, state := HeaderAlmostDone), [Flush(ValueData)], false)
  {
    hide ValueStep, IsHeaderChar;
  }

  lemma OnlyMark(marks: Marks, k: DataKind, p: nat)
    requires marks.Keys == {k} && marks[k] <= p
    ensures forall j <- marks :: marks[j] <= p
  {
    assert forall j <- marks :: j in marks.Keys;
  }

  lemma LaggingMarks(call: Call, c: Cursor, start: nat)
    requires Lagging(call, c, start)
    ensures forall k <- c.marks :: c.marks[k] <= c.p
  {
    hide Run, Valid;
    if c.ps.nread + (c.p - start) <= MAX_HEADER_SIZE {
      SyncedMarks(call, c.(ps := c.ps.(nread := c.ps.nread + (c.p - start))));
    } else {
      OnlyMark(c.marks, ScanKind(c.ps.state), c.p);
    }
  }

  /** When the count after CR fails, the callback has been made, with all of the value scanned. */
  lemma CrOverflows(call: Call, c: Cursor, start: nat)
    requires Lagging(call, c, start) && c.p < |call.data| && c.ps.state.HeaderValue?
    requires c.ps.nread + (c.p - start) + 1 > MAX_HEADER_SIZE
    ensures forall k <- c.marks :: c.marks[k] <= c.p
    ensures Fails(call, Play([Flush(ValueData)], c.marks, c.trace, call.data, c.p).1, HeaderOverflow)
  {
    hide Run, Valid, Emit;
    var here := c.(ps := c.ps.(nread := MAX_HEADER_SIZE));
    var q := c.p;
    if c.ps.nread + (c.p - start) == MAX_HEADER_SIZE {
      OverflowFalls(call, here);
      StaysFallen(call, here, c, q);
    } else {
      q :| FellAt(call, c, q);
    }
    OnlyMark(c.marks, ValueData, c.p);
    var x, y := call.data[c.marks[ValueData]..c.p], call.data[c.marks[ValueData]..q];
    var t := Emit(c.trace, Data(ValueData, x));
    assert Play([Flush(ValueData)], c.marks, c.trace, call.data, c.p).1 == t;
    assert Longer(t, RunOf(call).trace, c.trace, ValueData, x, y);
  }

  /** CR after a header value: the callback comes first, then the count of the lump. */
  method ValueCr(ghost call: Call, data: seq<Byte>, c: Cursor, start: nat) returns (m: Moved)
    requires data == call.data && c.p < |data| && data[c.p] == CR && c.ps.state.HeaderValue?
    requires Lagging(call, c, start) && c.p - start < LUMP_LIMIT
    ensures Tracks(call, m) && (m.Moved? ==> m.c.p > c.p)
  {
    hide Run, Holds, PenOf, Valid, Chain, Play, Fails, FellAt;
    LumpCounts(call, c, start);
    LaggingMarks(call, c, start);
    var fed := Chain(c.ps, CR);
    CrIgnoresCount(c.ps, c.ps.nread);
    var (marks, t) := Play(fed.acts, c.marks, c.trace, data, c.p);
    var lump := CountHeader(c.ps.nread + 1, c.p - start);
    if lump.None? {
      CrOverflows(call, c, start);
      return Broke(Cursor(fed.ps, marks, t, c.p), HeaderOverflow);
    }
    CrIgnoresCount(c.ps, lump.value);
    LumpThenByte(call, c, start, lump.value);
    m := Moved(Cursor(fed.ps.(nread := lump.value), marks, t, c.p + 1));
  }

  /** From byte `p` on nothing ends a header line, and nothing is refused in one. */
  predicate RunsOn(data: seq<Byte>, p: nat) {
    forall i :: p <= i < |data| ==> IsHeaderChar(data[i]) && !EndsLine(data[i])
  }

  /** The rest of the call is part of a header value that nobody looks for. */
  predicate Overlong(data: seq<Byte>, c: Cursor) {
    c.ps.state.HeaderValue? && c.ps.hstate.General? && c.p < |data| && RunsOn(data, c.p)
  }

  /** Such a rest is counted as a byte and a lump, and nothing else happens to it. */
  function CountedOn(data: seq<Byte>, c: Cursor): (m: Moved)
    requires c.p < |data|
    ensures m.Moved? ==> m.c.p == |data|
    ensures !m.Left?
  {
    match CountHeader(c.ps.nread, 1)
    case None => Broke(c, HeaderOverflow)
    case Some(one) =>
      match CountHeader(one, |data| - 1 - c.p)
      case None => Broke(c.(p := |data| - 1), HeaderOverflow)
      case Some(n) => Moved(c.(ps := c.ps.(nread := n), p := |data|))
  }

  /** The turn of the loop in state s_header_value. */
  method ValueTurn(ghost call: Call, data: seq<Byte>, c: Cursor) returns (m: Moved)
    requires data == call.data && c.p < |data| && (LineFits(data, c.p) || Overlong(data, c))
    requires Synced(call, c) && c.ps.state.HeaderValue?
    ensures (LineFits(data, c.p) ==> Tracks(call, m)) && (m.Moved? ==> m.c.p > c.p)
    ensures Overlong(data, c) ==> m == CountedOn(data, c)
  {
    hide Run, Holds, PenOf, StateInv, Chain, ValueStep, Lagging, InValue, Fails, LineEnd;
    SyncedMarks(call, c);
    SyncedInValue(call, c);
    var n := CountHeader(c.ps.nread, 1);
    if n.None? {
      OverflowFails(call, c);
      return Broke(c, HeaderOverflow);
    }
    SyncedLags(call, c);
    var d, e := ScanValue(call, data, c);
    if e != Ok { return Broke(d, e); }
    InValueState(d.ps);
    if d.p == |data| {
      var lump := CountHeader(n.value, d.p - 1 - c.p);
      if LineFits(data, c.p) { LumpCountsAll(call, d, c.p); }
      if lump.None? { return Broke(d.(p := d.p - 1), HeaderOverflow); }
      return Moved(d.(ps := d.ps.(nread := lump.value)));
    }
    if data[d.p] == CR {
      m := ValueCr(call, data, d, c.p);
    } else {
      LumpCounts(call, d, c.p);
      var lump := CountHeader(n.value, d.p - c.p);
      if lump.None? { return Broke(d, HeaderOverflow); }
      LumpThenByte(call, d, c.p, lump.value);
      m := Played(Chain(d.ps.(nread := lump.value), data[d.p]), d, data);
    }
  }

  // ---------------------------------------------------------------- body bytes

  predicate TakesBody(s: State) { s.BodyIdentity? || s.ChunkData? }

  function MarkBody(marks: Marks, p: nat): Marks { if BodyData in marks then marks else marks[BodyData := p] }

  /** One body byte that is not the last. */
  lemma BodyByte(call: Call, c: Cursor)
    requires Synced(call, c) && c.p < |call.data| && TakesBody(c.ps.state) && c.ps.contentLength > 1
    ensures Synced(call, Cursor(c.ps.(contentLength := c.ps.contentLength - 1), MarkBody(c.marks, c.p), c.trace,
                                c.p + 1))
  {
    hide Run, Holds, PenOf, Feed, Play;
    OneByte(call, c);
    BodyFeed(c.ps, call.data[c.p]);
    PlayMark(c.marks, c.trace, call.data, c.p);
  }

  lemma BodyFeed(ps: Parser, ch: Byte)
    requires Valid(ps) && TakesBody(ps.state) && ps.contentLength > 1
    ensures Feed(ps, ch) == Fed(ps.(contentLength := ps.contentLength - 1), [Mark(BodyData)], false)
  {
  }

  lemma PlayMark(marks: Marks, t: Trace, data: seq<Byte>, p: nat)
    requires p < |data| && forall k <- marks :: marks[k] <= p
    ensures Play([Mark(BodyData)], marks, t, data, p) == (MarkBody(marks, p), t)
  {
    assert [Mark(BodyData)][1..] == [];
  }

  /** `k` body bytes short of the last. */
  lemma {:induction false} BodyBytes(call: Call, c: Cursor, k: nat)
    requires Synced(call, c) && c.p + k <= |call.data| && TakesBody(c.ps.state) && 0 < k < c.ps.contentLength
    ensures Synced(call, Cursor(c.ps.(contentLength := c.ps.contentLength - k), MarkBody(c.marks, c.p), c.trace,
                                c.p + k))
  {
    hide Synced;
    if k == 1 {
      BodyByte(call, c);
    } else {
      BodyBytes(call, c, k - 1);
      BodyByte(call, Cursor(c.ps.(contentLength := c.ps.contentLength - (k - 1)), MarkBody(c.marks, c.p), c.trace,
                            c.p + (k - 1)));
    }
  }

  lemma {:induction false} PlayConcat(a: seq<Act>, b: seq<Act>, marks: Marks, t: Trace, data: seq<Byte>, p: nat)
    requires p < |data| && forall k <- marks :: marks[k] <= p
    ensures var (m, u) := Play(a, marks, t, data, p);
            Play(a + b, marks, t, data, p) == Play(b, m, u, data, p)
    decreases |a|
  {
    if a == [] {
      assert a + b == b;
    } else {
      assert (a + b)[1..] == a[1..] + b;
      var (m, u) := PlayOne(a[0], marks, t, data, p);
      PlayConcat(a[1..], b, m, u, data, p);
    }
  }

  /** The turn of the loop in the states s_body_identity and s_chunk_data: as many bytes at once as
      the message and the input have. */
  method BodyTurn(ghost call: Call, data: seq<Byte>, c: Cursor) returns (m: Moved)
    requires data == call.data
    requires Synced(call, c) && c.p < |data| && TakesBody(c.ps.state)
    ensures Tracks(call, m) && (m.Moved? ==> m.c.p > c.p)
  {
    hide Synced, Chain, Emit, Play;
    SyncedMarks(call, c);
    SyncedBody(call, c);
    var left := |data| - c.p;
    var toRead := if c.ps.contentLength < left then c.ps.contentLength else left;
    var marks := MarkBody(c.marks, c.p);
    var ps := c.ps.(contentLength := c.ps.contentLength - toRead);
    var p := c.p + toRead - 1;
    ghost var before := c;
    if toRead > 1 {
      BodyBytes(call, c, toRead - 1);
      before := Cursor(c.ps.(contentLength := c.ps.contentLength - (toRead - 1)), marks, c.trace, p);
    }
    assert MarkBody(before.marks, p) == marks;
    if ps.contentLength != 0 {
      BodyByte(call, before);
      return Moved(Cursor(ps, marks, c.trace, p + 1));
    }
    if ps.state.ChunkData? {
      LastChunkByte(call, before);
      return Moved(Cursor(ps.(state := ChunkDataAlmostDone), marks, c.trace, p + 1));
    }
    LastBodyByte(call, before);
    ps := ps.(state := MessageDone);
    var t := Emit(c.trace, Data(BodyData, data[marks[BodyData]..p + 1]));
    marks := marks - {BodyData};
    m := Played(Chain(ps, data[p]), Cursor(ps, marks, t, p), data);
  }

  lemma SyncedBody(call: Call, c: Cursor)
    requires Synced(call, c) && TakesBody(c.ps.state)
    ensures c.ps.contentLength > 0 && c.marks.Keys <= {BodyData}
  {
    hide Run;
  }

  lemma LastChunkByte(call: Call, c: Cursor)
    requires Synced(call, c) && c.p < |call.data| && c.ps.state.ChunkData? && c.ps.contentLength == 1
    ensures Synced(call, Cursor(c.ps.(contentLength := 0, state := ChunkDataAlmostDone), MarkBody(c.marks, c.p),
                                c.trace, c.p + 1))
  {
    hide Run, Holds, PenOf, Valid;
    OneByte(call, c);
    SyncedLast(call, c);
    var acts := [Mark(BodyData)];
    assert acts[1..] == [];
    assert Feed(c.ps, call.data[c.p]) == Fed(c.ps.(contentLength := 0, state := ChunkDataAlmostDone), acts, false);
    assert Play(acts, c.marks, c.trace, call.data, c.p) == (MarkBody(c.marks, c.p), c.trace);
  }

  /** The last body byte is delivered with the mark, and the same byte then ends the message. */
  lemma LastBodyByte(call: Call, c: Cursor)
    requires Synced(call, c) && c.p < |call.data| && c.ps.state.BodyIdentity? && c.ps.contentLength == 1
    ensures var marks := MarkBody(c.marks, c.p);
            var done := c.ps.(contentLength := 0, state := MessageDone);
            && marks[BodyData] <= c.p && marks - {BodyData} == map[]
            && var t := Emit(c.trace, Data(BodyData, call.data[marks[BodyData]..c.p + 1]));
            Tracks(call, Played(Chain(done, call.data[c.p]), Cursor(done, map[], t, c.p), call.data))
  {
    hide Run, Holds, PenOf, Valid, Play, Emit;
    SyncedMarks(call, c);
    SyncedBody(call, c);
    OneByte(call, c);
    var ch := call.data[c.p];
    var marks := MarkBody(c.marks, c.p);
    assert marks - {BodyData} == map[];
    var done := c.ps.(contentLength := 0, state := MessageDone);
    var acts := [Mark(BodyData), FlushThrough(BodyData)];
    var t := Emit(c.trace, Data(BodyData, call.data[marks[BodyData]..c.p + 1]));
    PlayMarkThrough(c, call.data, marks, t);
    var rest := Chain(done, ch);
    LastBodyFeed(c.ps, ch);
    PlayConcat(acts, rest.acts, c.marks, c.trace, call.data, c.p);
  }

  lemma SyncedLast(call: Call, c: Cursor)
    requires Synced(call, c) && TakesBody(c.ps.state)
    ensures c.ps.state.ChunkData? ==> c.ps.flags.chunked
  {
    hide Run, Holds, PenOf;
  }

  lemma PlayMarkThrough(c: Cursor, data: seq<Byte>, marks: Marks, t: Trace)
    requires c.p < |data| && (forall k <- c.marks :: c.marks[k] <= c.p) && c.marks.Keys <= {BodyData}
    requires marks == MarkBody(c.marks, c.p) && t == Emit(c.trace, Data(BodyData, data[marks[BodyData]..c.p + 1]))
    ensures Play([Mark(BodyData), FlushThrough(BodyData)], c.marks, c.trace, data, c.p) == (map[], t)
  {
    hide Emit, Play;
    assert marks - {BodyData} == map[];
    PlayTwo(Mark(BodyData), FlushThrough(BodyData), c.marks, c.trace, data, c.p);
  }

  lemma PlayTwo(a: Act, b: Act, marks: Marks, t: Trace, data: seq<Byte>, p: nat)
    requires p < |data| && forall k <- marks :: marks[k] <= p
    ensures var (m, u) := PlayOne(a, marks, t, data, p);
            Play([a, b], marks, t, data, p) == PlayOne(b, m, u, data, p)
  {
    hide PlayOne;
    assert [a, b][1..] == [b] && [b][1..] == [];
    var (m, u) := PlayOne(a, marks, t, data, p);
    PlayOneMarks(a, marks, t, data, p);
    assert Play([b], m, u, data, p) == PlayOne(b, m, u, data, p);
  }

  lemma PlayOneMarks(a: Act, marks: Marks, t: Trace, data: seq<Byte>, p: nat)
    requires p < |data| && forall k <- marks :: marks[k] <= p
    ensures forall k <- PlayOne(a, marks, t, data, p).0 :: PlayOne(a, marks, t, data, p).0[k] <= p
  {
  }

  // ---------------------------------------------------------------- the whole call

  lemma SyncedStart(call: Call)
    requires Valid(call.ps)
    ensures Synced(call, Cursor(call.ps, EntryMarks(call.ps.state), call.t, 0))
  {
    hide StateInv;
    assert call.data[..0] == [];
  }

  /** At the end of the input at most one mark is left, and its callback completes what was delivered. */
  lemma SyncedEnd(call: Call, c: Cursor)
    requires Synced(call, c) && c.p == |call.data| > 0
    ensures forall k <- c.marks :: c.marks[k] <= |call.data|
    ensures |c.marks| <= 1
    ensures RunOf(call) == Ran(c.ps, FlushAll(c.marks, c.trace, call.data), |call.data|, Going)
    ensures Valid(c.ps)
  {
    hide Run, Valid, FlushAll, Emit, OpenKind;
    SyncedMarks(call, c);
    assert call.data[..|call.data|] == call.data;
    var pen := PenOf(c.ps.state);
    FlushAllNone(c.trace, call.data);
    if !pen.Closed? {
      KeysFit(c.marks, pen.kind);
      if pen.kind in c.marks {
        FlushAllMark(c.marks, pen.kind, c.trace, call.data);
      }
    }
  }

  lemma FlushAllNone(t: Trace, data: seq<Byte>)
    ensures FlushAll(map[], t, data) == t
  {
  }

  lemma FlushAllMark(marks: Marks, k: DataKind, t: Trace, data: seq<Byte>)
    requires marks.Keys == {k} && marks[k] <= |data|
    ensures forall j <- marks :: j == k
    ensures FlushAll(marks, t, data) == Emit(t, Data(k, data[marks[k]..|data|]))
  {
    hide Emit;
    assert forall j <- marks :: j in marks.Keys;
    assert data[marks[k]..] == data[marks[k]..|data|];
  }

  lemma KeysFit(marks: Marks, k: DataKind)
    requires marks.Keys <= {k}
    ensures |marks| <= 1 && (marks == map[] || marks.Keys == {k})
  {
    if k in marks { assert marks.Keys == {k}; } else { assert marks.Keys == {}; }
    assert |marks| == |marks.Keys|;
  }

  /** The turns of the loop that take a single byte. */
  method PlainTurn(ghost call: Call, data: seq<Byte>, c: Cursor) returns (m: Moved)
    requires data == call.data
    requires Synced(call, c) && c.p < |data|
    ensures Tracks(call, m) && (m.Moved? ==> m.c.p > c.p)
  {
    hide Synced, Feed, Play;
    OneByte(call, c);
    m := Played(Feed(c.ps, data[c.p]), c, data);
  }

  function Start(call: Call): Cursor { Cursor(call.ps, EntryMarks(call.ps.state), call.t, 0) }

  /** The whole call is part of a header value that nobody looks for. */
  predicate OverlongCall(call: Call) { Overlong(call.data, Start(call)) }

  /** How such a call ends: its bytes are delivered, if their count passes. */
  function Delivered(m: Moved, data: seq<Byte>): Moved {
    match m
    case Moved(c) => Moved(Cursor(c.ps, map[], Emit(c.trace, Data(ValueData, data)), c.p))
    case _ => m
  }

  ghost predicate LoopAgrees(call: Call, m: Moved) {
    match m
    case Moved(c) => RunOf(call) == Ran(c.ps, c.trace, |call.data|, Going) && c.p == |call.data| && Valid(c.ps)
    case Left(c) => RunOf(call) == Ran(c.ps, c.trace, c.p, Upgraded)
    case Broke(c, e) => e != Ok && SameFault(RunOf(call), c.trace, e)
  }

  lemma OverlongEnd(call: Call)
    requires OverlongCall(call) && CountedOn(call.data, Start(call)).Moved?
    ensures var c := CountedOn(call.data, Start(call)).c;
            && (forall k <- c.marks :: c.marks[k] <= |call.data|)
            && FlushAll(c.marks, c.trace, call.data) == Emit(c.trace, Data(ValueData, call.data))
  {
    hide Emit, RunsOn, FlushAll;
    var c := CountedOn(call.data, Start(call)).c;
    FlushAllMark(c.marks, ValueData, c.trace, call.data);
    assert call.data[0..|call.data|] == call.data;
  }

  /** The loop of http_parser_execute, on the function's local variables. */
  method Loop(data: seq<Byte>, ps: Parser, t: Trace) returns (m: Moved)
    requires Valid(ps) && data != [] && (LinesFit(Call(ps, t, data)) || OverlongCall(Call(ps, t, data)))
    ensures LinesFit(Call(ps, t, data)) ==> LoopAgrees(Call(ps, t, data), m)
    ensures OverlongCall(Call(ps, t, data)) ==> m == Delivered(CountedOn(data, Start(Call(ps, t, data))), data)
  {
    hide Synced, Valid, Run, EntryMarks, FlushAll, LinesFit, LineFits, SameFault, RunsOn, CountedOn;
    ghost var call := Call(ps, t, data);
    var c := Cursor(ps, EntryMarks(ps.state), t, 0);
    SyncedStart(call);
    while c.p < |data|
      invariant c.p <= |data| && (LinesFit(call) ==> Synced(call, c))
      invariant OverlongCall(call) ==>
                  c == Start(call) || (c.p == |data| && CountedOn(data, Start(call)) == Moved.Moved(c))
      decreases |data| - c.p
    {
      if LinesFit(call) && InScan(c.ps.state) { SyncedFits(call, c); }
      if c.ps.state.HeaderField? {
        m := FieldTurn(call, data, c);
      } else if c.ps.state.HeaderValue? {
        m := ValueTurn(call, data, c);
      } else if TakesBody(c.ps.state) {
        m := BodyTurn(call, data, c);
      } else {
        m := PlainTurn(call, data, c);
      }
      if !m.Moved? { return; }
      if LinesFit(call) { SyncedInside(call, m.c); }
      c := m.c;
    }
    if LinesFit(call) { SyncedEnd(call, c); }
    if OverlongCall(call) { OverlongEnd(call); }
    m := Moved(c.(marks := map[], trace := FlushAll(c.marks, c.trace, data)));
  }

  lemma SyncedInside(call: Call, c: Cursor)
    requires Synced(call, c)
    ensures c.p <= |call.data|
  {
    hide Run, Valid, Holds;
  }

  /** More bytes of a header value are well framed. */
  lemma ValueFramed(ps: Parser, t: Trace, data: seq<Byte>)
    ensures StageFits(ps, StageOf(t)) && ps.state.HeaderValue? ==>
              var q := StageOf(Emit(t, Data(ValueData, data)));
              !q.Broken? && forall n: nat :: StageFits(ps.(nread := n), q)
  {
    hide StageOf, Emit;
    StageOfEmit(t, Data(ValueData, data));
  }

  /** What a call returns and leaves behind, against a byte-wise run. */
  ghost predicate EndsAs(r: Ran, ps: Parser, t: Trace, n: nat) {
    if r.outcome.Failed? then ps.errno != Ok && SameFault(r, t, ps.errno)
    else ps == r.ps && Valid(ps) && t == r.trace && n == r.used
  }

  /** The same for a call that is all part of one header value that nobody looks for: it is taken if and only if its
      lump passes the count, whatever its length. */
  ghost predicate OverlongEnds(call: Call, ps: Parser, t: Trace, n: nat)
    requires OverlongCall(call)
  {
    var m := CountedOn(call.data, Start(call));
    if m.Moved? then ps == m.c.ps && t == Emit(call.t, Data(ValueData, call.data)) && n == |call.data|
    else ps == call.ps.(errno := HeaderOverflow) && t == call.t
  }

  /** The parser, the callbacks and the byte count after the loop. */
  function Stored(m: Moved): (Parser, Trace, nat) {
    (if m.Broke? then m.c.ps.(errno := m.errno) else m.c.ps, m.c.trace, m.c.p)
  }

  lemma LoopEnds(call: Call, m: Moved)
    requires Valid(call.ps) && call.data != [] && (LinesFit(call) || OverlongCall(call))
    requires LinesFit(call) ==> LoopAgrees(call, m)
    requires OverlongCall(call) ==> m == Delivered(CountedOn(call.data, Start(call)), call.data)
    ensures var (ps, t, n) := Stored(m);
            && (m.Moved? ==> n == |call.data|)
            && (LinesFit(call) ==> EndsAs(RunOf(call), ps, t, n))
            && (OverlongCall(call) ==> OverlongEnds(call, ps, t, n))
            && (StageFits(call.ps, StageOf(call.t)) ==>
                  !StageOf(t).Broken? && (ps.errno == Ok ==> StageFits(ps, StageOf(t))))
  {
    var (ps, t, n) := Stored(m);
    if LinesFit(call) { AgreedEnds(call, m); }
    if OverlongCall(call) { CountedEnds(call, m); }
  }

  lemma AgreedEnds(call: Call, m: Moved)
    requires Valid(call.ps) && LoopAgrees(call, m)
    ensures var (ps, t, n) := Stored(m);
            && (m.Moved? ==> n == |call.data|) && EndsAs(RunOf(call), ps, t, n)
            && (StageFits(call.ps, StageOf(call.t)) ==>
                  !StageOf(t).Broken? && (ps.errno == Ok ==> StageFits(ps, StageOf(t))))
  {
    hide Valid, Run, StageFits, StageOf, Like;
    RunOk(call.ps, call.t, call.data);
    if StageFits(call.ps, StageOf(call.t)) { RunFramed(call.ps, call.t, call.data); }
    if m.Broke? { FaultFramed(RunOf(call), m.c.trace, m.errno); }
  }

  lemma CountedEnds(call: Call, m: Moved)
    requires OverlongCall(call) && m == Delivered(CountedOn(call.data, Start(call)), call.data)
    ensures var (ps, t, n) := Stored(m);
            && (m.Moved? ==> n == |call.data|) && OverlongEnds(call, ps, t, n)
            && (StageFits(call.ps, StageOf(call.t)) ==>
                  !StageOf(t).Broken? && (ps.errno == Ok ==> StageFits(ps, StageOf(t))))
  {
    hide Run, StageFits, StageOf, RunsOn, Emit, EntryMarks;
    if StageFits(call.ps, StageOf(call.t)) {
      FitsNotBroken(call.ps, StageOf(call.t));
      ValueFramed(call.ps, call.t, call.data);
    }
  }

  lemma FailedRun(ps: Parser, t: Trace, data: seq<Byte>, n: nat)
    requires ps.errno != Ok
    ensures EndsAs(Run(ps, t, data), ps, t, n)
  {
  }

  /** Callbacks that agree with well framed ones up to an error are well framed. */
  lemma LikeFramed(t: Trace, u: Trace)
    requires Like(t, u) && !StageOf(u).Broken?
    ensures !StageOf(t).Broken?
  {
    hide Emit, StageOf;
    if t != u {
      if k, y :| HeldBack(t, u, k, y) {
        StageOfEmit(t, Data(k, y));
      } else {
        var before, k, x, y :| Longer(t, u, before, k, x, y);
        StageOfEmit(before, Data(k, x));
        StageOfEmit(before, Data(k, y));
      }
    }
  }

  lemma FaultFramed(r: Ran, t: Trace, e: Errno)
    requires SameFault(r, t, e)
    ensures !StageOf(r.trace).Broken? ==> !StageOf(t).Broken?
  {
    hide Like, StageOf;
    if !StageOf(r.trace).Broken? { LikeFramed(t, r.trace); }
  }

  class Http {
    var state: State
    var hstate: HState
    var index: nat
    var flags: Flags
    var usesTe: bool
    var allowChunkedLength: bool
    var nread: nat
    var contentLength: nat
    var major: nat
    var minor: nat
    var verb: Method
    var upgrade: bool
    var errno: Errno
    /** What the callbacks have been told so far. */
    var trace: Trace

    function Parser(): Parser
      reads this
    {
      HttpParser.Parser(state, hstate, index, flags, usesTe, allowChunkedLength, nread, contentLength, major, minor,
                        verb, upgrade, errno)
    }

    /** The callbacks so far are well framed, and as the parser expects them unless it has failed. */
    predicate WellFramed()
      reads this
    {
      !StageOf(trace).Broken? && (errno == Ok ==> StageFits(Parser(), StageOf(trace)))
    }

    constructor (allow: bool)
      ensures Parser() == Init(allow) && Valid(Parser()) && trace == [] && WellFramed()
    {
      state, hstate, index, flags, usesTe := StartReq, General, 0, NO_FLAGS, false;
      allowChunkedLength := allow;
      nread, contentLength, major, minor := 0, 0, 0, 0;
      verb, upgrade, errno, trace := DELETE, false, Ok, [];
      new;
      InitValid(allow);
    }

    method Store(ps: Parser)
      modifies this
      ensures Parser() == ps && trace == old(trace)
    {
      state, hstate, index, flags, usesTe := ps.state, ps.hstate, ps.index, ps.flags, ps.usesTe;
      nread, contentLength, major, minor := ps.nread, ps.contentLength, ps.major, ps.minor;
      verb, upgrade, errno, allowChunkedLength := ps.verb, ps.upgrade, ps.errno, ps.allowChunkedLength;
    }

    /** The call for an end of input. */
    method ExecuteEof() returns (n: nat)
      modifies this
      ensures old(errno) != Ok ==> Parser() == old(Parser()) && trace == old(trace) && n == 0
      ensures old(errno) == Ok && (old(state).Dead? || old(state).StartReq?) ==>
                Parser() == old(Parser()) && trace == old(trace) && n == 0
      ensures old(errno) == Ok && old(state).BodyIdentityEof? ==>
                Parser() == old(Parser()) && n == 0
                && trace == Emit(old(trace), Notice(Parser(), MessageComplete).event)
      ensures old(errno) == Ok && !(old(state).Dead? || old(state).StartReq? || old(state).BodyIdentityEof?) ==>
                Parser() == old(Parser()).(errno := InvalidEofState) && trace == old(trace) && n == 1
    {
      if errno != Ok { return 0; }
      match state
      case BodyIdentityEof =>
        trace := Emit(trace, Notice(Parser(), MessageComplete).event);
        return 0;
      case Dead | StartReq => return 0;
      case _ =>
        errno := InvalidEofState;
        return 1;
    }

    /** http_parser_execute on a non-empty input: it does what single-byte calls would do, if its header lines can
        be counted. One overlong header value in a call is what shows the difference. */
    method Execute(data: seq<Byte>) returns (n: nat)
      requires data != []
      requires errno == Ok ==> Valid(Parser())
      requires errno == Ok ==>
                 LinesFit(Call(Parser(), trace, data)) || OverlongCall(Call(Parser(), trace, data))
      modifies this
      ensures old(errno) != Ok || LinesFit(Call(old(Parser()), old(trace), data)) ==>
                EndsAs(Run(old(Parser()), old(trace), data), Parser(), trace, n)
      ensures old(errno) == Ok && OverlongCall(Call(old(Parser()), old(trace), data)) ==>
                OverlongEnds(Call(old(Parser()), old(trace), data), Parser(), trace, n)
      ensures old(errno) != Ok ==> Parser() == old(Parser()) && trace == old(trace) && n == 0
      ensures old(WellFramed()) ==> WellFramed()
    {
      if errno != Ok {
        FailedRun(Parser(), trace, data, 0);
        return 0;
      }
      hide Valid, Run, StageFits, StageOf, SameFault, LinesFit, LoopAgrees, EndsAs, OverlongEnds, OverlongCall,
        Delivered,
        CountedOn;
      ghost var call := Call(Parser(), trace, data);
      var m := Loop(data, Parser(), trace);
      LoopEnds(call, m);
      match m
      case Moved(c) =>
        Store(c.ps);
        trace := c.trace;
        n := |data|;
      case Left(c) =>
        Store(c.ps);
        trace := c.trace;
        n := c.p;
      case Broke(c, e) =>
        Store(c.ps.(errno := e));
        trace := c.trace;
        n := c.p;
    }
  }
}
