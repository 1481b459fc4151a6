// Facts about the reference semantics: runs compose, reachable parsers stay reachable, and the
// marks of a longer input stand for exactly the bytes that single-byte calls would have delivered.

module HttpRun {
  import opened Words
  import opened HttpChars
  import opened HttpParser
  import opened HttpInvariant

  // ---------------------------------------------------------------- runs compose

  /** Going on after `r` with more input. */
  function After(r: Ran, data: seq<Byte>): Ran {
    if r.outcome.Going? then
      var s := Run(r.ps, r.trace, data);
      s.(used := r.used + s.used)
    else r
  }

  lemma {:induction false} RunConcat(ps: Parser, t: Trace, a: seq<Byte>, b: seq<Byte>)
    ensures Run(ps, t, a + b) == After(Run(ps, t, a), b)
    decreases |a|
  {
    hide Step;
    if ps.errno != Ok {
    } else if a == [] {
      assert a + b == b;
    } else {
      assert (a + b)[0] == a[0] && (a + b)[1..] == a[1..] + b;
      var s := Step(ps, t, a[0]);
      if s.outcome.Going? { RunConcat(s.ps, s.trace, a[1..], b); }
    }
  }

  /** The run of a longer prefix, from the run of a shorter one. */
  lemma RunExtend(ps: Parser, t: Trace, data: seq<Byte>, i: nat, j: nat)
    requires i <= j <= |data|
    ensures Run(ps, t, data[..j]) == After(Run(ps, t, data[..i]), data[i..j])
  {
    hide Step, Run, After;
    assert data[..j] == data[..i] + data[i..j];
    RunConcat(ps, t, data[..i], data[i..j]);
  }

  lemma {:induction false} RunUsed(ps: Parser, t: Trace, data: seq<Byte>)
    ensures Run(ps, t, data).used <= |data|
    ensures Run(ps, t, data).outcome.Going? ==> Run(ps, t, data).used == |data|
    decreases |data|
  {
    hide Feed, Play, FlushAll;
    if ps.errno == Ok && data != [] {
      var s := Step(ps, t, data[0]);
      if s.outcome.Going? { RunUsed(s.ps, s.trace, data[1..]); }
    }
  }

  lemma StepOk(ps: Parser, t: Trace, ch: Byte)
    requires Valid(ps)
    ensures var s := Step(ps, t, ch);
            if s.outcome.Failed? then s.ps.errno != Ok && s.ps.errno != AssertionViolated else Valid(s.ps)
  {
    hide Feed, Play, FlushAll, StateInv;
    FeedOk(ps, ch);
  }

  /** Every run from a reachable parser stays among the reachable ones and breaks no assert. */
  lemma {:induction false} RunOk(ps: Parser, t: Trace, data: seq<Byte>)
    requires Valid(ps)
    ensures var r := Run(ps, t, data);
            if r.outcome.Failed? then r.ps.errno != Ok && r.ps.errno != AssertionViolated else Valid(r.ps)
    decreases |data|
  {
    hide Step, StateInv;
    if data != [] {
      StepOk(ps, t, data[0]);
      var s := Step(ps, t, data[0]);
      if s.outcome.Going? { RunOk(s.ps, s.trace, data[1..]); }
    }
  }

  lemma RunOne(ps: Parser, t: Trace, ch: Byte)
    requires Valid(ps)
    ensures Run(ps, t, [ch]) == Step(ps, t, ch)
  {
    hide Feed, Play, FlushAll, StateInv;
    StepOk(ps, t, ch);
    var s := Step(ps, t, ch);
    assert [ch][1..] == [];
    assert s.outcome.Going? ==> Run(s.ps, s.trace, []) == Ran(s.ps, s.trace, 0, Going);
  }

  // ---------------------------------------------------------------- joined data

  /** Whether a data callback of kind `k` is joined to the last one. */
  predicate Joins(t: Trace, k: DataKind) { t != [] && t[|t| - 1].Data? && t[|t| - 1].kind == k }

  lemma EmitJoined(t: Trace, k: DataKind, a: seq<Byte>)
    requires t != [] && t[|t| - 1].Data? && t[|t| - 1].kind == k
    ensures Joins(t, k) && Emit(t, Data(k, a)) == t[..|t| - 1] + [Data(k, t[|t| - 1].bytes + a)]
  {
  }

  lemma EmitApart(t: Trace, k: DataKind, a: seq<Byte>)
    requires !Joins(t, k)
    ensures Emit(t, Data(k, a)) == t + [Data(k, a)]
  {
  }

  lemma EmitJoins(t: Trace, k: DataKind, a: seq<Byte>, b: seq<Byte>)
    ensures Emit(Emit(t, Data(k, a)), Data(k, b)) == Emit(t, Data(k, a + b))
  {
    hide Emit;
    if Joins(t, k) {
      var n := |t| - 1;
      EmitJoined(t, k, a);
      EmitJoined(t, k, a + b);
      var u := t[..n] + [Data(k, t[n].bytes + a)];
      EmitJoined(u, k, b);
      assert u[..n] == t[..n] && u[n] == Data(k, t[n].bytes + a);
      assert t[n].bytes + a + b == t[n].bytes + (a + b);
    } else {
      EmitApart(t, k, a);
      EmitApart(t, k, a + b);
      var u := t + [Data(k, a)];
      EmitJoined(u, k, b);
      assert u[..|t|] == t && u[|t|] == Data(k, a);
    }
  }

  // ---------------------------------------------------------------- the discipline of the marks

  /** How a mark can stand: none set, set, or set unless this call has just begun. */
  datatype Pen = Closed | Open(kind: DataKind) | Half(kind: DataKind)

  function PenOf(s: State): Pen {
    match OpenKind(s)
    case Some(k) => Open(k)
    case None =>
      if s.BodyIdentity? || s.BodyIdentityEof? || s.ChunkData? || s.ChunkDataAlmostDone? then Half(BodyData)
      else Closed
  }

  /** The mark after one action; None if the action would reorder callbacks or lose bytes. */
  function PenAfter(q: Pen, a: Act): Option<Pen> {
    match a
    case Mark(k) => if q.Closed? || q.kind == k then Some(Open(k)) else None
    case Flush(k) => if !q.Closed? && q.kind == k then Some(Closed) else None
    case FlushThrough(k) => if q == Open(k) then Some(Closed) else None
    case Notify(e) => if q.Closed? && e.Note? then Some(q) else None
  }

  function PenAfterAll(q: Pen, acts: seq<Act>): Option<Pen>
    decreases |acts|
  {
    if acts == [] then Some(q)
    else match PenAfter(q, acts[0])
         case Some(r) => if |acts| == 1 then Some(r) else PenAfterAll(r, acts[1..])
         case None => None
  }

  /** The same for the at most two actions of one turn. */
  function PenAfterTurn(q: Pen, acts: seq<Act>): Option<Pen> {
    if |acts| == 0 then Some(q)
    else if |acts| == 1 then PenAfter(q, acts[0])
    else if |acts| == 2 && PenAfter(q, acts[0]).Some? then PenAfter(PenAfter(q, acts[0]).value, acts[1])
    else None
  }

  lemma PenAfterTurnIsAll(q: Pen, acts: seq<Act>)
    requires PenAfterTurn(q, acts).Some?
    ensures PenAfterAll(q, acts) == PenAfterTurn(q, acts)
  {
    if |acts| == 2 { assert acts[1..] == [acts[1]]; }
  }

  /** Whether mark `q` is what the next byte will expect in a state whose pen is `r`. */
  predicate Fits(q: Pen, r: Pen) {
    match r
    case Closed => q.Closed?
    case Open(k) => q == r
    case Half(k) => q.Closed? || q == Open(k)
  }

  predicate Disciplined(q: Pen, t: Turn) {
    match t
    case Next(ps, acts) => PenAfterTurn(q, acts).Some? && Fits(PenAfterTurn(q, acts).value, PenOf(ps.state))
    case Again(ps, acts) => PenAfterTurn(q, acts) == Some(Closed) && PenOf(ps.state) == Closed
    case Exit(ps, acts) => PenAfterTurn(q, acts) == Some(Closed)
    case Fail(_) => true
  }

  lemma UrlDiscipline(ps: Parser, ch: Byte)
    requires UrlState(ps.state) || ps.state.ReqSpacesBeforeUrl?
    ensures Disciplined(PenOf(ps.state), DispatchRequestLine(ps, ch))
  {
    hide ParseUrlChar, DispatchVersion;
    UrlStates(ps.state, ch);
    UrlStates(ReqServerStart, ch);
  }

  lemma StartDiscipline(ps: Parser, ch: Byte)
    requires ps.state.ReqMethod? || ps.state.StartReq? || ps.state.Dead?
    ensures Disciplined(PenOf(ps.state), DispatchRequestLine(ps, ch))
  {
    hide SwitchGuess, FirstGuess, MethodString, DispatchVersion;
  }

  lemma VersionDiscipline(ps: Parser, ch: Byte)
    ensures Disciplined(Closed, DispatchVersion(ps, ch))
  {
  }

  lemma RequestLineDiscipline(ps: Parser, ch: Byte)
    requires PartOf(ps.state).RequestLine?
    ensures Disciplined(PenOf(ps.state), DispatchRequestLine(ps, ch))
  {
    hide Disciplined, DispatchVersion;
    if UrlState(ps.state) || ps.state.ReqSpacesBeforeUrl? {
      UrlDiscipline(ps, ch);
    } else if ps.state.ReqMethod? || ps.state.StartReq? || ps.state.Dead? {
      StartDiscipline(ps, ch);
    } else {
      VersionDiscipline(ps, ch);
    }
  }

  lemma FieldStepState(ps: Parser, c: Byte)
    ensures FieldStep(ps, c).Some? ==> FieldStep(ps, c).value.state == ps.state
  {
    hide CONNECTION, PROXY_CONNECTION, CONTENT_LENGTH, TRANSFER_ENCODING, UPGRADE;
  }

  lemma ValueStepState(ps: Parser, ch: Byte)
    ensures ValueStep(ps, ch).Good? ==> ValueStep(ps, ch).ps.state == ps.state
  {
    hide CHUNKED, KEEP_ALIVE, CLOSE, UPGRADE, Lower, IsToken, Wrap64;
  }

  lemma FieldDiscipline(ps: Parser, ch: Byte)
    ensures ps.state.HeaderFieldStart? ==> Disciplined(Closed, DispatchFieldStart(ps, ch))
    ensures ps.state.HeaderField? ==> Disciplined(Open(FieldData), DispatchField(ps, ch))
  {
    hide Token, FieldStep;
    FieldStepState(ps, Token(ch));
  }

  lemma ValueStartDiscipline(ps: Parser, ch: Byte)
    ensures Disciplined(Closed, DispatchValueStart(ps, ch))
  {
    hide Lower, ValueStep, IsHeaderChar;
    match ps.hstate
    case Connection =>
    case ContentLength =>
    case _ =>
  }

  lemma InValueDiscipline(ps: Parser, ch: Byte)
    ensures ps.state.HeaderValue? ==> Disciplined(Open(ValueData), DispatchValue(ps, ch))
  {
    hide ValueStep, IsHeaderChar;
    ValueStepState(ps, ch);
  }

  lemma DoneDiscipline(ps: Parser, ch: Byte)
    ensures Disciplined(Closed, DispatchHeadersAlmostDone(ps, ch))
    ensures Disciplined(Closed, DispatchHeadersDone(ps, ch))
  {
  }

  lemma HeadersDiscipline(ps: Parser, ch: Byte)
    requires PartOf(ps.state).Headers?
    ensures Disciplined(PenOf(ps.state), DispatchHeaders(ps, ch))
  {
    if ps.state.HeaderValueLws? || ps.state.HeaderValueDiscardLws? || ps.state.HeaderAlmostDone?
       || ps.state.HeaderValueDiscardWsAlmostDone? {
      LineEndDiscipline(ps, ch);
    } else {
      FieldDiscipline(ps, ch);
      ValueStartDiscipline(ps, ch);
      InValueDiscipline(ps, ch);
      DoneDiscipline(ps, ch);
      PenOfHeaders(ps.state);
      hide DispatchFieldStart, DispatchField, DispatchValueStart, DispatchValue, DispatchHeadersAlmostDone,
        DispatchHeadersDone, FinishHeader, PenOf;
      WsDiscipline(ps, ch);
    }
  }

  lemma PenOfHeaders(s: State)
    ensures PartOf(s).Headers? ==>
              PenOf(s) == if s.HeaderField? then Open(FieldData) else if s.HeaderValue? then Open(ValueData) else Closed
  {
  }

  lemma WsDiscipline(ps: Parser, ch: Byte)
    ensures ps.state.HeaderValueDiscardWs? && (ch == ' ' || ch == '\t' || ch == CR || ch == LF) ==>
              Disciplined(Closed, DispatchHeaders(ps, ch))
  {
    hide DispatchValueStart;
  }

  lemma LineEndDiscipline(ps: Parser, ch: Byte)
    requires ps.state.HeaderValueLws? || ps.state.HeaderValueDiscardLws? || ps.state.HeaderAlmostDone?
             || ps.state.HeaderValueDiscardWsAlmostDone?
    ensures Disciplined(PenOf(ps.state), DispatchHeaders(ps, ch))
  {
    hide FinishHeader;
  }

  lemma ChunkHeadDiscipline(ps: Parser, ch: Byte)
    requires PartOf(ps.state).ChunkHead?
    ensures Disciplined(PenOf(ps.state), DispatchChunkHead(ps, ch))
  {
    hide Unhex, Wrap64, PenOf;
    ClosedPens(ps.state);
    var t := DispatchChunkHead(ps, ch);
    if t.Next? { ClosedPens(t.ps.state); }
  }

  /** States around a chunk's size, and the marks in them. */
  lemma ClosedPens(s: State)
    ensures PartOf(s).ChunkHead? || s.HeaderFieldStart? || s.MessageDone? || s.StartReq? || s.Dead? ==>
              PenOf(s) == Closed
    ensures s.ChunkData? ==> PenOf(s) == Half(BodyData)
  {
  }

  lemma ContentDiscipline(ps: Parser, ch: Byte)
    requires PartOf(ps.state).Content?
    ensures Disciplined(PenOf(ps.state), DispatchBody(ps, ch))
  {
    hide DispatchBody, PenOf, Disciplined;
    if ps.state.BodyIdentity? || ps.state.BodyIdentityEof? || ps.state.MessageDone? {
      IdentityDiscipline(ps, ch);
    } else {
      ChunkDiscipline(ps, ch);
    }
  }

  lemma IdentityDiscipline(ps: Parser, ch: Byte)
    requires ps.state.BodyIdentity? || ps.state.BodyIdentityEof? || ps.state.MessageDone?
    ensures Disciplined(PenOf(ps.state), DispatchBody(ps, ch))
  {
    hide ShouldKeepAlive;
  }

  lemma ChunkDiscipline(ps: Parser, ch: Byte)
    requires ps.state.ChunkData? || ps.state.ChunkDataAlmostDone? || ps.state.ChunkDataDone?
    ensures Disciplined(PenOf(ps.state), DispatchBody(ps, ch))
  {
    hide NewMessage;
  }

  lemma DispatchDiscipline(ps: Parser, ch: Byte)
    ensures Disciplined(PenOf(ps.state), Dispatch(ps, ch))
  {
    hide DispatchRequestLine, DispatchHeaders, DispatchChunkHead, DispatchBody, Disciplined, PenOf;
    match PartOf(ps.state) {
      case RequestLine => RequestLineDiscipline(ps, ch);
      case Headers => HeadersDiscipline(ps, ch);
      case ChunkHead => ChunkHeadDiscipline(ps, ch);
      case Content => ContentDiscipline(ps, ch);
    }
  }

  lemma {:induction false} PenAfterConcat(q: Pen, a: seq<Act>, b: seq<Act>)
    requires PenAfterAll(q, a).Some?
    ensures PenAfterAll(q, a + b) == PenAfterAll(PenAfterAll(q, a).value, b)
    decreases |a|
  {
    if a == [] {
      assert a + b == b;
    } else {
      assert (a + b)[1..] == a[1..] + b;
      assert |a| == 1 ==> a[1..] == [];
      PenAfterConcat(PenAfter(q, a[0]).value, a[1..], b);
    }
  }

  /** All turns for one byte together keep the discipline. */
  lemma {:induction false} ChainDiscipline(ps: Parser, ch: Byte)
    ensures match Chain(ps, ch)
            case Fed(next, acts, exit) =>
              var q := PenAfterAll(PenOf(ps.state), acts);
              q.Some? && if exit then q == Some(Closed) else Fits(q.value, PenOf(next.state))
            case Refused(_, acts) => PenAfterAll(PenOf(ps.state), acts).Some?
    decreases Rank(ps.state)
  {
    hide Dispatch, PenAfterAll, PenAfterTurn, OpenKind, Fits;
    DispatchDiscipline(ps, ch);
    AgainLowersRank(ps, ch);
    NoActs(PenOf(ps.state));
    var t := Dispatch(ps, ch);
    if !t.Fail? { PenAfterTurnIsAll(PenOf(ps.state), t.acts); }
    if t.Again? {
      ChainDiscipline(t.ps, ch);
      PenAfterConcat(PenOf(ps.state), t.acts, Chain(t.ps, ch).acts);
    }
  }

  lemma NoActs(q: Pen)
    ensures PenAfterAll(q, []) == Some(q)
  {
  }

  /** How often one byte goes through the state switch. */
  function Turns(ps: Parser, ch: Byte): nat
    decreases Rank(ps.state)
  {
    match Dispatch(ps, ch)
    case Again(next, _) =>
      AgainLowersRank(ps, ch);
      1 + Turns(next, ch)
    case _ => 1
  }

  /** Every byte is done with after four turns at most, and only the end of a header line takes so many. */
  lemma {:induction false} FewTurns(ps: Parser, ch: Byte)
    ensures 1 <= Turns(ps, ch) <= 1 + Rank(ps.state) <= 4
    ensures Turns(ps, ch) == 4 ==> ps.state.HeaderValueLws? || ps.state.HeaderValueDiscardLws?
    decreases Rank(ps.state)
  {
    hide Dispatch;
    AgainLowersRank(ps, ch);
    var t := Dispatch(ps, ch);
    if t.Again? { FewTurns(t.ps, ch); }
  }

  /** The byte that ends a body of known length: its turn, then the turn that ends the message. */
  lemma LastBodyFeed(ps: Parser, ch: Byte)
    requires ps.state.BodyIdentity? && ps.contentLength == 1
    ensures var rest := Chain(ps.(contentLength := 0, state := MessageDone), ch);
            rest.Fed?
            && Feed(ps, ch) == Fed(rest.ps, [Mark(BodyData), FlushThrough(BodyData)] + rest.acts, rest.exit)
  {
    var acts := [Mark(BodyData), FlushThrough(BodyData)];
    assert Dispatch(ps, ch) == Again(ps.(contentLength := 0, state := MessageDone), acts);
  }
}
