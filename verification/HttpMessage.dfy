// What lasts as long as a message: the flags that its header lines have set.

module HttpMessage {
  import opened HttpChars
  import opened HttpParser
  import opened HttpInvariant
  import opened HttpRun
  import opened HttpMarks
  import opened HttpFraming

  /** The flags that decide how the body is framed are not taken back. */
  predicate Lasts(was: Flags, now: Flags) {
    (was.contentLength ==> now.contentLength) && (was.chunked ==> now.chunked)
  }

  predicate TurnLasts(was: Flags, t: Turn) {
    match t
    case Next(ps, _) => Lasts(was, ps.flags)
    case Again(ps, _) => Lasts(was, ps.flags) && !ps.state.StartReq?
    case Exit(ps, _) => Lasts(was, ps.flags)
    case Fail(_) => true
  }

  lemma UrlLasts(ps: Parser, ch: Byte)
    requires UrlState(ps.state) || ps.state.ReqSpacesBeforeUrl?
    ensures TurnLasts(ps.flags, DispatchRequestLine(ps, ch))
  {
    hide DispatchRequestLine;
    UrlMoves(ps, ch);
  }

  lemma MethodLasts(ps: Parser, ch: Byte)
    requires ps.state.ReqMethod? || ps.state.Dead?
    ensures TurnLasts(ps.flags, DispatchRequestLine(ps, ch))
  {
    hide SwitchGuess, FirstGuess, MethodString, DispatchVersion;
  }

  lemma VersionLasts(ps: Parser, ch: Byte)
    requires VersionState(ps.state)
    ensures TurnLasts(ps.flags, DispatchVersion(ps, ch))
  {
    hide DispatchVersion;
    VersionTurn(ps, ch);
  }

  lemma RequestLineLasts(ps: Parser, ch: Byte)
    requires PartOf(ps.state).RequestLine? && !ps.state.StartReq?
    ensures TurnLasts(ps.flags, DispatchRequestLine(ps, ch))
  {
    hide TurnLasts, DispatchVersion;
    if UrlState(ps.state) || ps.state.ReqSpacesBeforeUrl? {
      UrlLasts(ps, ch);
    } else if ps.state.ReqMethod? || ps.state.Dead? {
      MethodLasts(ps, ch);
    } else {
      VersionLasts(ps, ch);
    }
  }

  lemma FieldLasts(ps: Parser, ch: Byte)
    ensures TurnLasts(ps.flags, DispatchFieldStart(ps, ch)) && TurnLasts(ps.flags, DispatchField(ps, ch))
  {
    hide Token, FieldStep;
    FieldKeepsFlags(ps, Token(ch));
  }

  lemma ValueStartLasts(ps: Parser, ch: Byte)
    ensures TurnLasts(ps.flags, DispatchValueStart(ps, ch))
  {
    hide Lower;
    match ps.hstate
    case Connection =>
    case ContentLength =>
    case _ =>
  }

  lemma OptionLasts(ps: Parser)
    ensures Lasts(ps.flags, ConnectionFlag(ps).flags)
  {
  }

  lemma ValueStepLasts(ps: Parser, ch: Byte)
    ensures ValueStep(ps, ch).Good? ==> Lasts(ps.flags, ValueStep(ps, ch).ps.flags)
  {
    hide Match, Lower, IsToken, ContentLengthDigit, ConnectionFlag, CHUNKED, KEEP_ALIVE, CLOSE, UPGRADE;
    OptionLasts(ps);
    MatchKeepsFlags(ps, Lower(ch));
    DigitKeepsFlags(ps, ch);
    DigitKeepsFlags(ps.(hstate := ContentLengthNum), ch);
  }

  lemma ValueLasts(ps: Parser, ch: Byte)
    ensures TurnLasts(ps.flags, DispatchValue(ps, ch))
  {
    hide ValueStep, IsHeaderChar;
    ValueStepLasts(ps, ch);
  }

  lemma EndLasts(ps: Parser, ch: Byte)
    ensures TurnLasts(ps.flags, DispatchHeadersAlmostDone(ps, ch)) && TurnLasts(ps.flags, DispatchHeadersDone(ps, ch))
  {
    hide NewMessage;
  }

  lemma FinishLasts(ps: Parser)
    ensures Lasts(ps.flags, FinishHeader(ps).flags)
  {
    match ps.hstate
    case TeChunked | ConnKeepAlive | ConnClose | ConnUpgrade =>
    case _ =>
  }

  lemma HeadersLasts(ps: Parser, ch: Byte)
    requires PartOf(ps.state).Headers?
    ensures TurnLasts(ps.flags, DispatchHeaders(ps, ch))
  {
    hide DispatchFieldStart, DispatchField, DispatchValueStart, DispatchValue, DispatchHeadersAlmostDone,
      DispatchHeadersDone, FinishHeader;
    FinishLasts(ps);
    match ps.state {
      case HeaderFieldStart | HeaderField => FieldLasts(ps, ch);
      case HeaderValue => ValueLasts(ps, ch);
      case HeadersAlmostDone | HeadersDone => EndLasts(ps, ch);
      case HeaderValueStart | HeaderValueDiscardWs => ValueStartLasts(ps, ch);
      case _ =>
    }
  }

  lemma ChunkHeadLasts(ps: Parser, ch: Byte)
    requires PartOf(ps.state).ChunkHead?
    ensures TurnLasts(ps.flags, DispatchChunkHead(ps, ch))
  {
    hide Unhex, Wrap64;
  }

  lemma ContentLasts(ps: Parser, ch: Byte)
    requires PartOf(ps.state).Content?
    ensures TurnLasts(ps.flags, DispatchBody(ps, ch))
  {
    hide NewMessage;
  }

  lemma DispatchLasts(ps: Parser, ch: Byte)
    requires !ps.state.StartReq?
    ensures TurnLasts(ps.flags, Dispatch(ps, ch))
  {
    hide DispatchRequestLine, DispatchHeaders, DispatchChunkHead, DispatchBody, TurnLasts;
    match PartOf(ps.state) {
      case RequestLine => RequestLineLasts(ps, ch);
      case Headers => HeadersLasts(ps, ch);
      case ChunkHead => ChunkHeadLasts(ps, ch);
      case Content => ContentLasts(ps, ch);
    }
  }

  /** Only the first byte of a message clears its flags. */
  lemma {:induction false} ChainLasts(ps: Parser, ch: Byte)
    requires !ps.state.StartReq?
    ensures Chain(ps, ch).Fed? ==> Lasts(ps.flags, Chain(ps, ch).ps.flags)
    decreases Rank(ps.state)
  {
    hide Dispatch;
    DispatchLasts(ps, ch);
    AgainLowersRank(ps, ch);
    var t := Dispatch(ps, ch);
    if t.Again? { ChainLasts(t.ps, ch); }
  }

  // ---------------------------------------------------------------- how many messages have begun

  function Begins(t: Trace): nat {
    if t == [] then 0 else Begins(t[..|t| - 1]) + if Is(t[|t| - 1], MessageBegin) then 1 else 0
  }

  lemma BeginsEmit(t: Trace, e: Event)
    ensures Begins(Emit(t, e)) == Begins(t) + if Is(e, MessageBegin) then 1 else 0
  {
    var u := Emit(t, e);
    if |u| == |t| {
      assert u[..|u| - 1] == t[..|t| - 1];
    } else {
      assert u[..|u| - 1] == t;
    }
  }

  lemma {:induction false} PlayBegins(acts: seq<Act>, marks: Marks, t: Trace, data: seq<Byte>, p: nat)
    requires p < |data| && forall k <- marks :: marks[k] <= p
    ensures Begins(Play(acts, marks, t, data, p).1) >= Begins(t)
    decreases |acts|
  {
    hide Begins, Emit;
    if acts != [] {
      var (m, u) := PlayOne(acts[0], marks, t, data, p);
      match acts[0] {
        case Mark(_) =>
        case Flush(k) => if k in marks { BeginsEmit(t, Data(k, data[marks[k]..p])); }
        case FlushThrough(k) => if k in marks { BeginsEmit(t, Data(k, data[marks[k]..p + 1])); }
        case Notify(e) => BeginsEmit(t, e);
      }
      PlayBegins(acts[1..], m, u, data, p);
    }
  }

  lemma FlushKindBegins(k: DataKind, marks: Marks, t: Trace, data: seq<Byte>)
    requires forall j <- marks :: marks[j] <= |data|
    ensures Begins(FlushKind(k, marks, t, data)) == Begins(t)
  {
    hide Begins, Emit;
    if k in marks { BeginsEmit(t, Data(k, data[marks[k]..])); }
  }

  lemma FlushAllBegins(marks: Marks, t: Trace, data: seq<Byte>)
    requires forall k <- marks :: marks[k] <= |data|
    ensures Begins(FlushAll(marks, t, data)) == Begins(t)
  {
    hide Begins, FlushKind;
    var a := FlushKind(FieldData, marks, t, data);
    var b := FlushKind(ValueData, marks, a, data);
    var c := FlushKind(UrlData, marks, b, data);
    FlushKindBegins(FieldData, marks, t, data);
    FlushKindBegins(ValueData, marks, a, data);
    FlushKindBegins(UrlData, marks, b, data);
    FlushKindBegins(BodyData, marks, c, data);
  }

  /** The first byte of a message is told. */
  lemma StartBegins(ps: Parser, t: Trace, ch: Byte)
    requires ps.state.StartReq?
    ensures var s := Step(ps, t, ch);
            s.outcome.Going? ==> s.ps.flags == ps.flags || Begins(s.trace) > Begins(t)
  {
    hide Begins, FirstGuess, Emit, Play, FlushAll, Chain;
    var n := CountHeader(ps.nread, 1);
    if n.Some? {
      StartTurn(ps.(nread := n.value), ch);
      var fed := Feed(ps, ch);
      if fed.Fed? && fed.acts != [] {
        PlayNotice(fed.acts[0], t, ch);
        BeginsEmit(t, fed.acts[0].event);
        FlushAllOne(BodyData, Emit(t, fed.acts[0].event), ch);
      }
    }
  }

  lemma StartTurn(ps: Parser, ch: Byte)
    requires ps.state.StartReq?
    ensures var fed := Chain(ps, ch);
            fed.Fed? ==> !fed.exit
                         && ((fed.ps.flags == ps.flags && fed.acts == [])
                             || (fed.acts == [fed.acts[0]] && fed.acts[0].Notify?
                                 && Is(fed.acts[0].event, MessageBegin)))
  {
    hide FirstGuess;
  }

  lemma StepLasts(ps: Parser, t: Trace, ch: Byte)
    ensures var s := Step(ps, t, ch);
            && Begins(s.trace) >= Begins(t)
            && (s.outcome.Going? && Begins(s.trace) == Begins(t) ==> Lasts(ps.flags, s.ps.flags))
  {
    hide Begins, Play, FlushAll, Chain;
    if ps.state.StartReq? { StartBegins(ps, t, ch); }
    var fed := Feed(ps, ch);
    var (m, u) := Play(fed.acts, EntryMarks(ps.state), t, [ch], 0);
    PlayBegins(fed.acts, EntryMarks(ps.state), t, [ch], 0);
    FlushAllBegins(m, u, [ch]);
    if !ps.state.StartReq? {
      ChainLasts(ps, ch);
      var n := CountHeader(ps.nread, 1);
      if n.Some? { ChainLasts(ps.(nread := n.value), ch); }
    }
  }

  /** While no further message begins, a run keeps the flags of its message. */
  lemma {:induction false} RunLasts(ps: Parser, t: Trace, data: seq<Byte>)
    ensures var r := Run(ps, t, data);
            && Begins(r.trace) >= Begins(t)
            && (r.outcome.Going? && Begins(r.trace) == Begins(t) ==> Lasts(ps.flags, r.ps.flags))
    decreases |data|
  {
    hide Step, Begins;
    if ps.errno == Ok && data != [] {
      var s := Step(ps, t, data[0]);
      StepLasts(ps, t, data[0]);
      if s.outcome.Going? { RunLasts(s.ps, s.trace, data[1..]); }
    }
  }
}
