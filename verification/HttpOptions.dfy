// What the value of Connection means to the parser: exactly which of its elements it records, and when that is what
// section 6.1 of RFC 7230 says.

module HttpOptions {
  import opened HttpChars
  import opened HttpParser
  import opened HttpInvariant
  import opened HttpRun
  import opened HttpSteps
  import opened HttpNumbers
  import opened HttpElements
  import opened HttpLines

  // ---------------------------------------------------------------- one byte of an element

  ghost predicate StandsConn(h: HState, index: nat, w: seq<Byte>) {
    && ConnState(h)
    && Stands(h, index, w, KEEP_ALIVE, MatchingConnKeepAlive, ConnKeepAlive)
    && Stands(h, index, w, CLOSE, MatchingConnClose, ConnClose)
    && Stands(h, index, w, UPGRADE, MatchingConnUpgrade, ConnUpgrade)
  }

  ghost predicate SeesConn(h: HState, w: seq<Byte>) {
    && Sees(h, w, KEEP_ALIVE, MatchingConnKeepAlive, ConnKeepAlive)
    && Sees(h, w, CLOSE, MatchingConnClose, ConnClose)
    && Sees(h, w, UPGRADE, MatchingConnUpgrade, ConnUpgrade)
  }

  /** The state after an element's first byte. */
  function FirstConn(c: Byte): HState {
    if c == 'k' then MatchingConnKeepAlive else if c == 'c' then MatchingConnClose
    else if c == 'u' then MatchingConnUpgrade else ConnToken
  }

  lemma FirstConnStands(c: Byte)
    ensures StandsConn(FirstConn(c), 0, [c]) && SeesConn(FirstConn(c), [c])
  {
    hide KEEP_ALIVE, CLOSE, UPGRADE;
    OptionNames();
    assert KEEP_ALIVE[..1] == [KEEP_ALIVE[0]] && CLOSE[..1] == [CLOSE[0]] && UPGRADE[..1] == [UPGRADE[0]];
  }

  lemma MatchingConn(ps: Parser, w: seq<Byte>, ch: Byte)
    requires StandsConn(ps.hstate, ps.index, w)
    requires ps.hstate.MatchingConnKeepAlive? || ps.hstate.MatchingConnClose? || ps.hstate.MatchingConnUpgrade?
    ensures var s := ValueStep(ps, ch);
            && s.Good? && s.ps.flags == ps.flags
            && StandsConn(s.ps.hstate, s.ps.index, w + [Lower(ch)]) && SeesConn(s.ps.hstate, w + [Lower(ch)])
  {
    hide Lower, Is, Foreign, KEEP_ALIVE, CLOSE, UPGRADE, MatchState;
    OptionNames();
    var c := Lower(ch);
    match ps.hstate {
      case MatchingConnKeepAlive =>
        MatchStands(KEEP_ALIVE, ps.index, w, c, ps.hstate, ConnToken, ConnKeepAlive);
        OtherForeign(w, c, KEEP_ALIVE, CLOSE);
        OtherForeign(w, c, KEEP_ALIVE, UPGRADE);
      case MatchingConnClose =>
        MatchStands(CLOSE, ps.index, w, c, ps.hstate, ConnToken, ConnClose);
        OtherForeign(w, c, CLOSE, KEEP_ALIVE);
        OtherForeign(w, c, CLOSE, UPGRADE);
      case MatchingConnUpgrade =>
        MatchStands(UPGRADE, ps.index, w, c, ps.hstate, ConnToken, ConnUpgrade);
        OtherForeign(w, c, UPGRADE, KEEP_ALIVE);
        OtherForeign(w, c, UPGRADE, CLOSE);
    }
  }

  /** An element that has begun, whatever comes. */
  lemma ConnTokenStep(ps: Parser, w: seq<Byte>, ch: Byte)
    requires ps.hstate.ConnToken? && ch != ','
    ensures ValueStep(ps, ch) == Good(ps)
    ensures SeesConn(ConnToken, w) ==> SeesConn(ConnToken, w + [Lower(ch)])
  {
    hide Lower, Is, KEEP_ALIVE, CLOSE, UPGRADE, Foreign;
    if SeesConn(ConnToken, w) {
      ForeignStays(w, Lower(ch), KEEP_ALIVE);
      ForeignStays(w, Lower(ch), CLOSE);
      ForeignStays(w, Lower(ch), UPGRADE);
    }
  }

  lemma ConnStartStep(ps: Parser, ch: Byte)
    requires ps.hstate.ConnTokenStart? && ps.index == 0 && IsHeaderChar(ch) && ch != CR && ch != LF && ch != ','
    ensures var s := ValueStep(ps, ch);
            && s.Good? && s.ps.flags == ps.flags
            && if ch == ' ' then s.ps == ps
               else StandsConn(s.ps.hstate, s.ps.index, [Lower(ch)]) && SeesConn(s.ps.hstate, [Lower(ch)])
  {
    var c := Lower(ch);
    LowerBlank(ch);
    StartNext(ps, ch);
    hide Is, KEEP_ALIVE, CLOSE, UPGRADE, Foreign, IsToken, StandsConn, SeesConn, Lower, IsHeaderChar, ValueStep,
      FirstConn;
    FirstConnStands(c);
    LostStands(c);
  }

  lemma StartNext(ps: Parser, ch: Byte)
    requires ps.hstate.ConnTokenStart? && IsHeaderChar(ch) && ch != CR && ch != LF
    ensures var c := Lower(ch);
            ValueStep(ps, ch) == Good(
              if ch == ' ' then ps
              else ps.(hstate := if c == 'k' || c == 'c' || c == 'u' || IsToken(c) then FirstConn(c) else General))
  {
    LowerBlank(ch);
    hide Lower, IsToken, IsHeaderChar;
  }

  lemma LostStands(c: Byte)
    ensures StandsConn(General, 0, [c]) && (!IsToken(c) ==> SeesConn(General, [c]))
  {
    hide KEEP_ALIVE, CLOSE, UPGRADE, Foreign, Is, IsToken;
  }

  predicate MatchedConn(h: HState) { h.ConnKeepAlive? || h.ConnClose? || h.ConnUpgrade? }

  function OptionOf(h: HState): string {
    if h.ConnKeepAlive? then KEEP_ALIVE else if h.ConnClose? then CLOSE else UPGRADE
  }

  lemma MatchedStep(ps: Parser, w: seq<Byte>, ch: Byte)
    requires MatchedConn(ps.hstate) && StandsConn(ps.hstate, ps.index, w)
    requires IsHeaderChar(ch) && ch != CR && ch != LF && ch != ','
    ensures var s := ValueStep(ps, ch);
            && s.Good? && s.ps.flags == ps.flags
            && StandsConn(s.ps.hstate, s.ps.index, w + [Lower(ch)]) && SeesConn(s.ps.hstate, w + [Lower(ch)])
  {
    MatchedNext(ps, ch);
    LowerBlank(ch);
    hide ValueStep, Lower, IsHeaderChar;
    MatchedThen(ps.hstate, ps.index, w, Lower(ch));
  }

  lemma MatchedThen(h: HState, index: nat, w: seq<Byte>, c: Byte)
    requires MatchedConn(h) && StandsConn(h, index, w)
    ensures var next := if c == ' ' then h else ConnToken;
            StandsConn(next, index, w + [c]) && SeesConn(next, w + [c])
  {
    OptionNames();
    hide Is, KEEP_ALIVE, CLOSE, UPGRADE, Foreign;
    var name := OptionOf(h);
    BehindOption(w, c, name);
    if name != KEEP_ALIVE { OtherOption(w, c, name, KEEP_ALIVE); }
    if name != CLOSE { OtherOption(w, c, name, CLOSE); }
    if name != UPGRADE { OtherOption(w, c, name, UPGRADE); }
  }

  lemma MatchedNext(ps: Parser, ch: Byte)
    requires MatchedConn(ps.hstate) && ch != ','
    ensures ValueStep(ps, ch) == Good(if ch == ' ' then ps else ps.(hstate := ConnToken))
  {
    hide Lower;
  }

  /** Whether each element counts as one of the three options. */
  predicate Verdict(w: seq<Byte>, h: HState) {
    && (Is(w, KEEP_ALIVE) <==> h.ConnKeepAlive?)
    && (Is(w, CLOSE) <==> h.ConnClose?)
    && (Is(w, UPGRADE) <==> h.ConnUpgrade?)
  }

  lemma MatchedVerdict(h: HState, index: nat, w: seq<Byte>)
    requires StandsConn(h, index, w) && MatchedConn(h)
    ensures Verdict(w, h)
  {
    hide Is, KEEP_ALIVE, CLOSE, UPGRADE;
    OptionNames();
    var name := OptionOf(h);
    if name != KEEP_ALIVE { OptionIsNot(w, name, KEEP_ALIVE); }
    if name != CLOSE { OptionIsNot(w, name, CLOSE); }
    if name != UPGRADE { OptionIsNot(w, name, UPGRADE); }
  }

  lemma EmptyStands(h: HState, index: nat)
    requires h.ConnToken? || h.General? || (h.ConnTokenStart? && index == 0)
    ensures StandsConn(h, index, []) && (h.ConnTokenStart? ==> SeesConn(h, []))
  {
    hide KEEP_ALIVE, CLOSE, UPGRADE, Is, Foreign, IsToken;
  }

  lemma ForeignIsNot(w: seq<Byte>)
    requires SeesConn(ConnToken, w)
    ensures !Is(w, KEEP_ALIVE) && !Is(w, CLOSE) && !Is(w, UPGRADE)
  {
    hide Is;
  }

  lemma StandsState(h: HState, index: nat, w: seq<Byte>)
    requires StandsConn(h, index, w)
    ensures ConnState(h) && (h.ConnTokenStart? ==> w == [] && index == 0)
    ensures !h.ConnToken? && !h.General? && !h.ConnTokenStart? ==> w != []
  {
    OptionNames();
  }

  lemma AnyElement(h: HState, index: nat, w: seq<Byte>)
    requires h.ConnToken? || h.General?
    ensures StandsConn(h, index, w)
  {
    hide Is;
  }

  lemma LostSees(w: seq<Byte>, c: Byte)
    ensures SeesConn(General, w) ==> SeesConn(General, w + [c])
  {
    hide Foreign;
    if w != [] { assert (w + [c])[0] == w[0]; }
  }

  lemma ElementMoves(ps: Parser, w: seq<Byte>, ch: Byte)
    requires StandsConn(ps.hstate, ps.index, w) && SeesConn(ps.hstate, w)
    requires IsHeaderChar(ch) && ch != CR && ch != LF && ch != ','
    ensures var s, v := ValueStep(ps, ch), if w == [] && ch == ' ' then [] else w + [Lower(ch)];
            && s.Good? && s.ps.flags == ps.flags && StandsConn(s.ps.hstate, s.ps.index, v)
            && SeesConn(s.ps.hstate, v)
  {
    var h := ps.hstate;
    StandsState(h, ps.index, w);
    hide ValueStep, Lower, IsHeaderChar, StandsConn, SeesConn;
    if h.MatchingConnKeepAlive? || h.MatchingConnClose? || h.MatchingConnUpgrade? {
      MatchingConn(ps, w, ch);
    } else if MatchedConn(h) {
      MatchedStep(ps, w, ch);
    } else if h.ConnTokenStart? {
      ConnStartStep(ps, ch);
      assert [] + [Lower(ch)] == [Lower(ch)];
    } else if h.ConnToken? {
      ConnTokenStep(ps, w, ch);
      AnyElement(h, ps.index, w + [Lower(ch)]);
    } else {
      LostStep(ps, ch);
      AnyElement(h, ps.index, w + [Lower(ch)]);
      LostSees(w, Lower(ch));
    }
  }

  // ---------------------------------------------------------------- the modes of the matcher

  /** The matcher inside an element that has the text `w` so far. */
  ghost predicate InMode(m: Mode, h: HState, index: nat, w: seq<Byte>) {
    match m
    case First => StandsConn(h, index, w) && SeesConn(h, w) && w != [] && !h.General? && !h.ConnTokenStart?
    case Look => StandsConn(h, index, w) && SeesConn(h, w) && (!h.General? && !h.ConnTokenStart? ==> Begun(w))
    case Skip => h.ConnToken?
    case Lost => h.General?
  }

  /** What has begun as an element goes on as one. */
  lemma StaysInside(ps: Parser, ch: Byte)
    requires ConnState(ps.hstate) && ch != ','
    ensures var h, s := ps.hstate, ValueStep(ps, ch);
            && s.Good? && (h.General? ==> s.ps.hstate.General?)
            && (!h.General? && !h.ConnTokenStart? ==> !s.ps.hstate.General? && !s.ps.hstate.ConnTokenStart?)
            && (h.ConnTokenStart? && !s.ps.hstate.General? && !s.ps.hstate.ConnTokenStart? ==> IsToken(Lower(ch)))
  {
    NamesBegin();
    hide Lower, IsToken, KEEP_ALIVE, CLOSE, UPGRADE;
  }

  lemma BegunStays(w: seq<Byte>, ch: Byte)
    requires IsHeaderChar(ch) && ch != CR && ch != LF
    ensures var v := if w == [] && ch == ' ' then [] else w + [Lower(ch)];
            Begun(w) || (w == [] && IsToken(Lower(ch))) ==> Begun(v)
  {
    LowerBlank(ch);
    hide IsToken, Lower, IsHeaderChar;
    assert [] + [Lower(ch)] == [Lower(ch)];
  }

  /** The byte that goes on with an element, or a space before one. */
  lemma ModeMoves(m: Mode, ps: Parser, w: seq<Byte>, ch: Byte)
    requires InMode(m, ps.hstate, ps.index, w) && IsHeaderChar(ch) && ch != CR && ch != LF && ch != ','
    ensures var s, v := ValueStep(ps, ch), if w == [] && ch == ' ' then [] else w + [Lower(ch)];
            s.Good? && s.ps.flags == ps.flags && InMode(m, s.ps.hstate, s.ps.index, v)
  {
    hide ValueStep, Lower, IsHeaderChar, IsToken, StandsConn, SeesConn;
    match m {
      case First =>
        StandsState(ps.hstate, ps.index, w);
        StaysInside(ps, ch);
        ElementMoves(ps, w, ch);
      case Look =>
        StandsState(ps.hstate, ps.index, w);
        StaysInside(ps, ch);
        ElementMoves(ps, w, ch);
        BegunStays(w, ch);
      case Skip => ConnTokenStep(ps, w, ch);
      case Lost => LostStep(ps, ch);
    }
  }

  /** The mode the next element is met with, from the state of the matcher. */
  lemma AfterIs(m: Mode, h: HState, index: nat, w: seq<Byte>)
    requires Heeds(m) && InMode(m, h, index, w)
    ensures Then(ConnectionHeader, m, w) ==
            if MatchedConn(h) || h.ConnToken? then Look else if h.General? || h.ConnTokenStart? then Lost else Skip
  {
    hide IsToken;
    OptionNames();
    StandsState(h, index, w);
    if h.ConnToken? { ForeignIsNoBeginning(w); }
  }

  lemma ForeignIsNoBeginning(w: seq<Byte>)
    requires SeesConn(ConnToken, w)
    ensures !Beginning(w)
  {
    hide Is;
  }

  /** The state after a comma. An unfinished matcher takes the comma for a byte of its element. */
  lemma CommaNext(ps: Parser)
    requires ConnState(ps.hstate)
    ensures var h, s := ps.hstate, ValueStep(ps, ',');
            && s.Good? && s.ps.flags == NoteOption(h, ps.flags)
            && if MatchedConn(h) || h.ConnToken? then s.ps.hstate.ConnTokenStart? && s.ps.index == 0
               else if h.General? || h.ConnTokenStart? then s.ps.hstate.General?
               else s.ps.hstate.ConnToken?
  {
  }

  lemma CommaModes(m: Mode, ps: Parser, w: seq<Byte>)
    requires InMode(m, ps.hstate, ps.index, w)
    ensures var s := ValueStep(ps, ',');
            && s.Good? && s.ps.flags == NoteOption(ps.hstate, ps.flags)
            && InMode(Then(ConnectionHeader, m, w), s.ps.hstate, s.ps.index, [])
  {
    if Heeds(m) {
      StandsState(ps.hstate, ps.index, w);
      AfterIs(m, ps.hstate, ps.index, w);
    }
    CommaNext(ps);
    hide ValueStep, NoteOption, StandsConn, SeesConn, Swallows, IsToken;
    EmptyStands(ConnTokenStart, 0);
  }

  /** The matcher inside an element that has the bytes `e` so far. */
  ghost predicate Within(m: Mode, h: HState, index: nat, e: seq<Byte>) {
    if Torn(m, e) then h.General? else InMode(m, h, index, Text(e))
  }

  lemma ByteMoves(m: Mode, ps: Parser, e: seq<Byte>, ch: Byte)
    requires Within(m, ps.hstate, ps.index, e) && IsHeaderChar(ch) && ch != CR && ch != LF && ch != ','
    ensures var s := ValueStep(ps, ch);
            s.Good? && s.ps.flags == ps.flags && Within(m, s.ps.hstate, s.ps.index, e + [ch])
  {
    TornSnoc(m, e, ch);
    TextSnoc(e, ch);
    SmallBlank(ch);
    hide Torn, Text, ValueStep, Small, Lower, IsHeaderChar, InMode;
    if Torn(m, e) { LostStep(ps, ch); } else { ModeMoves(m, ps, Text(e), ch); }
  }

  lemma CommaMoves(m: Mode, ps: Parser, e: seq<Byte>)
    requires Within(m, ps.hstate, ps.index, e)
    ensures var s := ValueStep(ps, ',');
            && s.Good? && s.ps.flags == NoteOption(ps.hstate, ps.flags)
            && Within(NextMode(ConnectionHeader, m, e), s.ps.hstate, s.ps.index, [])
  {
    NoBytes(NextMode(ConnectionHeader, m, e));
    hide Torn, Text, Then;
    if Torn(m, e) {
      LostStep(ps, ',');
    } else {
      hide ValueStep, NoteOption, InMode;
      CommaModes(m, ps, Text(e));
    }
  }

  /** A fold: the parser goes on only where it looks for the beginning of an element. */
  lemma FoldMoves(m: Mode, h: HState, index: nat, e: seq<Byte>)
    requires Within(m, h, index, e)
    ensures Within(m, if h.ConnTokenStart? then h else General, 0, e + [FOLD])
  {
    TornSnoc(m, e, FOLD);
    TextSnoc(e, FOLD);
    if !Torn(m, e) && (m.First? || m.Look?) { StandsState(h, index, Text(e)); }
    hide Torn, Text, StandsConn, SeesConn, IsToken;
    EmptyStands(ConnTokenStart, 0);
    if !Torn(m, e) && m.Look? && Text(e) == [] { NothingSeen(h, index); }
  }

  lemma NothingSeen(h: HState, index: nat)
    requires InMode(Look, h, index, [])
    ensures h.ConnTokenStart?
  {
  }

  // ---------------------------------------------------------------- the options told

  /** The options the elements `ps` tell the parser. */
  predicate Told(ps: seq<seq<Byte>>, name: string) { exists i :: 0 <= i < |ps| && ToldAt(ps, i, name) }

  predicate ToldAt(ps: seq<seq<Byte>>, i: nat, name: string)
    requires i < |ps|
  {
    Hears(ModeAfter(ConnectionHeader, ps[..i]), ps[i], name)
  }

  lemma ToldAtSnoc(ps: seq<seq<Byte>>, e: seq<Byte>, i: nat, name: string)
    requires i <= |ps|
    ensures ToldAt(ps + [e], i, name) <==>
            if i < |ps| then ToldAt(ps, i, name) else Hears(ModeAfter(ConnectionHeader, ps), e, name)
  {
    hide Hears, ModeAfter;
    assert (ps + [e])[..i] == ps[..i];
    if i == |ps| { assert ps[..i] == ps; }
  }

  lemma ToldSnoc(ps: seq<seq<Byte>>, e: seq<Byte>, name: string)
    ensures Told(ps + [e], name) <==> Told(ps, name) || Hears(ModeAfter(ConnectionHeader, ps), e, name)
  {
    hide ToldAt, Hears, ModeAfter;
    var r := ps + [e];
    if Told(ps, name) {
      var i :| 0 <= i < |ps| && ToldAt(ps, i, name);
      ToldAtSnoc(ps, e, i, name);
      assert ToldAt(r, i, name);
    }
    if Told(r, name) {
      var i :| 0 <= i < |r| && ToldAt(r, i, name);
      ToldAtSnoc(ps, e, i, name);
    }
    ToldAtSnoc(ps, e, |ps|, name);
  }

  predicate FlagsAre(now: Flags, was: Flags, ps: seq<seq<Byte>>) {
    && (now.keepAlive <==> was.keepAlive || Told(ps, KEEP_ALIVE))
    && (now.close <==> was.close || Told(ps, CLOSE))
    && (now.connUpgrade <==> was.connUpgrade || Told(ps, UPGRADE))
    && now == was.(keepAlive := now.keepAlive, close := now.close, connUpgrade := now.connUpgrade)
  }

  /** An element the parser looks at is an option exactly if its matcher says so at the end. */
  lemma VerdictIn(m: Mode, h: HState, index: nat, w: seq<Byte>)
    requires InMode(m, h, index, w)
    ensures if Heeds(m) then Verdict(w, h) else !MatchedConn(h)
  {
    if Heeds(m) && MatchedConn(h) {
      MatchedVerdict(h, index, w);
    } else if Heeds(m) && h.ConnToken? {
      ForeignIsNot(w);
    } else if Heeds(m) {
      NoVerdict(h, index, w);
    }
    hide StandsConn, SeesConn, Is, IsToken;
  }

  lemma NoVerdict(h: HState, index: nat, w: seq<Byte>)
    requires StandsConn(h, index, w) && SeesConn(h, w) && !MatchedConn(h) && !h.ConnToken?
    ensures !Is(w, KEEP_ALIVE) && !Is(w, CLOSE) && !Is(w, UPGRADE)
  {
    OptionNames();
    NamesBegin();
  }

  lemma NoteFields(h: HState, f: Flags)
    ensures NoteOption(h, f) == f.(keepAlive := f.keepAlive || h.ConnKeepAlive?, close := f.close || h.ConnClose?,
                                   connUpgrade := f.connUpgrade || h.ConnUpgrade?)
  {
  }

  /** The end of an element records it, if it is an option that the parser looks at. */
  lemma FlagsNoted(m: Mode, h: HState, index: nat, flags: Flags, was: Flags, ps: seq<seq<Byte>>, e: seq<Byte>)
    requires m == ModeAfter(ConnectionHeader, ps) && Within(m, h, index, e) && FlagsAre(flags, was, ps)
    ensures FlagsAre(NoteOption(h, flags), was, ps + [e])
  {
    HeardByState(m, h, index, e);
    NoteFields(h, flags);
    hide Within, Hears, NoteOption, Told, ModeAfter;
    ToldSnoc(ps, e, KEEP_ALIVE);
    ToldSnoc(ps, e, CLOSE);
    ToldSnoc(ps, e, UPGRADE);
  }

  lemma HeardByState(m: Mode, h: HState, index: nat, e: seq<Byte>)
    requires Within(m, h, index, e)
    ensures Hears(m, e, KEEP_ALIVE) <==> h.ConnKeepAlive?
    ensures Hears(m, e, CLOSE) <==> h.ConnClose?
    ensures Hears(m, e, UPGRADE) <==> h.ConnUpgrade?
  {
    hide Torn, Text, InMode, Is, Heeds;
    if !Torn(m, e) { VerdictIn(m, h, index, Text(e)); }
  }

  // ---------------------------------------------------------------- the value of Connection

  /** The parser inside the value of Connection, after the bytes `u`. */
  ghost predicate AtConn(h: HState, index: nat, flags: Flags, was: Flags, u: seq<Byte>) {
    var ps, last := Pieces(u), |Pieces(u)| - 1;
    Within(ModeAfter(ConnectionHeader, ps[..last]), h, index, ps[last]) && FlagsAre(flags, was, ps[..last])
  }

  /** One byte of the value. */
  lemma ConnStep(ps: Parser, was: Flags, u: seq<Byte>, ch: Byte)
    requires AtConn(ps.hstate, ps.index, ps.flags, was, u) && IsHeaderChar(ch) && ch != CR && ch != LF
    ensures var s := ValueStep(ps, ch);
            s.Good? && AtConn(s.ps.hstate, s.ps.index, s.ps.flags, was, u + [ch])
  {
    var all, last := Pieces(u), |Pieces(u)| - 1;
    var before, e := all[..last], all[last];
    var m := ModeAfter(ConnectionHeader, before);
    PiecesSnoc(u, ch);
    assert all == before + [e];
    hide Pieces, Within, FlagsAre, ValueStep, IsHeaderChar, Lower, NextMode;
    if ch == ',' {
      assert (all + [[]])[..|all|] == all;
      CommaMoves(m, ps, e);
      FlagsNoted(m, ps.hstate, ps.index, ps.flags, was, before, e);
      ModeSnoc(ConnectionHeader, before, e);
    } else {
      assert all[last := e + [ch]][..last] == before;
      ByteMoves(m, ps, e, ch);
    }
  }

  /** A fold in the value. */
  lemma ConnFold(h: HState, index: nat, flags: Flags, was: Flags, u: seq<Byte>)
    requires AtConn(h, index, flags, was, u)
    ensures OptionState(h) && AtConn(Folded(h), 0, flags, was, u + [FOLD])
  {
    var all, last := Pieces(u), |Pieces(u)| - 1;
    PiecesSnoc(u, FOLD);
    hide Pieces, FlagsAre, Within;
    var m := ModeAfter(ConnectionHeader, all[..last]);
    InConnState(m, h, index, all[last]);
    assert all[last := all[last] + [FOLD]][..last] == all[..last];
    FoldMoves(m, h, index, all[last]);
  }

  lemma InConnState(m: Mode, h: HState, index: nat, e: seq<Byte>)
    requires Within(m, h, index, e)
    ensures ConnState(h)
  {
    hide Torn, Text;
  }

  lemma FirstConnByte(ps: Parser, t: Trace, ch: Byte)
    requires Valid(ps) && ps.state.HeaderValueDiscardWs? && ps.hstate.Connection? && ps.nread < MAX_HEADER_SIZE
    requires ch != ' ' && ch != '\t' && ch != CR && ch != LF
    ensures var s := Step(ps, t, ch);
            && s.outcome.Going? && s.ps.state.HeaderValue? && s.ps.nread == ps.nread + 1 && s.ps.flags == ps.flags
            && s.ps.hstate == FirstConn(Lower(ch)) && s.ps.index == 0
  {
    hide Step, Chain, Dispatch, FirstConn, Valid;
    var counted := ps.(nread := ps.nread + 1);
    var next := counted.(state := HeaderValue, index := 0, hstate := FirstConn(Lower(ch)));
    FirstConnTurn(counted, ch);
    ChainOnce(counted, ch, next, [Mark(ValueData)]);
    HeaderStep(ps, t, ch, next, [Mark(ValueData)]);
  }

  lemma FirstConnTurn(ps: Parser, ch: Byte)
    requires ps.state.HeaderValueDiscardWs? && ps.hstate.Connection? && ch != ' ' && ch != '\t' && ch != CR && ch != LF
    ensures Dispatch(ps, ch) ==
            Next(ps.(state := HeaderValue, index := 0, hstate := FirstConn(Lower(ch))), [Mark(ValueData)])
  {
    hide Lower;
  }

  lemma FirstAtConn(was: Flags, ch: Byte)
    requires ch != ' ' && ch != LF
    ensures AtConn(FirstConn(Lower(ch)), 0, was, was, [ch])
  {
    hide Pieces, ModeAfter, FlagsAre, Within, FirstConn, Lower, Torn, Text;
    OnePiece(ch);
    NoElement(ConnectionHeader);
    NothingTold(was);
    FirstWithin(ch);
    var ps, last := Pieces([ch]), |Pieces([ch])| - 1;
    if ch == ',' { assert ps[..last] == [[]] && ps[last] == []; } else { assert ps[..last] == [] && ps[last] == [ch]; }
  }

  lemma FirstWithin(ch: Byte)
    requires ch != ' ' && ch != LF
    ensures Within(First, FirstConn(Lower(ch)), 0, [ch])
    ensures ch == ',' ==> Within(Skip, FirstConn(Lower(ch)), 0, [])
  {
    OnePiece(ch);
    hide Text, Torn, InMode, FirstConn, Lower;
    FirstInMode(ch);
  }

  lemma FirstInMode(ch: Byte)
    ensures InMode(First, FirstConn(Lower(ch)), 0, [Lower(ch)])
    ensures ch == ',' ==> InMode(Skip, FirstConn(Lower(ch)), 0, [])
  {
    hide StandsConn, SeesConn;
    FirstConnStands(Lower(ch));
  }

  lemma NothingTold(was: Flags)
    ensures FlagsAre(was, was, []) && FlagsAre(was, was, [[]])
  {
    OptionNames();
    var none: seq<seq<Byte>> := [[]];
    assert none[0] == [] && Text([]) == [];
  }

  /** The parser at the end of the value `v`. */
  ghost predicate AfterConn(ps: Parser, nread: nat, was: Flags, v: seq<Byte>) {
    ps.state.HeaderValue? && ps.nread == nread && AtConn(ps.hstate, ps.index, ps.flags, was, v)
  }

  lemma {:induction false} ConnRun(ps: Parser, t: Trace, s: seq<Sign>)
    requires Valid(ps) && ps.state.HeaderValueDiscardWs? && ps.hstate.Connection? && IsValue(s)
    requires ps.nread + |Sent(s)| <= MAX_HEADER_SIZE
    ensures var r := Run(ps, t, Sent(s));
            r.outcome.Going? && AfterConn(r.ps, ps.nread + |Sent(s)|, ps.flags, Marked(s))
    decreases |s|
  {
    hide Run, Step, Valid, AtConn, ValueStep, IsHeaderChar, Folded, OptionState;
    var u, x := s[..|s| - 1], s[|s| - 1];
    if u == [] {
      assert Sent(s) == [x.c] && Marked(s) == [x.c];
      FirstConnByte(ps, t, x.c);
      FirstAtConn(ps.flags, x.c);
      RunOne(ps, t, x.c);
    } else {
      assert u[0] == s[0] && IsSign(x);
      ConnRun(ps, t, u);
      RunOk(ps, t, Sent(u));
      RunConcat(ps, t, Sent(u), SentAs(x));
      var r := Run(ps, t, Sent(u));
      match x {
        case Char(c) =>
          ConnStep(r.ps, ps.flags, Marked(u), c);
          ValueByte(r.ps, r.trace, c);
          RunOne(r.ps, r.trace, c);
          ValueKeepsPlace(r.ps, c);
        case Fold(eol, blank) =>
          ConnFold(r.ps.hstate, r.ps.index, r.ps.flags, ps.flags, Marked(u));
          FoldRun(r.ps, r.trace, eol, blank);
      }
    }
  }

  lemma NoChunked(ps: Parser)
    requires ConnState(ps.hstate)
    ensures FinishHeader(ps).flags == NoteOption(ps.hstate, ps.flags)
  {
  }

  lemma ToldIsHeard(v: seq<Byte>, name: string)
    requires InLine(v) && IsName(name)
    ensures Told(Pieces(v), name) <==> Heard(v, name)
  {
    hide Pieces, InLine, IsName, Is, Text, Torn, Bare, ModeAfter;
    PiecesInLine(v);
    forall i | 0 <= i < |Pieces(v)|
      ensures Is(Text(Pieces(v)[i]), name) <==> Bare(Pieces(v)[i]) == name && '\t' !in Pieces(v)[i]
    {
      IsMeansBare(Pieces(v)[i], name);
    }
    hide Heeds;
    if Told(Pieces(v), name) {
      var i :| 0 <= i < |Pieces(v)| && ToldAt(Pieces(v), i, name);
      assert Recognised(ConnectionHeader, v, i, name);
    }
    if Heard(v, name) {
      var i :| 0 <= i < |Pieces(v)| && Recognised(ConnectionHeader, v, i, name);
      assert ToldAt(Pieces(v), i, name);
    }
  }

  /** Exactly the options that the parser recognises in the value are recorded. */
  predicate Recorded(was: Flags, f: Flags, v: seq<Byte>) {
    && (f.keepAlive <==> was.keepAlive || Heard(v, KEEP_ALIVE))
    && (f.close <==> was.close || Heard(v, CLOSE))
    && (f.connUpgrade <==> was.connUpgrade || Heard(v, UPGRADE))
    && f == was.(keepAlive := f.keepAlive, close := f.close, connUpgrade := f.connUpgrade)
  }

  lemma ConnFinished(ps: Parser, t: Trace, s: seq<Sign>)
    requires Valid(ps) && ps.state.HeaderValueDiscardWs? && ps.hstate.Connection? && IsValue(s)
    requires ps.nread + |Sent(s)| <= MAX_HEADER_SIZE
    ensures var r := Run(ps, t, Sent(s));
            && r.outcome.Going? && r.ps.state.HeaderValue? && r.ps.nread == ps.nread + |Sent(s)|
            && Recorded(ps.flags, FinishHeader(r.ps).flags, Marked(s))
  {
    hide Run, Valid, IsValue, InLine, AtConn, ConnState, Pieces, Told, Heard, IsName, Marked, Sent, NoteOption,
      FinishHeader;
    ConnRun(ps, t, s);
    var r, v := Run(ps, t, Sent(s)), Marked(s);
    ConnEnd(r.ps.hstate, r.ps.index, r.ps.flags, ps.flags, v);
    NoChunked(r.ps);
    ValueInLine(s);
    ToldAreHeard(v);
  }

  lemma ToldAreHeard(v: seq<Byte>)
    requires InLine(v)
    ensures Told(Pieces(v), KEEP_ALIVE) <==> Heard(v, KEEP_ALIVE)
    ensures Told(Pieces(v), CLOSE) <==> Heard(v, CLOSE)
    ensures Told(Pieces(v), UPGRADE) <==> Heard(v, UPGRADE)
  {
    hide InLine, Pieces, Told, Heard, IsName;
    NamesAreNames();
    ToldIsHeard(v, KEEP_ALIVE);
    ToldIsHeard(v, CLOSE);
    ToldIsHeard(v, UPGRADE);
  }

  lemma ConnEnd(h: HState, index: nat, flags: Flags, was: Flags, v: seq<Byte>)
    requires AtConn(h, index, flags, was, v)
    ensures ConnState(h) && FlagsAre(NoteOption(h, flags), was, Pieces(v))
  {
    hide Within, Pieces, ModeAfter, FlagsAre, NoteOption;
    var all, last := Pieces(v), |Pieces(v)| - 1;
    assert all == all[..last] + [all[last]];
    FlagsNoted(ModeAfter(ConnectionHeader, all[..last]), h, index, flags, was, all[..last], all[last]);
    InConnState(ModeAfter(ConnectionHeader, all[..last]), h, index, all[last]);
  }

  /** Exactly the options that are recognised in a Connection header are recorded once its last line has ended,
      whatever its value and however it is folded. */
  lemma ConnectionOptions(ps: Parser, t: Trace, s: seq<Sign>, eol: seq<Byte>, ch: Byte)
    requires Valid(ps) && ps.state.HeaderValueDiscardWs? && ps.hstate.Connection? && IsValue(s)
    requires IsEol(eol) && !IsBlank(ch) && ps.nread + |Sent(s)| + |eol| < MAX_HEADER_SIZE
    ensures var r := Run(ps, t, Sent(s) + eol + [ch]);
            && (IsToken(ch) || ch == CR ==> r.outcome.Going?)
            && (!r.outcome.Failed? ==> Recorded(ps.flags, r.ps.flags, Marked(s)))
  {
    hide Run, Valid, IsToken, Recorded, FinishHeader, Sent;
    ConnFinished(ps, t, s);
    ValueFinished(ps, t, Sent(s), eol, ch);
  }

  /** Recording an option right: it is set exactly if it was or is listed. */
  predicate RecordsRight(was: bool, now: bool, v: seq<Byte>, name: string) { now <==> was || Listed(v, name) }

  /** The values in which an option is not overlooked: if it is listed, then in an element that the parser looks at
      and that neither a fold nor a tab spoils. */
  predicate NotOverlooked(v: seq<Byte>, name: string) { Listed(v, name) ==> Heard(v, name) }

  /** A Connection header has all its options recorded if and only if none of them is overlooked, or it was recorded
      before. */
  lemma ConnectionExactlyWhen(ps: Parser, t: Trace, s: seq<Sign>, eol: seq<Byte>, ch: Byte)
    requires Valid(ps) && ps.state.HeaderValueDiscardWs? && ps.hstate.Connection? && IsValue(s)
    requires IsEol(eol) && !IsBlank(ch) && ps.nread + |Sent(s)| + |eol| < MAX_HEADER_SIZE
    requires !Run(ps, t, Sent(s) + eol + [ch]).outcome.Failed?
    ensures var f, was, v := Run(ps, t, Sent(s) + eol + [ch]).ps.flags, ps.flags, Marked(s);
            && (RecordsRight(was.keepAlive, f.keepAlive, v, KEEP_ALIVE)
                <==> was.keepAlive || NotOverlooked(v, KEEP_ALIVE))
            && (RecordsRight(was.close, f.close, v, CLOSE) <==> was.close || NotOverlooked(v, CLOSE))
            && (RecordsRight(was.connUpgrade, f.connUpgrade, v, UPGRADE)
                <==> was.connUpgrade || NotOverlooked(v, UPGRADE))
  {
    hide Run, Valid, IsValue, IsToken, Pieces, Recognised, Sent, Marked;
    ConnectionOptions(ps, t, s, eol, ch);
    HeardIsListed(Marked(s), KEEP_ALIVE);
    HeardIsListed(Marked(s), CLOSE);
    HeardIsListed(Marked(s), UPGRADE);
  }

  lemma HeardIsListed(v: seq<Byte>, name: string)
    ensures Heard(v, name) ==> Listed(v, name)
  {
    hide Pieces, Bare, Heeded, TornAt;
  }

  // ---------------------------------------------------------------- values that are not recorded

  const LETTER_K: seq<Byte> := "k"
  const K_CLOSE: seq<Byte> := "k, close"
  const CLOSE_TAB_UPGRADE: seq<Byte> := "close,\tupgrade"

  lemma ValuesAreLines()
    ensures IsLine(K_CLOSE) && IsLine(CLOSE_TAB_UPGRADE) && |K_CLOSE| <= 16 && |CLOSE_TAB_UPGRADE| <= 16
  {
  }

  lemma PlainNames()
    ensures IsPlain(LETTER_K) && IsPlain(CLOSE) && IsPlain(UPGRADE) && |LETTER_K| == 1 && Beginning(LETTER_K)
    ensures K_CLOSE == LETTER_K + [','] + ([' '] + CLOSE)
    ensures CLOSE_TAB_UPGRADE == CLOSE + [','] + (['\t'] + UPGRADE)
  {
  }

  lemma LineRecorded(ps: Parser, t: Trace, v: seq<Byte>)
    requires Valid(ps) && ps.state.HeaderValueDiscardWs? && ps.hstate.Connection? && IsLine(v)
    requires ps.nread + |v| + 2 < MAX_HEADER_SIZE
    ensures LineRun(ps, t, v).outcome.Going? && Recorded(ps.flags, LineRun(ps, t, v).ps.flags, v)
  {
    hide Run, Valid, IsLine, IsValue, Sent, Marked, Recorded;
    CharsSent(v);
    ConnectionOptions(ps, t, Chars(v), CRLF, CR);
  }

  lemma ReadKClose()
    ensures Listed(K_CLOSE, CLOSE) && !Heard(K_CLOSE, CLOSE) && !Heard(K_CLOSE, KEEP_ALIVE) && !Heard(K_CLOSE, UPGRADE)
  {
    hide Pieces, Bare, Text, NoComma, Recognised, Listed, Heeded, TornAt, Beginning, IsPlain, K_CLOSE, LETTER_K, CLOSE,
      UPGRADE, KEEP_ALIVE;
    PlainNames();
    PlainElement(LETTER_K);
    PlainElement(CLOSE);
    OneBlank(' ', CLOSE);
    OptionNames();
    TwoElements(LETTER_K, [' '] + CLOSE, K_CLOSE);
    FirstHeeded(ConnectionHeader, K_CLOSE);
    BeginningHidesNext(K_CLOSE, 0);
  }

  /** The value "k, close" lists close, and nothing is recorded. */
  lemma BeginningHidesClose(ps: Parser, t: Trace)
    requires Valid(ps) && ps.state.HeaderValueDiscardWs? && ps.hstate.Connection? && ps.nread + 20 <= MAX_HEADER_SIZE
    ensures Listed(K_CLOSE, CLOSE) && !NotOverlooked(K_CLOSE, CLOSE)
    ensures LineRun(ps, t, K_CLOSE).outcome.Going? && LineRun(ps, t, K_CLOSE).ps.flags == ps.flags
  {
    hide LineRun, Valid, IsLine, Heard, Listed, K_CLOSE;
    ValuesAreLines();
    ReadKClose();
    LineRecorded(ps, t, K_CLOSE);
  }

  lemma ReadTabUpgrade()
    ensures Listed(CLOSE_TAB_UPGRADE, UPGRADE) && Heard(CLOSE_TAB_UPGRADE, CLOSE)
    ensures !Heard(CLOSE_TAB_UPGRADE, UPGRADE) && !Heard(CLOSE_TAB_UPGRADE, KEEP_ALIVE)
  {
    hide Pieces, Bare, Text, NoComma, Recognised, Listed, Heeded, TornAt, IsPlain, CLOSE_TAB_UPGRADE, CLOSE, UPGRADE,
      KEEP_ALIVE;
    PlainNames();
    PlainElement(CLOSE);
    PlainElement(UPGRADE);
    OneBlank('\t', UPGRADE);
    OptionNames();
    TwoElements(CLOSE, ['\t'] + UPGRADE, CLOSE_TAB_UPGRADE);
    assert (['\t'] + UPGRADE)[0] == '\t';
    assert Recognised(ConnectionHeader, CLOSE_TAB_UPGRADE, 0, CLOSE);
  }

  /** The value "close,\tupgrade" lists upgrade, and only close is recorded. */
  lemma TabHidesUpgrade(ps: Parser, t: Trace)
    requires Valid(ps) && ps.state.HeaderValueDiscardWs? && ps.hstate.Connection? && ps.nread + 20 <= MAX_HEADER_SIZE
    ensures Listed(CLOSE_TAB_UPGRADE, UPGRADE) && !NotOverlooked(CLOSE_TAB_UPGRADE, UPGRADE)
    ensures var r := LineRun(ps, t, CLOSE_TAB_UPGRADE);
            r.outcome.Going? && r.ps.flags == ps.flags.(close := true)
  {
    hide LineRun, Valid, IsLine, Heard, Listed, CLOSE_TAB_UPGRADE;
    ValuesAreLines();
    ReadTabUpgrade();
    LineRecorded(ps, t, CLOSE_TAB_UPGRADE);
  }

  /** "close", and a line of white space behind it. */
  const FOLDED_CLOSE: seq<Sign> := Chars(CLOSE) + [Fold(CRLF, ' ')]

  lemma ReadFoldedClose()
    ensures IsValue(FOLDED_CLOSE) && Marked(FOLDED_CLOSE) == CLOSE + [FOLD]
    ensures Sent(FOLDED_CLOSE) == CLOSE + CRLF + [' ']
  {
    var v := Chars(CLOSE);
    CharsSent(CLOSE);
    CloseIsLine();
    assert FOLDED_CLOSE[..|v|] == v && FOLDED_CLOSE[0] == v[0];
    hide IsHeaderChar, CLOSE, Sent, Marked;
    FoldedSnoc(v, Fold(CRLF, ' '));
  }

  lemma CloseIsLine()
    ensures IsLine(CLOSE)
  {
  }

  lemma FoldSpoilsClose()
    ensures Listed(CLOSE + [FOLD], CLOSE)
    ensures !Heard(CLOSE + [FOLD], CLOSE) && !Heard(CLOSE + [FOLD], KEEP_ALIVE) && !Heard(CLOSE + [FOLD], UPGRADE)
  {
    hide Pieces, Text, Listed, Heeded, TornAt, IsPlain, CLOSE, UPGRADE, KEEP_ALIVE;
    PlainNames();
    PlainElement(CLOSE);
    OptionNames();
    var v := CLOSE + [FOLD];
    OneElement(ConnectionHeader, v);
    BlankBehind(CLOSE, FOLD);
  }

  /** Not to be recorded it takes no more than a fold: "close", a line end and a line with a space. */
  lemma FoldHidesClose(ps: Parser, t: Trace)
    requires Valid(ps) && ps.state.HeaderValueDiscardWs? && ps.hstate.Connection? && ps.nread + 20 <= MAX_HEADER_SIZE
    ensures Listed(Marked(FOLDED_CLOSE), CLOSE) && !NotOverlooked(Marked(FOLDED_CLOSE), CLOSE)
    ensures var r := Run(ps, t, CLOSE + CRLF + [' '] + CRLF + [CR]);
            r.outcome.Going? && r.ps.flags == ps.flags
  {
    hide Run, Valid, IsValue, Heard, Listed, FOLDED_CLOSE, CLOSE;
    OptionNames();
    ReadFoldedClose();
    FoldSpoilsClose();
    ConnectionOptions(ps, t, FOLDED_CLOSE, CRLF, CR);
  }

  // ---------------------------------------------------------------- after the last message

  /** Once a connection is not to be kept alive nothing but line ends is accepted on it. */
  lemma {:induction false} ClosedTakesOnlyLineEnds(ps: Parser, t: Trace, data: seq<Byte>)
    requires Valid(ps) && ps.state.Dead? && ps.nread + |data| <= MAX_HEADER_SIZE
    ensures var r := Run(ps, t, data);
            && (r.outcome.Going? <==> forall i :: 0 <= i < |data| ==> data[i] == CR || data[i] == LF)
            && (r.outcome.Going? ==> r.ps == ps.(nread := ps.nread + |data|) && r.trace == t)
    decreases |data|
  {
    if data != [] {
      DeadByte(ps, t, data[0]);
      hide Step, StateInv;
      var s := Step(ps, t, data[0]);
      if s.outcome.Going? {
        StepOk(ps, t, data[0]);
        ClosedTakesOnlyLineEnds(s.ps, s.trace, data[1..]);
        assert forall i :: 0 < i < |data| ==> data[i] == data[1..][i - 1];
      }
    }
  }

  lemma DeadByte(ps: Parser, t: Trace, ch: Byte)
    requires Valid(ps) && ps.state.Dead? && ps.nread < MAX_HEADER_SIZE
    ensures var s := Step(ps, t, ch);
            if ch == CR || ch == LF then s == Ran(ps.(nread := ps.nread + 1), t, 1, Going) else s.outcome.Failed?
  {
    hide StateInv;
  }

  /** So a request with the close flag, of a version whose two numbers are above 0, is the last one of its
      connection. */
  lemma CloseIsLast(done: Parser, t: Trace, data: seq<Byte>)
    requires Valid(done.(state := NewMessage(done))) && done.nread + |data| <= MAX_HEADER_SIZE
    requires done.major > 0 && done.minor > 0 && done.flags.close
    ensures Run(done.(state := NewMessage(done)), t, data).outcome.Going? ==>
              forall i :: 0 <= i < |data| ==> data[i] == CR || data[i] == LF
  {
    hide Run, StateInv;
    ClosedTakesOnlyLineEnds(done.(state := NewMessage(done)), t, data);
  }
}
