// What an accepted input must look like, byte for byte: the request line.

module HttpShapes {
  import opened Words
  import opened Digits
  import opened HttpChars
  import opened HttpParser
  import opened HttpInvariant
  import opened HttpRun
  import opened HttpSteps
  import opened HttpNames
  import opened HttpLines
  import opened HttpRequestLine
  import U = HttpUrl

  // ---------------------------------------------------------------- input that ends between messages

  predicate Between(s: State) { s.StartReq? || s.Dead? }

  /** All of the input is taken, and it ends between two messages or with an upgrade. */
  predicate Complete(ps: Parser, t: Trace, data: seq<Byte>) {
    var r := Run(ps, t, data);
    !r.outcome.Failed? && r.used == |data| && (r.outcome.Going? ==> Between(r.ps.state))
  }

  lemma CompleteRest(ps: Parser, t: Trace, w: seq<Byte>, rest: seq<Byte>)
    requires Complete(ps, t, w + rest) && Run(ps, t, w).outcome.Going?
    ensures Complete(Run(ps, t, w).ps, Run(ps, t, w).trace, rest)
  {
    hide Run;
    RunConcat(ps, t, w, rest);
    RunUsed(ps, t, w);
  }

  lemma RanRest(ps: Parser, t: Trace, w: seq<Byte>, rest: seq<Byte>, q: Parser, u: Trace)
    requires Complete(ps, t, w + rest) && Run(ps, t, w) == Ran(q, u, |w|, Going)
    ensures Complete(q, u, rest)
  {
    hide Run, Complete;
    CompleteRest(ps, t, w, rest);
  }

  /** Inside a message there is a further byte, and it is taken. */
  lemma FirstTaken(ps: Parser, t: Trace, data: seq<Byte>)
    requires Valid(ps) && Complete(ps, t, data) && !Between(ps.state)
    ensures data != [] && !Step(ps, t, data[0]).outcome.Failed?
  {
    hide Step, Valid;
    if data == [] { EmptyRun(ps, t); }
  }

  /** A byte that is taken inside a header is counted, and its first turn does not fail. */
  lemma TurnTaken(ps: Parser, t: Trace, ch: Byte)
    requires Valid(ps) && ParsingHeader(ps.state) && !Step(ps, t, ch).outcome.Failed?
    ensures ps.nread < MAX_HEADER_SIZE && !Dispatch(ps.(nread := ps.nread + 1), ch).Fail?
  {
    hide Play, FlushAll, Dispatch, StateInv;
  }

  /** One byte off the front of the input. */
  lemma Peel(ps: Parser, t: Trace, data: seq<Byte>) returns (q: Parser, u: Trace)
    requires Valid(ps) && ParsingHeader(ps.state) && Complete(ps, t, data) && data != [] && ps.nread < MAX_HEADER_SIZE
    requires Dispatch(ps.(nread := ps.nread + 1), data[0]).Next?
    ensures q == Dispatch(ps.(nread := ps.nread + 1), data[0]).ps && Valid(q) && Complete(q, u, data[1..])
  {
    hide Run, Valid, Dispatch, Chain, Step, Complete;
    var d := Dispatch(ps.(nread := ps.nread + 1), data[0]);
    ChainOnce(ps.(nread := ps.nread + 1), data[0], d.ps, d.acts);
    HeaderStep(ps, t, data[0], d.ps, d.acts);
    RunOne(ps, t, data[0]);
    StepOk(ps, t, data[0]);
    assert data == [data[0]] + data[1..];
    CompleteRest(ps, t, [data[0]], data[1..]);
    q, u := d.ps, Step(ps, t, data[0]).trace;
  }

  /** A byte that is the only one to be taken. */
  lemma Wanted(ps: Parser, t: Trace, data: seq<Byte>, c: Byte, next: State) returns (q: Parser, u: Trace)
    requires Valid(ps) && ParsingHeader(ps.state) && !Between(ps.state) && Complete(ps, t, data)
    requires WantsOnly(ps, c, next)
    ensures data != [] && data[0] == c && ps.nread < MAX_HEADER_SIZE
    ensures q == ps.(state := next, nread := ps.nread + 1) && Valid(q) && Complete(q, u, data[1..])
  {
    hide Valid, Step, Complete, Dispatch;
    FirstTaken(ps, t, data);
    TurnTaken(ps, t, data[0]);
    OnlyOne(ps, c, next, data[0]);
    q, u := Peel(ps, t, data);
  }

  ghost predicate WantsOnly(ps: Parser, c: Byte, next: State) {
    forall ch: Byte, n: nat ::
      if ch == c then Dispatch(ps.(nread := n), ch) == Next(ps.(nread := n, state := next), [])
      else Dispatch(ps.(nread := n), ch).Fail?
  }

  lemma OnlyOne(ps: Parser, c: Byte, next: State, ch: Byte)
    requires WantsOnly(ps, c, next) && !Dispatch(ps.(nread := ps.nread + 1), ch).Fail?
    ensures ch == c && Dispatch(ps.(nread := ps.nread + 1), ch) == Next(ps.(nread := ps.nread + 1, state := next), [])
  {
    hide Dispatch;
  }

  lemma CountLimit(ps: Parser)
    requires Valid(ps)
    ensures ps.nread <= MAX_HEADER_SIZE
  {
    hide StateInv;
  }

  // ---------------------------------------------------------------- the method

  lemma MethodFlow(ps: Parser, ch: Byte)
    requires ps.state.ReqMethod? && !Dispatch(ps, ch).Fail?
    ensures var d := Dispatch(ps, ch);
            && d.Next? && d.ps.nread == ps.nread
            && (if ch == ' ' then d.ps.state.ReqSpacesBeforeUrl? else d.ps.state.ReqMethod?)
  {
    hide MethodString, SwitchGuess;
    if SwitchGuess(ps.verb, ps.index, ch).Some? { SwitchIsUpper(ps.verb, ps.index, ch); }
    if ps.index < |MethodString(ps.verb)| { MethodBytes(ps.verb, ps.index); }
  }

  /** Up to the next space. */
  lemma {:induction false} ToSpace(ps: Parser, t: Trace, data: seq<Byte>) returns (w: seq<Byte>, rest: seq<Byte>)
    requires Valid(ps) && ps.state.ReqMethod? && Complete(ps, t, data)
    ensures data == w + [' '] + rest && (forall i :: 0 <= i < |w| ==> w[i] != ' ') && ps.nread + |w| < MAX_HEADER_SIZE
    decreases |data|
  {
    hide Valid, Step, Complete, Dispatch;
    FirstTaken(ps, t, data);
    TurnTaken(ps, t, data[0]);
    MethodFlow(ps.(nread := ps.nread + 1), data[0]);
    if data[0] == ' ' {
      w, rest := [], data[1..];
    } else {
      var q, u := Peel(ps, t, data);
      var v;
      v, rest := ToSpace(q, u, data[1..]);
      w := [data[0]] + v;
      assert data == [data[0]] + data[1..];
    }
  }

  lemma StartFlow(ps: Parser, ch: Byte)
    requires ps.state.StartReq? && ch != CR && ch != LF && !Dispatch(ps, ch).Fail?
    ensures Dispatch(ps, ch).Next? && Dispatch(ps, ch).ps.state.ReqMethod? && Dispatch(ps, ch).ps.nread == ps.nread
    ensures ch != ' '
  {
  }

  lemma StartTaken(ps: Parser, t: Trace, data: seq<Byte>)
    requires Valid(ps) && Complete(ps, t, data) && data != []
    ensures !Step(ps, t, data[0]).outcome.Failed?
  {
    hide Step, StateInv;
  }

  /** A request begins with the name of a method. */
  lemma MethodShape(ps: Parser, t: Trace, data: seq<Byte>) returns (m: Method, rest: seq<Byte>)
    requires Valid(ps) && ps.state.StartReq? && Complete(ps, t, data) && data != [] && data[0] != CR && data[0] != LF
    ensures data == MethodString(m) + [' '] + rest && ps.nread + |MethodString(m)| < MAX_HEADER_SIZE
  {
    hide Valid, Step, Run, Dispatch, MethodString, GuessAfter, Complete;
    StartTaken(ps, t, data);
    TurnTaken(ps, t, data[0]);
    StartFlow(ps.(nread := ps.nread + 1), data[0]);
    var q, u := Peel(ps, t, data);
    var v;
    v, rest := ToSpace(q, u, data[1..]);
    var w := [data[0]] + v;
    assert data == w + ([' '] + rest);
    m := MethodThere(ps, t, w, rest);
  }

  lemma MethodThere(ps: Parser, t: Trace, w: seq<Byte>, rest: seq<Byte>) returns (m: Method)
    requires Valid(ps) && ps.state.StartReq? && Complete(ps, t, w + ([' '] + rest))
    requires w != [] && w[0] != CR && w[0] != LF && forall i :: 0 <= i < |w| ==> w[i] != ' '
    requires ps.nread + |w| < MAX_HEADER_SIZE
    ensures w == MethodString(m)
  {
    hide Valid, Step, Run, Dispatch, MethodString, GuessAfter;
    MethodRun(ps, t, w);
    RunConcat(ps, t, w, [' '] + rest);
    RunOk(ps, t, w);
    CompleteRest(ps, t, w, [' '] + rest);
    var r := Run(ps, t, w);
    FirstTaken(r.ps, r.trace, [' '] + rest);
    MethodEnds(r.ps, r.trace, w);
    GuessBeginsAsRead(w);
    m := r.ps.verb;
  }

  // ---------------------------------------------------------------- the URL

  lemma GapFlow(ps: Parser, ch: Byte)
    requires (ps.state.ReqSpacesBeforeUrl? || ps.state.ReqHttpStart?) && ch == ' '
    ensures Dispatch(ps, ch) == Next(ps, [])
  {
  }

  lemma {:induction false} GapShape(ps: Parser, t: Trace, data: seq<Byte>) returns (gap: seq<Byte>, rest: seq<Byte>)
    requires Valid(ps) && (ps.state.ReqSpacesBeforeUrl? || ps.state.ReqHttpStart?) && Complete(ps, t, data)
    ensures data == gap + rest && AllSpaces(gap) && ps.nread + |gap| <= MAX_HEADER_SIZE
    ensures rest != [] && rest[0] != ' '
    decreases |data|
  {
    hide Valid, Step, Complete, Dispatch;
    FirstTaken(ps, t, data);
    TurnTaken(ps, t, data[0]);
    if data[0] == ' ' {
      GapFlow(ps.(nread := ps.nread + 1), data[0]);
      var q, u := Peel(ps, t, data);
      var g;
      g, rest := GapShape(q, u, data[1..]);
      gap := [' '] + g;
      assert data == [' '] + (g + rest);
    } else {
      gap, rest := [], data;
    }
  }

  predicate IsUrlEnd(ch: Byte) { ch == ' ' || ch == CR || ch == LF }

  lemma UrlFlow(ps: Parser, ch: Byte)
    requires UrlState(ps.state) && !Dispatch(ps, ch).Fail?
    ensures if IsUrlEnd(ch) then EndsUrl(ps.state)
            else !ParseUrlChar(ps.state, ch).Dead? && UrlState(ParseUrlChar(ps.state, ch))
                 && Dispatch(ps, ch) == Next(ps.(state := ParseUrlChar(ps.state, ch)), [])
  {
    hide ParseUrlChar, Dispatch, UrlState, EndsUrl;
    if !ParseUrlChar(ps.state, ch).Dead? {
      UrlBytes(ps.state, ch);
      UrlTurn(ps, ch);
    } else {
      DeadUrl(ps, ch);
    }
  }

  lemma DeadUrl(ps: Parser, ch: Byte)
    requires UrlState(ps.state) && !Dispatch(ps, ch).Fail? && ParseUrlChar(ps.state, ch).Dead?
    ensures IsUrlEnd(ch) && EndsUrl(ps.state)
  {
    UrlKinds(ps.state);
    hide ParseUrlChar;
  }

  lemma {:induction false} AfterCons(s: State, c: Byte, w: seq<Byte>)
    ensures U.After(s, [c] + w) == U.After(ParseUrlChar(s, c), w)
    decreases |w|
  {
    hide ParseUrlChar;
    var v := [c] + w;
    if w == [] {
      assert v[..0] == [] && v[|v| - 1] == c;
    } else {
      assert v[..|v| - 1] == [c] + w[..|w| - 1] && v[|v| - 1] == w[|w| - 1];
      AfterCons(s, c, w[..|w| - 1]);
    }
  }

  /** The rest of a URL goes up to a space or a line end. */
  lemma {:induction false} UrlRest(ps: Parser, t: Trace, data: seq<Byte>) returns (url: seq<Byte>, rest: seq<Byte>)
    requires Valid(ps) && UrlState(ps.state) && Complete(ps, t, data)
    ensures data == url + rest && EndsUrl(U.After(ps.state, url)) && ps.nread + |url| < MAX_HEADER_SIZE
    ensures rest != [] && IsUrlEnd(rest[0])
    decreases |data|
  {
    hide Valid, Step, Complete, Dispatch, ParseUrlChar, EndsUrl, UrlState;
    UrlKinds(ps.state);
    InsideUrl(ps.state);
    FirstTaken(ps, t, data);
    TurnTaken(ps, t, data[0]);
    UrlFlow(ps.(nread := ps.nread + 1), data[0]);
    if IsUrlEnd(data[0]) {
      url, rest := [], data;
    } else {
      var q, u := Peel(ps, t, data);
      var v;
      v, rest := UrlRest(q, u, data[1..]);
      url := [data[0]] + v;
      AfterCons(ps.state, data[0], v);
      assert data == [data[0]] + data[1..];
    }
  }

  lemma InsideUrl(s: State)
    requires UrlState(s)
    ensures ParsingHeader(s) && !Between(s)
  {
  }

  lemma FirstUrlFlow(ps: Parser, ch: Byte)
    requires AtUrl(ps) && ch != ' ' && !Dispatch(ps, ch).Fail?
    ensures var s := ParseUrlChar(U.StartState(ps.verb.CONNECT?), ch);
            UrlState(s) && Dispatch(ps, ch) == Next(ps.(state := s), [Mark(UrlData)])
  {
    var s := ParseUrlChar(U.StartState(ps.verb.CONNECT?), ch);
    if !s.Dead? {
      UrlBytes(U.StartState(ps.verb.CONNECT?), ch);
      UrlFirstTurn(ps, ch);
    }
    hide ParseUrlChar;
  }

  lemma UrlShape(ps: Parser, t: Trace, data: seq<Byte>) returns (url: seq<Byte>, rest: seq<Byte>)
    requires Valid(ps) && AtUrl(ps) && Complete(ps, t, data) && data != [] && data[0] != ' '
    ensures data == url + rest && IsTarget(url, ps.verb.CONNECT?) && ps.nread + |url| < MAX_HEADER_SIZE
    ensures rest != [] && IsUrlEnd(rest[0])
  {
    hide Valid, Step, Complete, Dispatch, ParseUrlChar, EndsUrl, UrlState;
    FirstTaken(ps, t, data);
    TurnTaken(ps, t, data[0]);
    FirstUrlFlow(ps.(nread := ps.nread + 1), data[0]);
    var q, u := Peel(ps, t, data);
    var v;
    v, rest := UrlRest(q, u, data[1..]);
    url := [data[0]] + v;
    AfterCons(U.StartState(ps.verb.CONNECT?), data[0], v);
    assert data == [data[0]] + data[1..];
  }

  // ---------------------------------------------------------------- the version

  lemma StrictStates(ps: Parser)
    ensures ps.state.ReqHttpH? ==> WantsOnly(ps, 'T', ReqHttpHT)
    ensures ps.state.ReqHttpHT? ==> WantsOnly(ps, 'T', ReqHttpHTT)
    ensures ps.state.ReqHttpHTT? ==> WantsOnly(ps, 'P', ReqHttpHTTP)
    ensures ps.state.ReqHttpI? ==> WantsOnly(ps, 'C', ReqHttpIC)
    ensures ps.state.ReqHttpIC? ==> WantsOnly(ps, 'E', ReqHttpHTTP)
    ensures ps.state.ReqHttpHTTP? ==> WantsOnly(ps, '/', ReqHttpMajor)
    ensures ps.state.ReqHttpDot? ==> WantsOnly(ps, '.', ReqHttpMinor)
    ensures ps.state.ReqLineAlmostDone? ==> WantsOnly(ps, LF, HeaderFieldStart)
  {
  }

  lemma ProtocolFlow(ps: Parser, ch: Byte)
    requires ps.state.ReqHttpStart? && ch != ' ' && !Dispatch(ps, ch).Fail?
    ensures var d := Dispatch(ps, ch);
            && (ch == 'H' || (ch == 'I' && ps.verb.SOURCE?))
            && d == Next(ps.(state := if ch == 'H' then ReqHttpH else ReqHttpI), [])
  {
  }

  lemma DigitFlow(ps: Parser, ch: Byte)
    requires (ps.state.ReqHttpMajor? || ps.state.ReqHttpMinor?) && !Dispatch(ps, ch).Fail?
    ensures var d := Dispatch(ps, ch);
            && IsDigit(ch) && d.Next? && d.ps.nread == ps.nread && d.ps.verb == ps.verb
            && d.ps.state == if ps.state.ReqHttpMajor? then ReqHttpDot else ReqHttpEnd
  {
  }

  lemma LineEndFlow(ps: Parser, ch: Byte)
    requires ps.state.ReqHttpEnd? && !Dispatch(ps, ch).Fail?
    ensures (ch == CR || ch == LF)
            && Dispatch(ps, ch) == Next(ps.(state := if ch == CR then ReqLineAlmostDone else HeaderFieldStart), [])
  {
  }

  /** The parser behind `n` bytes of a line, in the state `state`. */
  predicate Reached(ps: Parser, q: Parser, u: Trace, state: State, n: nat, rest: seq<Byte>) {
    Valid(q) && q.state == state && q.nread == ps.nread + n && q.verb == ps.verb && Complete(q, u, rest)
  }

  lemma HttpName(ps: Parser, t: Trace, data: seq<Byte>) returns (q: Parser, u: Trace, rest: seq<Byte>)
    requires Valid(ps) && ps.state.ReqHttpH? && Complete(ps, t, data)
    ensures data == ['T', 'T', 'P', '/'] + rest && Reached(ps, q, u, ReqHttpMajor, 4, rest)
  {
    hide Valid, Complete, WantsOnly;
    StrictStates(ps);
    var a, v := Wanted(ps, t, data, 'T', ReqHttpHT);
    StrictStates(a);
    var b, w := Wanted(a, v, data[1..], 'T', ReqHttpHTT);
    StrictStates(b);
    var c, x := Wanted(b, w, data[1..][1..], 'P', ReqHttpHTTP);
    StrictStates(c);
    q, u := Wanted(c, x, data[1..][1..][1..], '/', ReqHttpMajor);
    rest := data[1..][1..][1..][1..];
  }

  lemma IceName(ps: Parser, t: Trace, data: seq<Byte>) returns (q: Parser, u: Trace, rest: seq<Byte>)
    requires Valid(ps) && ps.state.ReqHttpI? && Complete(ps, t, data)
    ensures data == ['C', 'E', '/'] + rest && Reached(ps, q, u, ReqHttpMajor, 3, rest)
  {
    hide Valid, Complete, WantsOnly;
    StrictStates(ps);
    var a, v := Wanted(ps, t, data, 'C', ReqHttpIC);
    StrictStates(a);
    var b, w := Wanted(a, v, data[1..], 'E', ReqHttpHTTP);
    StrictStates(b);
    q, u := Wanted(b, w, data[1..][1..], '/', ReqHttpMajor);
    rest := data[1..][1..][1..];
  }

  lemma ProtocolName(ps: Parser, t: Trace, data: seq<Byte>)
    returns (ice: bool, q: Parser, u: Trace, rest: seq<Byte>)
    requires Valid(ps) && ps.state.ReqHttpStart? && Complete(ps, t, data) && data != [] && data[0] != ' '
    ensures var name := if ice then ICE else HTTP;
            data == name + rest && (ice ==> ps.verb.SOURCE?) && Reached(ps, q, u, ReqHttpMajor, |name|, rest)
  {
    hide Valid, Complete, Dispatch, Step;
    FirstTaken(ps, t, data);
    TurnTaken(ps, t, data[0]);
    ProtocolFlow(ps.(nread := ps.nread + 1), data[0]);
    var a, v := Peel(ps, t, data);
    ice := data[0] == 'I';
    if ice { q, u, rest := IceName(a, v, data[1..]); } else { q, u, rest := HttpName(a, v, data[1..]); }
    assert data == [data[0]] + data[1..];
  }

  lemma DigitShape(ps: Parser, t: Trace, data: seq<Byte>) returns (q: Parser, u: Trace)
    requires Valid(ps) && (ps.state.ReqHttpMajor? || ps.state.ReqHttpMinor?) && Complete(ps, t, data)
    ensures data != [] && IsDigit(data[0])
    ensures Reached(ps, q, u, if ps.state.ReqHttpMajor? then ReqHttpDot else ReqHttpEnd, 1, data[1..])
  {
    hide Valid, Complete, Dispatch, Step;
    FirstTaken(ps, t, data);
    TurnTaken(ps, t, data[0]);
    DigitFlow(ps.(nread := ps.nread + 1), data[0]);
    q, u := Peel(ps, t, data);
  }

  lemma DigitsShape(ps: Parser, t: Trace, data: seq<Byte>)
    returns (major: Byte, minor: Byte, q: Parser, u: Trace, rest: seq<Byte>)
    requires Valid(ps) && ps.state.ReqHttpMajor? && Complete(ps, t, data)
    ensures data == [major, '.', minor] + rest && IsDigit(major) && IsDigit(minor)
    ensures Reached(ps, q, u, ReqHttpEnd, 3, rest)
  {
    hide Valid, Complete, WantsOnly;
    var a, v := DigitShape(ps, t, data);
    StrictStates(a);
    var b, w := Wanted(a, v, data[1..], '.', ReqHttpMinor);
    q, u := DigitShape(b, w, data[1..][1..]);
    major, minor, rest := data[0], data[2], data[1..][1..][1..];
    assert data[1..][1..][0] == data[2];
  }

  lemma LineEndShape(ps: Parser, t: Trace, data: seq<Byte>) returns (eol: seq<Byte>, rest: seq<Byte>)
    requires Valid(ps) && ps.state.ReqHttpEnd? && Complete(ps, t, data)
    ensures data == eol + rest && (eol == [CR, LF] || eol == [LF]) && ps.nread + |eol| <= MAX_HEADER_SIZE
  {
    hide Valid, Complete, WantsOnly, Dispatch, Step;
    FirstTaken(ps, t, data);
    TurnTaken(ps, t, data[0]);
    LineEndFlow(ps.(nread := ps.nread + 1), data[0]);
    assert data == [data[0]] + data[1..];
    if data[0] == CR {
      var a, v := Peel(ps, t, data);
      StrictStates(a);
      var b, w := Wanted(a, v, data[1..], LF, HeaderFieldStart);
      eol, rest := [CR, LF], data[1..][1..];
    } else {
      eol, rest := [LF], data[1..];
    }
  }

  /** Behind the URL and a space. */
  lemma NamedShape(ps: Parser, t: Trace, data: seq<Byte>)
    returns (v: Version, eol: seq<Byte>, rest: seq<Byte>)
    requires Valid(ps) && ps.state.ReqHttpStart? && Complete(ps, t, data)
    ensures v.Named? && VersionFits(v, ps.verb) && (eol == [CR, LF] || eol == [LF])
    ensures var w := v.gap + (if v.ice then ICE else HTTP) + [v.major, '.', v.minor] + eol;
            data == w + rest && ps.nread + |w| <= MAX_HEADER_SIZE
  {
    hide Valid, Complete, Run;
    var gap, a := GapShape(ps, t, data);
    GapRead(ps, t, gap);
    var p := ps.(nread := ps.nread + |gap|);
    RanRest(ps, t, gap, a, p, t);
    var ice, q, u, b := ProtocolName(p, t, a);
    var major, minor, r, x, c := DigitsShape(q, u, b);
    eol, rest := LineEndShape(r, x, c);
    v := Named(gap, ice, major, minor);
    var name := if ice then ICE else HTTP;
    assert data == gap + (name + ([major, '.', minor] + (eol + rest)));
  }

  // ---------------------------------------------------------------- the whole line

  lemma OldFlow(ps: Parser, ch: Byte)
    requires EndsUrl(ps.state) && (ch == CR || ch == LF)
    ensures Dispatch(ps, ch).Next? && Dispatch(ps, ch).ps.nread == ps.nread
    ensures ch == CR ==> Dispatch(ps, ch).ps.state.ReqLineAlmostDone?
  {
  }

  lemma OldShape(ps: Parser, t: Trace, data: seq<Byte>) returns (eol: seq<Byte>, rest: seq<Byte>)
    requires Valid(ps) && EndsUrl(ps.state) && Complete(ps, t, data) && data != [] && (data[0] == CR || data[0] == LF)
    ensures data == eol + rest && (eol == [CR, LF] || eol == [LF]) && ps.nread + |eol| <= MAX_HEADER_SIZE
  {
    hide Valid, Complete, WantsOnly, Dispatch, Step;
    FirstTaken(ps, t, data);
    TurnTaken(ps, t, data[0]);
    OldFlow(ps.(nread := ps.nread + 1), data[0]);
    assert data == [data[0]] + data[1..];
    if data[0] == CR {
      var a, v := Peel(ps, t, data);
      StrictStates(a);
      var b, w := Wanted(a, v, data[1..], LF, HeaderFieldStart);
      eol, rest := [CR, LF], data[1..][1..];
    } else {
      eol, rest := [LF], data[1..];
    }
  }

  /** The URL and what stands behind it. */
  lemma TargetShape(ps: Parser, t: Trace, data: seq<Byte>)
    returns (url: seq<Byte>, v: Version, eol: seq<Byte>, rest: seq<Byte>)
    requires Valid(ps) && AtUrl(ps) && Complete(ps, t, data) && data != [] && data[0] != ' ' && !Joins(t, UrlData)
    ensures IsTarget(url, ps.verb.CONNECT?) && VersionFits(v, ps.verb) && (eol == [CR, LF] || eol == [LF])
    ensures var w := url + VersionText(v) + eol;
            data == w + rest && ps.nread + |w| <= MAX_HEADER_SIZE
  {
    hide Valid, Complete, Run, IsTarget;
    var a;
    url, a := UrlShape(ps, t, data);
    if a[0] == ' ' {
      v, eol, rest := SpacedShape(ps, t, url, a);
    } else {
      v := Old;
      eol, rest := BareShape(ps, t, url, a);
    }
  }

  lemma SpacedShape(ps: Parser, t: Trace, url: seq<Byte>, a: seq<Byte>)
    returns (v: Version, eol: seq<Byte>, rest: seq<Byte>)
    requires Valid(ps) && AtUrl(ps) && Complete(ps, t, url + a) && IsTarget(url, ps.verb.CONNECT?)
    requires a != [] && a[0] == ' ' && !Joins(t, UrlData) && ps.nread + |url| < MAX_HEADER_SIZE
    ensures VersionFits(v, ps.verb) && (eol == [CR, LF] || eol == [LF])
    ensures a == VersionText(v) + eol + rest && ps.nread + |url + VersionText(v) + eol| <= MAX_HEADER_SIZE
  {
    hide Valid, Complete, Run, IsTarget;
    UrlRead(ps, t, url);
    assert url + a == url + [' '] + a[1..];
    var p := ps.(state := ReqHttpStart, nread := ps.nread + |url| + 1);
    RanRest(ps, t, url + [' '], a[1..], p, t + [Data(UrlData, url)]);
    v, eol, rest := NamedShape(p, t + [Data(UrlData, url)], a[1..]);
    assert a == [' '] + a[1..];
  }

  lemma BareShape(ps: Parser, t: Trace, url: seq<Byte>, a: seq<Byte>) returns (eol: seq<Byte>, rest: seq<Byte>)
    requires Valid(ps) && AtUrl(ps) && Complete(ps, t, url + a) && IsTarget(url, ps.verb.CONNECT?)
    requires a != [] && (a[0] == CR || a[0] == LF) && !Joins(t, UrlData) && ps.nread + |url| < MAX_HEADER_SIZE
    ensures eol == [CR, LF] || eol == [LF]
    ensures a == eol + rest && ps.nread + |url + eol| <= MAX_HEADER_SIZE
  {
    hide Valid, Complete, Run, U.After;
    TargetIsThere(url, ps.verb.CONNECT?);
    UrlText(ps, t, url, |url|);
    assert url[..|url|] == url;
    var p := Run(ps, t, url).ps;
    RanRest(ps, t, url, a, p, t + [Data(UrlData, url)]);
    eol, rest := OldShape(p, t + [Data(UrlData, url)], a);
  }

  /** An accepted request begins with a request line. */
  lemma RequestLineShape(ps: Parser, t: Trace, data: seq<Byte>) returns (l: RequestLine, rest: seq<Byte>)
    requires Valid(ps) && ps.state.StartReq? && Complete(ps, t, data) && data != [] && data[0] != CR && data[0] != LF
    ensures data == LineText(l) + rest && LineOk(l) && ps.nread + |LineText(l)| <= MAX_HEADER_SIZE
  {
    hide Valid, Complete, Run, IsTarget, MethodString, VersionFits, VersionText;
    var m, a := MethodShape(ps, t, data);
    var w, u := MethodString(m) + [' '], t + [BeginNote(m)];
    MethodRead(ps, t, m);
    var p := Run(ps, t, w).ps;
    RanRest(ps, t, w, a, p, u);
    var gap, b := GapShape(p, u, a);
    GapRead(p, u, gap);
    var q := p.(nread := p.nread + |gap|);
    RanRest(p, u, gap, b, q, u);
    NoteIsNoData(t, m);
    var url, v, eol, c := TargetShape(q, u, b);
    l, rest := RequestLine.RequestLine(m, gap, url, v, eol), c;
    assert data == w + (gap + (url + VersionText(v) + eol + c));
  }
}
