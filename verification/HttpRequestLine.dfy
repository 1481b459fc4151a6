// The request line as text: a method name, a URL and a version lead to exactly this parser and these callbacks.

module HttpRequestLine {
  import opened Words
  import opened Digits
  import opened HttpChars
  import opened HttpParser
  import opened HttpInvariant
  import opened HttpRun
  import opened HttpSteps
  import opened HttpNames
  import U = HttpUrl
  import G = HttpUrlGrammar

  // ---------------------------------------------------------------- the method

  /** The parser once the first letter of a method is read. */
  function Begun(ps: Parser, m: Method, nread: nat): Parser {
    ps.(flags := NO_FLAGS, usesTe := false, contentLength := ULLONG_MAX, index := 1, verb := m, state := ReqMethod,
        nread := nread)
  }

  /** What the application hears of it: the method is guessed from one letter, and C may become CONNECT. */
  function BeginNote(m: Method): Event { Note(MessageBegin, ULLONG_MAX, false, MethodString(m)[..1] == ['C']) }

  /** A name that leads to a guess does so from its first letter on. */
  lemma {:induction false} GuessedFrom(w: seq<Byte>, n: nat)
    requires GuessAfter(w).Some? && 1 <= n <= |w|
    ensures GuessAfter(w[..n]).Some?
    decreases |w|
  {
    hide MethodString, FirstGuess, SwitchGuess;
    if n == |w| {
      assert w[..n] == w;
    } else {
      assert w[..|w| - 1][..n] == w[..n];
      GuessedFrom(w[..|w| - 1], n);
    }
  }

  lemma FirstLetter(m: Method)
    ensures 0 < |MethodString(m)| && FirstGuess(MethodString(m)[0]).Some?
    ensures MethodString(m)[0] != CR && MethodString(m)[0] != LF
    ensures FirstGuess(MethodString(m)[0]).value.CONNECT? <==> BeginNote(m).isConnect
  {
    hide MethodString;
    MethodLengths(m);
    EveryMethodGuessed(m);
    var w := MethodString(m);
    GuessedFrom(w, 1);
    assert w[..1] == [w[0]] && w[..1][0] == w[0];
    GuessLetters(w[0]);
  }

  lemma GuessLetters(c: Byte)
    ensures FirstGuess(c).Some? ==> c != CR && c != LF && (FirstGuess(c).value.CONNECT? <==> c == 'C')
  {
  }

  lemma BeginTurn(ps: Parser, ch: Byte)
    requires ps.state.StartReq? && FirstGuess(ch).Some? && ch != CR && ch != LF
    ensures var begun := Begun(ps, FirstGuess(ch).value, ps.nread);
            Dispatch(ps, ch) == Next(begun, [Notice(begun, MessageBegin)])
  {
    hide FirstGuess;
  }

  lemma MethodTurn(ps: Parser, ch: Byte)
    requires ps.state.ReqMethod? && ch != '\0' && ch != ' ' && ps.index < 31
    requires NextGuess(ps.verb, ps.index, ch).Some?
    ensures Dispatch(ps, ch) == Next(ps.(index := ps.index + 1, verb := NextGuess(ps.verb, ps.index, ch).value), [])
  {
    hide MethodString, SwitchGuess;
    if SwitchGuess(ps.verb, ps.index, ch).Some? { SwitchIsUpper(ps.verb, ps.index, ch); }
  }

  /** The beginning of a method name. */
  lemma {:induction false} MethodText(ps: Parser, t: Trace, m: Method, n: nat)
    requires Valid(ps) && ps.state.StartReq? && 1 <= n <= |MethodString(m)| && ps.nread + n <= MAX_HEADER_SIZE
    ensures var w := MethodString(m)[..n];
            && GuessAfter(w).Some?
            && Run(ps, t, w)
            == Ran(Begun(ps, GuessAfter(w).value, ps.nread + n).(index := n), t + [BeginNote(m)], n, Going)
            && Valid(Run(ps, t, w).ps)
    decreases n
  {
    hide Run, Step, Valid, Chain, Dispatch, MethodString, FirstGuess, NextGuess;
    MethodLengths(m);
    EveryMethodGuessed(m);
    var w := MethodString(m)[..n];
    assert MethodString(m)[..|MethodString(m)|] == MethodString(m);
    GuessedFrom(MethodString(m), n);
    if n == 1 {
      FirstLetter(m);
      MethodFirst(ps, t, m);
    } else {
      MethodText(ps, t, m, n - 1);
      var u, c := MethodString(m)[..n - 1], MethodString(m)[n - 1];
      assert w == u + [c];
      GuessPrefix(w, u, c, GuessAfter(u).value);
      MethodBytes(m, n - 1);
      var r := Run(ps, t, u).ps;
      var counted := r.(nread := r.nread + 1);
      var next := Begun(ps, GuessAfter(w).value, ps.nread + n).(index := n);
      MethodTurn(counted, c);
      ChainOnce(counted, c, next, []);
      SilentStep(r, t + [BeginNote(m)], c, next);
      RunSnoc(ps, t, u, c, next, t + [BeginNote(m)]);
    }
  }

  lemma MethodFirst(ps: Parser, t: Trace, m: Method)
    requires Valid(ps) && ps.state.StartReq? && ps.nread < MAX_HEADER_SIZE && MethodString(m) != []
    requires FirstGuess(MethodString(m)[0]).Some? && MethodString(m)[0] != CR && MethodString(m)[0] != LF
    requires FirstGuess(MethodString(m)[0]).value.CONNECT? <==> BeginNote(m).isConnect
    ensures var w := MethodString(m)[..1];
            && GuessAfter(w).Some?
            && Run(ps, t, w) == Ran(Begun(ps, GuessAfter(w).value, ps.nread + 1), t + [BeginNote(m)], 1, Going)
            && Valid(Run(ps, t, w).ps)
  {
    hide Run, Step, Valid, Chain, Dispatch, MethodString, FirstGuess;
    var w, c := MethodString(m)[..1], MethodString(m)[0];
    assert w == [c];
    var g := FirstGuess(c).value;
    var next := Begun(ps, g, ps.nread + 1);
    var a := Notice(next, MessageBegin);
    BeginTurn(ps.(nread := ps.nread + 1), c);
    ChainOnce(ps.(nread := ps.nread + 1), c, next, [a]);
    NoticeStep(ps, t, c, next, a);
    RunOne(ps, t, c);
    StepOk(ps, t, c);
  }

  lemma MethodEndTurn(ps: Parser)
    requires ps.state.ReqMethod? && ps.index == |MethodString(ps.verb)|
    ensures Dispatch(ps, ' ') == Next(ps.(index := Bump(ps.index), state := ReqSpacesBeforeUrl), [])
  {
    hide MethodString, SwitchGuess;
  }

  /** A method name and the space behind it. */
  lemma MethodRead(ps: Parser, t: Trace, m: Method)
    requires Valid(ps) && ps.state.StartReq? && ps.nread + |MethodString(m)| < MAX_HEADER_SIZE
    ensures var n := |MethodString(m)| + 1;
            var next := Begun(ps, m, ps.nread + n).(index := n, state := ReqSpacesBeforeUrl);
            Run(ps, t, MethodString(m) + [' ']) == Ran(next, t + [BeginNote(m)], n, Going) && Valid(next)
  {
    hide Run, Step, Valid, Chain, Dispatch, MethodString;
    MethodLengths(m);
    EveryMethodGuessed(m);
    var w := MethodString(m);
    MethodText(ps, t, m, |w|);
    assert w[..|w|] == w;
    var r := Begun(ps, m, ps.nread + |w|).(index := |w|);
    var counted := r.(nread := r.nread + 1);
    var next := Begun(ps, m, ps.nread + |w| + 1).(index := |w| + 1, state := ReqSpacesBeforeUrl);
    MethodEndTurn(counted);
    ChainOnce(counted, ' ', next, []);
    SilentStep(r, t + [BeginNote(m)], ' ', next);
    RunSnoc(ps, t, w, ' ', next, t + [BeginNote(m)]);
  }

  // ---------------------------------------------------------------- spaces

  predicate AllSpaces(gap: seq<Byte>) { forall i :: 0 <= i < |gap| ==> gap[i] == ' ' }

  lemma GapTurn(ps: Parser)
    requires ps.state.ReqSpacesBeforeUrl? || ps.state.ReqHttpStart?
    ensures Dispatch(ps, ' ') == Next(ps, [])
  {
  }

  /** More spaces than one before the URL or behind it. */
  lemma {:induction false} GapRead(ps: Parser, t: Trace, gap: seq<Byte>)
    requires Valid(ps) && (ps.state.ReqSpacesBeforeUrl? || ps.state.ReqHttpStart?)
    requires AllSpaces(gap) && ps.nread + |gap| <= MAX_HEADER_SIZE
    ensures var next := ps.(nread := ps.nread + |gap|);
            Run(ps, t, gap) == Ran(next, t, |gap|, Going) && Valid(next)
    decreases |gap|
  {
    hide Run, Valid, Dispatch;
    if gap == [] {
      EmptyRun(ps, t);
    } else {
      var u := gap[..|gap| - 1];
      assert gap == u + [' '];
      GapRead(ps, t, u);
      GapTurn(ps.(nread := ps.nread + |gap|));
      SilentSnoc(ps, t, u, ' ', ps.(nread := ps.nread + |u|), t, ps.(nread := ps.nread + |gap|));
    }
  }

  // ---------------------------------------------------------------- the URL

  /** Where the parser starts in a URL. */
  predicate AtUrl(ps: Parser) { ps.state.ReqSpacesBeforeUrl? }

  lemma UrlBytes(s: State, ch: Byte)
    ensures !ParseUrlChar(s, ch).Dead? ==> ch != ' ' && ch != CR && ch != LF && UrlState(ParseUrlChar(s, ch))
  {
    UrlStates(s, ch);
  }

  lemma UrlFirstTurn(ps: Parser, ch: Byte)
    requires AtUrl(ps) && !ParseUrlChar(U.StartState(ps.verb.CONNECT?), ch).Dead?
    ensures Dispatch(ps, ch) == Next(ps.(state := ParseUrlChar(U.StartState(ps.verb.CONNECT?), ch)), [Mark(UrlData)])
  {
    UrlBytes(U.StartState(ps.verb.CONNECT?), ch);
    hide ParseUrlChar;
  }

  lemma UrlTurn(ps: Parser, ch: Byte)
    requires UrlState(ps.state) && !ParseUrlChar(ps.state, ch).Dead?
    ensures Dispatch(ps, ch) == Next(ps.(state := ParseUrlChar(ps.state, ch)), [])
  {
    UrlBytes(ps.state, ch);
    UrlKinds(ps.state);
    hide ParseUrlChar, UrlState;
  }

  /** The beginning of a URL. */
  lemma {:induction false} UrlText(ps: Parser, t: Trace, url: seq<Byte>, n: nat)
    requires Valid(ps) && AtUrl(ps) && 1 <= n <= |url| && ps.nread + n <= MAX_HEADER_SIZE && !Joins(t, UrlData)
    requires !U.After(U.StartState(ps.verb.CONNECT?), url).Dead?
    ensures var s := U.After(U.StartState(ps.verb.CONNECT?), url[..n]);
            && UrlState(s) && Valid(Run(ps, t, url[..n]).ps)
            && Run(ps, t, url[..n])
            == Ran(ps.(state := s, nread := ps.nread + n), t + [Data(UrlData, url[..n])], n, Going)
    decreases n
  {
    hide Run, Step, Valid, Chain, Dispatch, ParseUrlChar, Emit;
    var start, c := U.StartState(ps.verb.CONNECT?), url[n - 1];
    NotDead(start, url, n);
    U.AfterSnoc(start, url, n - 1);
    var before, s := U.After(start, url[..n - 1]), U.After(start, url[..n]);
    UrlBytes(before, c);
    assert url[..n] == url[..n - 1] + [c];
    var next := ps.(state := s, nread := ps.nread + n);
    hide U.After, UrlState;
    if n == 1 {
      assert url[..0] == [] && url[..1] == [c];
      AfterNothing(start);
      UrlFirst(ps, t, c);
    } else {
      UrlText(ps, t, url, n - 1);
      UrlNext(ps, t, url[..n - 1], c, before);
    }
  }

  lemma AfterNothing(s: State)
    ensures U.After(s, []) == s
  {
  }

  lemma UrlFirst(ps: Parser, t: Trace, c: Byte)
    requires Valid(ps) && AtUrl(ps) && ps.nread < MAX_HEADER_SIZE && !Joins(t, UrlData)
    requires !ParseUrlChar(U.StartState(ps.verb.CONNECT?), c).Dead?
    ensures var next := ps.(state := ParseUrlChar(U.StartState(ps.verb.CONNECT?), c), nread := ps.nread + 1);
            Run(ps, t, [c]) == Ran(next, t + [Data(UrlData, [c])], 1, Going) && Valid(next)
  {
    hide Run, Step, Valid, Chain, Dispatch, ParseUrlChar, Emit;
    var next := ps.(state := ParseUrlChar(U.StartState(ps.verb.CONNECT?), c), nread := ps.nread + 1);
    UrlFirstTurn(ps.(nread := ps.nread + 1), c);
    ChainOnce(ps.(nread := ps.nread + 1), c, next, [Mark(UrlData)]);
    OpeningStep(ps, t, c, next, UrlData);
    EmitApart(t, UrlData, [c]);
    RunOne(ps, t, c);
    StepOk(ps, t, c);
  }

  lemma UrlNext(ps: Parser, t: Trace, u: seq<Byte>, c: Byte, s: State)
    requires Valid(ps) && UrlState(s) && ps.nread + |u| < MAX_HEADER_SIZE && !ParseUrlChar(s, c).Dead?
    requires Run(ps, t, u) == Ran(ps.(state := s, nread := ps.nread + |u|), t + [Data(UrlData, u)], |u|, Going)
    ensures var next := ps.(state := ParseUrlChar(s, c), nread := ps.nread + |u| + 1);
            Run(ps, t, u + [c]) == Ran(next, t + [Data(UrlData, u + [c])], |u| + 1, Going) && Valid(next)
  {
    hide Run, Step, Valid, Chain, Dispatch, ParseUrlChar, Emit;
    var r := ps.(state := s, nread := ps.nread + |u|);
    var next := ps.(state := ParseUrlChar(s, c), nread := ps.nread + |u| + 1);
    UrlTurn(r.(nread := r.nread + 1), c);
    ChainOnce(r.(nread := r.nread + 1), c, next, []);
    UrlKinds(s);
    DataSnoc(ps, t, u, c, r, next, UrlData);
  }

  lemma NotDead(s: State, url: seq<Byte>, n: nat)
    requires n <= |url| && !U.After(s, url).Dead?
    ensures !U.After(s, url[..n]).Dead?
  {
    if U.After(s, url[..n]).Dead? { U.DeadStays(s, url, n); }
  }

  /** The states a space ends a URL in. */
  predicate EndsUrl(s: State) {
    || s.ReqServer? || s.ReqServerWithAt? || s.ReqPath? || s.ReqQueryStringStart? || s.ReqQueryString?
    || s.ReqFragmentStart? || s.ReqFragment?
  }

  lemma UrlEndTurn(ps: Parser)
    requires EndsUrl(ps.state)
    ensures Dispatch(ps, ' ') == Next(ps.(state := ReqHttpStart), [Flush(UrlData)])
  {
  }

  /** A URL that a space can end. */
  predicate IsTarget(url: seq<Byte>, isConnect: bool) { EndsUrl(U.After(U.StartState(isConnect), url)) }

  lemma TargetIsThere(url: seq<Byte>, isConnect: bool)
    requires IsTarget(url, isConnect)
    ensures url != [] && !U.After(U.StartState(isConnect), url).Dead?
  {
  }

  /** Every URL that http_parser_parse_url accepts is one. */
  lemma AcceptedIsTarget(url: seq<Byte>, isConnect: bool)
    requires G.Accepts(url, isConnect)
    ensures IsTarget(url, isConnect)
  {
    var k, h, e :| G.IsUrl(url, isConnect, k, h, e);
    G.UrlShape(url, isConnect, k, h, e);
    G.States(url, isConnect, k, |url|);
    assert url[..|url|] == url;
    EndInside(url, isConnect, k, h, e);
  }

  lemma EndInside(url: seq<Byte>, isConnect: bool, k: G.Cuts, h: nat, e: nat)
    requires G.IsUrl(url, isConnect, k, h, e) && url != []
    ensures EndsUrl(G.StateAt(url, k, |url| - 1))
  {
    hide G.PortFits, G.Hashes, U.Splits;
  }

  /** A URL and the space behind it. */
  lemma UrlRead(ps: Parser, t: Trace, url: seq<Byte>)
    requires Valid(ps) && AtUrl(ps) && ps.nread + |url| < MAX_HEADER_SIZE && !Joins(t, UrlData)
    requires IsTarget(url, ps.verb.CONNECT?)
    ensures var next := ps.(state := ReqHttpStart, nread := ps.nread + |url| + 1);
            Run(ps, t, url + [' ']) == Ran(next, t + [Data(UrlData, url)], |url| + 1, Going) && Valid(next)
  {
    hide Run, Step, Valid, Chain, Dispatch, ParseUrlChar, Emit, U.After;
    TargetIsThere(url, ps.verb.CONNECT?);
    UrlText(ps, t, url, |url|);
    assert url[..|url|] == url;
    var r, u := Run(ps, t, url).ps, t + [Data(UrlData, url)];
    var next := ps.(state := ReqHttpStart, nread := ps.nread + |url| + 1);
    UrlEndTurn(r.(nread := r.nread + 1));
    ChainOnce(r.(nread := r.nread + 1), ' ', next, [Flush(UrlData)]);
    ClosingStep(r, u, ' ', next, UrlData);
    RunSnoc(ps, t, url, ' ', next, u);
  }

  lemma OldEndTurn(ps: Parser, ch: Byte)
    requires EndsUrl(ps.state) && (ch == CR || ch == LF)
    ensures Dispatch(ps, ch)
         == Next(ps.(major := 0, minor := 9, state := if ch == CR then ReqLineAlmostDone else HeaderFieldStart),
                 [Flush(UrlData)])
  {
  }

  /** A URL with nothing but a line end behind it. */
  lemma OldUrlRead(ps: Parser, t: Trace, url: seq<Byte>, eol: seq<Byte>)
    requires Valid(ps) && AtUrl(ps) && ps.nread + |url + eol| <= MAX_HEADER_SIZE && !Joins(t, UrlData)
    requires IsTarget(url, ps.verb.CONNECT?) && (eol == [CR, LF] || eol == [LF])
    ensures var next := ps.(state := HeaderFieldStart, major := 0, minor := 9, nread := ps.nread + |url + eol|);
            Run(ps, t, url + eol) == Ran(next, t + [Data(UrlData, url)], |url + eol|, Going) && Valid(next)
  {
    hide Run, Step, Valid, Chain, Dispatch, ParseUrlChar, Emit, U.After;
    TargetIsThere(url, ps.verb.CONNECT?);
    UrlText(ps, t, url, |url|);
    assert url[..|url|] == url;
    var r, u := Run(ps, t, url).ps, t + [Data(UrlData, url)];
    OldEndRead(r, u, eol);
    RunConcat(ps, t, url, eol);
  }

  lemma OldEndRead(ps: Parser, t: Trace, eol: seq<Byte>)
    requires Valid(ps) && EndsUrl(ps.state) && UrlState(ps.state) && (eol == [CR, LF] || eol == [LF])
    requires ps.nread + |eol| <= MAX_HEADER_SIZE && Joins(t, UrlData)
    ensures var next := ps.(state := HeaderFieldStart, major := 0, minor := 9, nread := ps.nread + |eol|);
            Run(ps, t, eol) == Ran(next, t, |eol|, Going) && Valid(next)
  {
    hide Run, Step, Valid, Chain, Dispatch, UrlState;
    var bare := ps.(major := 0, minor := 9);
    OldFirst(ps, t, eol[0]);
    if eol == [CR, LF] {
      var almost := bare.(state := ReqLineAlmostDone, nread := ps.nread + 1);
      var counted := almost.(nread := ps.nread + 2);
      VersionTurns(counted);
      SilentSnoc(ps, t, [CR], LF, almost, t, counted.(state := HeaderFieldStart));
      assert [CR] + [LF] == eol;
    }
  }

  lemma OldFirst(ps: Parser, t: Trace, ch: Byte)
    requires Valid(ps) && EndsUrl(ps.state) && UrlState(ps.state) && (ch == CR || ch == LF)
    requires ps.nread < MAX_HEADER_SIZE && Joins(t, UrlData)
    ensures var next := ps.(state := if ch == CR then ReqLineAlmostDone else HeaderFieldStart, major := 0, minor := 9,
                            nread := ps.nread + 1);
            Run(ps, t, [ch]) == Ran(next, t, 1, Going) && Valid(next)
  {
    hide Run, Step, Valid, Chain, Dispatch, UrlState;
    var counted := ps.(nread := ps.nread + 1);
    var next := counted.(major := 0, minor := 9, state := if ch == CR then ReqLineAlmostDone else HeaderFieldStart);
    OldEndTurn(counted, ch);
    ChainOnce(counted, ch, next, [Flush(UrlData)]);
    UrlKinds(ps.state);
    ClosingStep(ps, t, ch, next, UrlData);
    RunOne(ps, t, ch);
    StepOk(ps, t, ch);
  }

  // ---------------------------------------------------------------- the version

  lemma VersionTurns(ps: Parser)
    ensures ps.state.ReqHttpStart? ==> Dispatch(ps, 'H') == Next(ps.(state := ReqHttpH), [])
    ensures ps.state.ReqHttpH? ==> Dispatch(ps, 'T') == Next(ps.(state := ReqHttpHT), [])
    ensures ps.state.ReqHttpHT? ==> Dispatch(ps, 'T') == Next(ps.(state := ReqHttpHTT), [])
    ensures ps.state.ReqHttpHTT? ==> Dispatch(ps, 'P') == Next(ps.(state := ReqHttpHTTP), [])
    ensures ps.state.ReqHttpStart? && ps.verb.SOURCE? ==> Dispatch(ps, 'I') == Next(ps.(state := ReqHttpI), [])
    ensures ps.state.ReqHttpI? ==> Dispatch(ps, 'C') == Next(ps.(state := ReqHttpIC), [])
    ensures ps.state.ReqHttpIC? ==> Dispatch(ps, 'E') == Next(ps.(state := ReqHttpHTTP), [])
    ensures ps.state.ReqHttpHTTP? ==> Dispatch(ps, '/') == Next(ps.(state := ReqHttpMajor), [])
    ensures ps.state.ReqHttpDot? ==> Dispatch(ps, '.') == Next(ps.(state := ReqHttpMinor), [])
    ensures ps.state.ReqHttpEnd? ==> Dispatch(ps, CR) == Next(ps.(state := ReqLineAlmostDone), [])
    ensures ps.state.ReqHttpEnd? || ps.state.ReqLineAlmostDone? ==>
              Dispatch(ps, LF) == Next(ps.(state := HeaderFieldStart), [])
  {
  }

  lemma DigitTurns(ps: Parser, d: Byte)
    requires IsDigit(d)
    ensures ps.state.ReqHttpMajor? ==> Dispatch(ps, d) == Next(ps.(major := DigitValue(d), state := ReqHttpDot), [])
    ensures ps.state.ReqHttpMinor? ==> Dispatch(ps, d) == Next(ps.(minor := DigitValue(d), state := ReqHttpEnd), [])
  {
  }

  const HTTP: seq<Byte> := ['H', 'T', 'T', 'P', '/']

  const ICE: seq<Byte> := ['I', 'C', 'E', '/']

  /** A SOURCE request may speak another protocol. */
  lemma IceRead(ps: Parser, t: Trace)
    requires Valid(ps) && ps.state.ReqHttpStart? && ps.verb.SOURCE? && ps.nread + 4 <= MAX_HEADER_SIZE
    ensures var next := ps.(state := ReqHttpMajor, nread := ps.nread + 4);
            Run(ps, t, ICE) == Ran(next, t, 4, Going) && Valid(next)
  {
    hide Run, Valid;
    IcRead(ps, t);
    var mid := ps.(state := ReqHttpIC, nread := ps.nread + 2);
    ESlashRead(mid, t);
    RunConcat(ps, t, ['I', 'C'], ['E', '/']);
    assert ['I', 'C'] + ['E', '/'] == ICE;
  }

  lemma IcRead(ps: Parser, t: Trace)
    requires Valid(ps) && ps.state.ReqHttpStart? && ps.verb.SOURCE? && ps.nread + 2 <= MAX_HEADER_SIZE
    ensures var next := ps.(state := ReqHttpIC, nread := ps.nread + 2);
            Run(ps, t, ['I', 'C']) == Ran(next, t, 2, Going) && Valid(next)
  {
    hide Run, Valid, Dispatch;
    var n := ps.nread;
    var a, b := ps.(state := ReqHttpI, nread := n + 1), ps.(state := ReqHttpIC, nread := n + 2);
    EmptyRun(ps, t);
    VersionTurns(ps.(nread := n + 1));
    SilentSnoc(ps, t, [], 'I', ps, t, a);
    VersionTurns(a.(nread := n + 2));
    SilentSnoc(ps, t, [] + ['I'], 'C', a, t, b);
    assert [] + ['I'] + ['C'] == ['I', 'C'];
  }

  lemma ESlashRead(ps: Parser, t: Trace)
    requires Valid(ps) && ps.state.ReqHttpIC? && ps.nread + 2 <= MAX_HEADER_SIZE
    ensures var next := ps.(state := ReqHttpMajor, nread := ps.nread + 2);
            Run(ps, t, ['E', '/']) == Ran(next, t, 2, Going) && Valid(next)
  {
    hide Run, Valid, Dispatch;
    var n := ps.nread;
    var a, b := ps.(state := ReqHttpHTTP, nread := n + 1), ps.(state := ReqHttpMajor, nread := n + 2);
    EmptyRun(ps, t);
    VersionTurns(ps.(nread := n + 1));
    SilentSnoc(ps, t, [], 'E', ps, t, a);
    VersionTurns(a.(nread := n + 2));
    SilentSnoc(ps, t, [] + ['E'], '/', a, t, b);
    assert [] + ['E'] + ['/'] == ['E', '/'];
  }

  lemma HttpRead(ps: Parser, t: Trace)
    requires Valid(ps) && ps.state.ReqHttpStart? && ps.nread + 5 <= MAX_HEADER_SIZE
    ensures var next := ps.(state := ReqHttpMajor, nread := ps.nread + 5);
            Run(ps, t, HTTP) == Ran(next, t, 5, Going) && Valid(next)
  {
    hide Run, Valid;
    HtRead(ps, t);
    var mid := ps.(state := ReqHttpHT, nread := ps.nread + 2);
    TpRead(mid, t);
    RunConcat(ps, t, ['H', 'T'], ['T', 'P', '/']);
    assert ['H', 'T'] + ['T', 'P', '/'] == HTTP;
  }

  lemma HtRead(ps: Parser, t: Trace)
    requires Valid(ps) && ps.state.ReqHttpStart? && ps.nread + 2 <= MAX_HEADER_SIZE
    ensures var next := ps.(state := ReqHttpHT, nread := ps.nread + 2);
            Run(ps, t, ['H', 'T']) == Ran(next, t, 2, Going) && Valid(next)
  {
    hide Run, Valid, Dispatch;
    var n := ps.nread;
    var a, b := ps.(state := ReqHttpH, nread := n + 1), ps.(state := ReqHttpHT, nread := n + 2);
    EmptyRun(ps, t);
    VersionTurns(ps.(nread := n + 1));
    SilentSnoc(ps, t, [], 'H', ps, t, a);
    VersionTurns(a.(nread := n + 2));
    SilentSnoc(ps, t, [] + ['H'], 'T', a, t, b);
    assert [] + ['H'] + ['T'] == ['H', 'T'];
  }

  lemma TpRead(ps: Parser, t: Trace)
    requires Valid(ps) && ps.state.ReqHttpHT? && ps.nread + 3 <= MAX_HEADER_SIZE
    ensures var next := ps.(state := ReqHttpMajor, nread := ps.nread + 3);
            Run(ps, t, ['T', 'P', '/']) == Ran(next, t, 3, Going) && Valid(next)
  {
    hide Run, Valid, Dispatch;
    var n := ps.nread;
    var c, d := ps.(state := ReqHttpHTT, nread := n + 1), ps.(state := ReqHttpHTTP, nread := n + 2);
    var e := ps.(state := ReqHttpMajor, nread := n + 3);
    EmptyRun(ps, t);
    VersionTurns(ps.(nread := n + 1));
    SilentSnoc(ps, t, [], 'T', ps, t, c);
    VersionTurns(c.(nread := n + 2));
    SilentSnoc(ps, t, [] + ['T'], 'P', c, t, d);
    VersionTurns(d.(nread := n + 3));
    SilentSnoc(ps, t, [] + ['T'] + ['P'], '/', d, t, e);
    assert [] + ['T'] + ['P'] + ['/'] == ['T', 'P', '/'];
  }

  lemma DigitsRead(ps: Parser, t: Trace, major: Byte, minor: Byte)
    requires Valid(ps) && ps.state.ReqHttpMajor? && ps.nread + 3 <= MAX_HEADER_SIZE && IsDigit(major) && IsDigit(minor)
    ensures var next := ps.(major := DigitValue(major), minor := DigitValue(minor), state := ReqHttpEnd,
                            nread := ps.nread + 3);
            Run(ps, t, [major, '.', minor]) == Ran(next, t, 3, Going) && Valid(next)
  {
    hide Run, Valid, Dispatch;
    var n := ps.nread;
    var a := ps.(major := DigitValue(major), state := ReqHttpDot, nread := n + 1);
    var b := a.(state := ReqHttpMinor, nread := n + 2);
    var c := b.(minor := DigitValue(minor), state := ReqHttpEnd, nread := n + 3);
    EmptyRun(ps, t);
    DigitTurns(ps.(nread := n + 1), major);
    SilentSnoc(ps, t, [], major, ps, t, a);
    VersionTurns(a.(nread := n + 2));
    SilentSnoc(ps, t, [] + [major], '.', a, t, b);
    DigitTurns(b.(nread := n + 3), minor);
    SilentSnoc(ps, t, [] + [major] + ['.'], minor, b, t, c);
    assert [] + [major] + ['.'] + [minor] == [major, '.', minor];
  }

  lemma LineEndRead(ps: Parser, t: Trace, eol: seq<Byte>)
    requires Valid(ps) && ps.state.ReqHttpEnd? && ps.nread + |eol| <= MAX_HEADER_SIZE
    requires eol == [CR, LF] || eol == [LF]
    ensures var next := ps.(state := HeaderFieldStart, nread := ps.nread + |eol|);
            Run(ps, t, eol) == Ran(next, t, |eol|, Going) && Valid(next)
  {
    hide Run, Valid, Dispatch;
    var n := ps.nread;
    EmptyRun(ps, t);
    VersionTurns(ps.(nread := n + 1));
    if eol == [LF] {
      SilentSnoc(ps, t, [], LF, ps, t, ps.(state := HeaderFieldStart, nread := n + 1));
      assert [] + [LF] == eol;
    } else {
      var a := ps.(state := ReqLineAlmostDone, nread := n + 1);
      SilentSnoc(ps, t, [], CR, ps, t, a);
      VersionTurns(a.(nread := n + 2));
      SilentSnoc(ps, t, [] + [CR], LF, a, t, ps.(state := HeaderFieldStart, nread := n + 2));
      assert [] + [CR] + [LF] == eol;
    }
  }

  // ---------------------------------------------------------------- the whole line

  /** What stands between a URL and the line end: nothing, or a protocol and its version. */
  datatype Version = Old | Named(gap: seq<Byte>, ice: bool, major: Byte, minor: Byte)

  /** A request line. Behind the method and behind the URL there may be more spaces than one. */
  datatype RequestLine = RequestLine(verb: Method, gap: seq<Byte>, url: seq<Byte>, version: Version, eol: seq<Byte>)

  function VersionText(v: Version): seq<Byte> {
    match v
    case Old => []
    case Named(gap, ice, major, minor) => [' '] + gap + (if ice then ICE else HTTP) + [major, '.', minor]
  }

  function LineText(l: RequestLine): seq<Byte> {
    MethodString(l.verb) + [' '] + l.gap + l.url + VersionText(l.version) + l.eol
  }

  /** A line without a version is one of HTTP/0.9. */
  function MajorOf(v: Version): nat { if v.Named? && IsDigit(v.major) then DigitValue(v.major) else 0 }

  function MinorOf(v: Version): nat { if v.Named? && IsDigit(v.minor) then DigitValue(v.minor) else 9 }

  predicate VersionFits(v: Version, m: Method) {
    v.Named? ==> AllSpaces(v.gap) && (v.ice ==> m.SOURCE?) && IsDigit(v.major) && IsDigit(v.minor)
  }

  predicate LineOk(l: RequestLine) {
    AllSpaces(l.gap) && IsTarget(l.url, l.verb.CONNECT?) && VersionFits(l.version, l.verb)
    && (l.eol == [CR, LF] || l.eol == [LF])
  }

  /** The parser behind the line. */
  function BehindLine(ps: Parser, l: RequestLine): Parser {
    ps.(state := HeaderFieldStart, verb := l.verb, major := MajorOf(l.version), minor := MinorOf(l.version),
        flags := NO_FLAGS, usesTe := false, contentLength := ULLONG_MAX, index := |MethodString(l.verb)| + 1,
        nread := ps.nread + |LineText(l)|)
  }

  lemma ProtocolRead(ps: Parser, t: Trace, v: Version)
    requires Valid(ps) && ps.state.ReqHttpStart? && v.Named? && VersionFits(v, ps.verb)
    requires ps.nread + |VersionText(v)| <= MAX_HEADER_SIZE
    ensures var w := v.gap + (if v.ice then ICE else HTTP) + [v.major, '.', v.minor];
            var next := ps.(state := ReqHttpEnd, major := MajorOf(v), minor := MinorOf(v), nread := ps.nread + |w|);
            Run(ps, t, w) == Ran(next, t, |w|, Going) && Valid(next)
  {
    hide Run, Valid;
    GapRead(ps, t, v.gap);
    var a := ps.(nread := ps.nread + |v.gap|);
    var name := if v.ice then ICE else HTTP;
    if v.ice { IceRead(a, t); } else { HttpRead(a, t); }
    RunConcat(ps, t, v.gap, name);
    var b := a.(state := ReqHttpMajor, nread := a.nread + |name|);
    DigitsRead(b, t, v.major, v.minor);
    RunConcat(ps, t, v.gap + name, [v.major, '.', v.minor]);
  }

  /** From the URL on. */
  lemma UrlLineRead(ps: Parser, t: Trace, l: RequestLine)
    requires Valid(ps) && AtUrl(ps) && ps.verb == l.verb && LineOk(l) && !Joins(t, UrlData)
    requires ps.nread + |l.url + VersionText(l.version) + l.eol| <= MAX_HEADER_SIZE
    ensures var w := l.url + VersionText(l.version) + l.eol;
            var next := ps.(state := HeaderFieldStart, major := MajorOf(l.version), minor := MinorOf(l.version),
                            nread := ps.nread + |w|);
            Run(ps, t, w) == Ran(next, t + [Data(UrlData, l.url)], |w|, Going) && Valid(next)
  {
    hide Run, Valid, IsTarget, AllSpaces;
    var u, v := t + [Data(UrlData, l.url)], l.version;
    if v.Old? {
      OldUrlRead(ps, t, l.url, l.eol);
      assert l.url + VersionText(v) + l.eol == l.url + l.eol;
    } else {
      UrlRead(ps, t, l.url);
      var a := ps.(state := ReqHttpStart, nread := ps.nread + |l.url| + 1);
      var w := v.gap + (if v.ice then ICE else HTTP) + [v.major, '.', v.minor];
      ProtocolRead(a, u, v);
      RunConcat(ps, t, l.url + [' '], w);
      var b := a.(state := ReqHttpEnd, major := MajorOf(v), minor := MinorOf(v), nread := a.nread + |w|);
      LineEndRead(b, u, l.eol);
      RunConcat(ps, t, l.url + [' '] + w, l.eol);
      assert l.url + VersionText(v) + l.eol == l.url + [' '] + w + l.eol;
    }
  }

  /** A request line is read as what it says, and the application hears that a message begins and its URL. */
  lemma RequestLineRead(ps: Parser, t: Trace, l: RequestLine)
    requires Valid(ps) && ps.state.StartReq? && LineOk(l) && ps.nread + |LineText(l)| <= MAX_HEADER_SIZE
    ensures Run(ps, t, LineText(l))
         == Ran(BehindLine(ps, l), t + [BeginNote(l.verb), Data(UrlData, l.url)], |LineText(l)|, Going)
    ensures Valid(BehindLine(ps, l))
  {
    hide Run, Valid, MethodString, IsTarget, VersionText, MajorOf, MinorOf, VersionFits;
    var a, rest := MethodString(l.verb) + [' '], l.url + VersionText(l.version) + l.eol;
    MethodRead(ps, t, l.verb);
    var u := t + [BeginNote(l.verb)];
    NoteIsNoData(t, l.verb);
    var p := Run(ps, t, a).ps;
    GapRead(p, u, l.gap);
    RunConcat(ps, t, a, l.gap);
    UrlLineRead(p.(nread := p.nread + |l.gap|), u, l);
    RunConcat(ps, t, a + l.gap, rest);
    assert a + l.gap + rest == LineText(l);
    assert u + [Data(UrlData, l.url)] == t + [BeginNote(l.verb), Data(UrlData, l.url)];
  }

  lemma NoteIsNoData(t: Trace, m: Method)
    ensures !Joins(t + [BeginNote(m)], UrlData)
  {
    hide MethodString;
  }
}
