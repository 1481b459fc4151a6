// The two name matchers: header names, case-blind, and request methods, guessed from one letter.

module HttpNames {
  import opened Words
  import opened HttpChars
  import opened HttpParser
  import opened HttpInvariant
  import opened HttpRun
  import opened HttpExecute

  // ---------------------------------------------------------------- header names

  /** A header name, lower-cased as the token table does. */
  function Tokens(w: seq<Byte>): (l: string)
    ensures |l| == |w|
  {
    if w == [] then [] else Tokens(w[..|w| - 1]) + [Token(w[|w| - 1])]
  }

  /** Whether `l` can still become one of the names that are looked for. */
  predicate Promising(l: string) {
    l <= CONNECTION || l <= PROXY_CONNECTION || l <= CONTENT_LENGTH || l <= TRANSFER_ENCODING || l <= UPGRADE
  }

  /** What the matcher's state says about the name read so far. */
  predicate Means(h: HState, index: nat, l: string) {
    match h
    case General => !Promising(l)
    case MatchC => l == "c" && index == 0
    case MatchCO => l == "co" && index == 1
    case MatchCON => l == "con" && index == 2
    case MatchingConnection => 3 <= index && index + 1 < |CONNECTION| && l == CONNECTION[..index + 1]
    case MatchingProxyConnection => index + 1 < |PROXY_CONNECTION| && l == PROXY_CONNECTION[..index + 1]
    case MatchingContentLength => 3 <= index && index + 1 < |CONTENT_LENGTH| && l == CONTENT_LENGTH[..index + 1]
    case MatchingTransferEncoding => index + 1 < |TRANSFER_ENCODING| && l == TRANSFER_ENCODING[..index + 1]
    case MatchingUpgrade => index + 1 < |UPGRADE| && l == UPGRADE[..index + 1]
    case Connection => l == CONNECTION || l == PROXY_CONNECTION
    case ContentLength => l == CONTENT_LENGTH
    case TransferEncoding => l == TRANSFER_ENCODING
    case Upgrade => l == UPGRADE
    case _ => false
  }

  lemma UnpromisingStays(l: string, c: Byte)
    ensures Promising(l + [c]) ==> Promising(l)
  {
    hide CONNECTION, PROXY_CONNECTION, CONTENT_LENGTH, TRANSFER_ENCODING, UPGRADE;
  }

  /** No name that is looked for goes on after another. */
  lemma FullIsLast(l: string, c: Byte)
    requires l == CONNECTION || l == PROXY_CONNECTION || l == CONTENT_LENGTH || l == TRANSFER_ENCODING || l == UPGRADE
    ensures !Promising(l + [c])
  {
    FirstLetters();
    var m := l + [c];
    assert m[0] == l[0] && m[3] == l[3];
  }

  lemma FirstLetters()
    ensures |CONNECTION| == 10 && |PROXY_CONNECTION| == 16 && |CONTENT_LENGTH| == 14
    ensures |TRANSFER_ENCODING| == 17 && |UPGRADE| == 7
    ensures CONNECTION[..4] == "conn" && CONTENT_LENGTH[..4] == "cont"
    ensures PROXY_CONNECTION[0] == 'p' && TRANSFER_ENCODING[0] == 't' && UPGRADE[0] == 'u'
  {
  }

  /** A byte that leaves the name being matched from `index` on leaves them all. */
  lemma MissIsFinal(name: string, index: nat, c: Byte)
    requires name == CONNECTION || name == CONTENT_LENGTH ==> 3 <= index
    requires name == CONNECTION || name == PROXY_CONNECTION || name == CONTENT_LENGTH || name == TRANSFER_ENCODING
             || name == UPGRADE
    requires index + 1 < |name| && c != name[index + 1]
    ensures !Promising(name[..index + 1] + [c])
  {
    hide CONNECTION, PROXY_CONNECTION, CONTENT_LENGTH, TRANSFER_ENCODING, UPGRADE;
    FirstLetters();
    assert CONNECTION[..4][3] == 'n' && CONNECTION[..4][0] == 'c';
    assert CONTENT_LENGTH[..4][3] == 't' && CONTENT_LENGTH[..4][0] == 'c';
    var m := name[..index + 1] + [c];
    assert m[index + 1] == c && m[0] == name[0];
    assert 3 <= index ==> m[3] == name[3];
  }

  lemma EarlyMiss(l: string, c: Byte)
    ensures l == "c" && c != 'o' ==> !Promising(l + [c])
    ensures l == "co" && c != 'n' ==> !Promising(l + [c])
    ensures l == "con" && c != 'n' && c != 't' ==> !Promising(l + [c])
  {
    hide CONNECTION, PROXY_CONNECTION, CONTENT_LENGTH, TRANSFER_ENCODING, UPGRADE;
    FirstLetters();
    assert CONNECTION[0] == CONNECTION[..4][0] && CONNECTION[1] == CONNECTION[..4][1]
        && CONNECTION[2] == CONNECTION[..4][2] && CONNECTION[3] == CONNECTION[..4][3];
    assert CONTENT_LENGTH[0] == CONTENT_LENGTH[..4][0] && CONTENT_LENGTH[1] == CONTENT_LENGTH[..4][1]
        && CONTENT_LENGTH[2] == CONTENT_LENGTH[..4][2] && CONTENT_LENGTH[3] == CONTENT_LENGTH[..4][3];
    var m := l + [c];
    if l == "c" { assert m[1] == c && m[0] == 'c'; }
    if l == "co" { assert m[2] == c && m[0] == 'c'; }
    if l == "con" { assert m[3] == c && m[0] == 'c'; }
  }

  lemma MatchByte(name: string, index: nat, h: HState, c: Byte, full: HState)
    requires index + 1 < |name| && h != full && h != General && full != General
    ensures var l := name[..index + 1] + [c];
            var next := MatchState(index + 1, h, name, c, General, full);
            && (next == General <==> c != name[index + 1])
            && (next == full ==> l == name)
            && (next == h ==> index + 2 < |name| && l == name[..index + 2])
            && (next == General || next == full || next == h)
            && (index + 2 < |name| ==> l != name)
  {
    var l := name[..index + 1] + [c];
    if c == name[index + 1] {
      assert l == name[..index + 2];
      assert index + 2 == |name| ==> l == name;
    }
  }

  /** One byte against the name it is being matched with. */
  lemma MatchMeans(name: string, index: nat, h: HState, c: Byte, full: HState)
    requires name == CONNECTION || name == CONTENT_LENGTH ==> 3 <= index
    requires name == CONNECTION || name == PROXY_CONNECTION || name == CONTENT_LENGTH || name == TRANSFER_ENCODING
             || name == UPGRADE
    requires index + 1 < |name| && h != full && h != General && full != General
    ensures var l := name[..index + 1] + [c];
            var next := MatchState(index + 1, h, name, c, General, full);
            && (next == General ==> !Promising(l))
            && (next == full ==> l == name)
            && (next == h ==> index + 2 < |name| && l == name[..index + 2])
            && (next == General || next == full || next == h)
            && (index + 2 < |name| ==> l != name)
  {
    hide Promising, MatchState;
    MatchByte(name, index, h, c, full);
    if c != name[index + 1] { MissIsFinal(name, index, c); }
  }

  lemma FieldStepMatching(ps: Parser, l: string, c: Byte)
    requires Means(ps.hstate, ps.index, l)
    requires ps.hstate.MatchingConnection? || ps.hstate.MatchingProxyConnection? || ps.hstate.MatchingContentLength?
             || ps.hstate.MatchingTransferEncoding? || ps.hstate.MatchingUpgrade?
    ensures FieldStep(ps, c).Some?
    ensures var next := FieldStep(ps, c).value;
            && Means(next.hstate, next.index, l + [c])
            && (next.usesTe <==> ps.usesTe || l + [c] == TRANSFER_ENCODING)
  {
    hide MatchState, Promising, CONNECTION, PROXY_CONNECTION, CONTENT_LENGTH, TRANSFER_ENCODING, UPGRADE;
    FirstLetters();
    match ps.hstate {
      case MatchingConnection =>
        MatchMeans(CONNECTION, ps.index, ps.hstate, c, Connection);
        assert (l + [c])[0] == CONNECTION[..4][0];
      case MatchingProxyConnection =>
        MatchMeans(PROXY_CONNECTION, ps.index, ps.hstate, c, Connection);
        assert (l + [c])[0] == 'p';
      case MatchingContentLength =>
        MatchMeans(CONTENT_LENGTH, ps.index, ps.hstate, c, ContentLength);
        assert (l + [c])[0] == CONTENT_LENGTH[..4][0];
      case MatchingTransferEncoding =>
        MatchMeans(TRANSFER_ENCODING, ps.index, ps.hstate, c, TransferEncoding);
        if !Promising(l + [c]) { TransferIsPromising(l + [c]); }
      case MatchingUpgrade =>
        MatchMeans(UPGRADE, ps.index, ps.hstate, c, Upgrade);
        assert (l + [c])[0] == 'u';
    }
  }

  lemma FieldStepEarly(ps: Parser, l: string, c: Byte)
    requires Means(ps.hstate, ps.index, l)
    requires ps.hstate.MatchC? || ps.hstate.MatchCO? || ps.hstate.MatchCON?
    ensures FieldStep(ps, c).Some?
    ensures var next := FieldStep(ps, c).value;
            Means(next.hstate, next.index, l + [c]) && next.usesTe == ps.usesTe && |l + [c]| < 5
  {
    hide Promising, Match, CONNECTION, PROXY_CONNECTION, CONTENT_LENGTH, TRANSFER_ENCODING, UPGRADE;
    FirstLetters();
    EarlyMiss(l, c);
    assert "co" == "c" + ['o'] && "con" == "co" + ['n'] && "conn" == "con" + ['n'] && "cont" == "con" + ['t'];
  }

  /** The matcher's state keeps its meaning over every byte of a name. */
  lemma FieldStepMeans(ps: Parser, l: string, c: Byte)
    requires Means(ps.hstate, ps.index, l)
    ensures FieldStep(ps, c).Some?
    ensures var next := FieldStep(ps, c).value;
            && Means(next.hstate, next.index, l + [c])
            && (next.usesTe <==> ps.usesTe || l + [c] == TRANSFER_ENCODING)
  {
    hide Promising, Match, CONNECTION, PROXY_CONNECTION, CONTENT_LENGTH, TRANSFER_ENCODING, UPGRADE;
    FirstLetters();
    match ps.hstate {
      case MatchC | MatchCO | MatchCON => FieldStepEarly(ps, l, c);
      case General =>
        UnpromisingStays(l, c);
        TransferIsPromising(l + [c]);
      case Connection | ContentLength | TransferEncoding | Upgrade =>
        FullIsLast(l, c);
        TransferIsPromising(l + [c]);
      case _ => FieldStepMatching(ps, l, c);
    }
  }

  lemma TransferIsPromising(l: string)
    requires !Promising(l)
    ensures l != TRANSFER_ENCODING
  {
    hide CONNECTION, PROXY_CONNECTION, CONTENT_LENGTH, TRANSFER_ENCODING, UPGRADE;
  }

  /** What no byte of a header name changes. */
  predicate SameRequest(was: Parser, now: Parser) {
    now.flags == was.flags && now.verb == was.verb && now.contentLength == was.contentLength
  }

  lemma FieldStepKeeps(ps: Parser, c: Byte)
    ensures FieldStep(ps, c).Some? ==> SameRequest(ps, FieldStep(ps, c).value)
  {
    hide MatchState, CONNECTION, PROXY_CONNECTION, CONTENT_LENGTH, TRANSFER_ENCODING, UPGRADE;
  }

  lemma FirstNameByte(ps: Parser, t: Trace, ch: Byte)
    requires Valid(ps) && ps.state.HeaderFieldStart? && ps.nread < MAX_HEADER_SIZE && IsToken(ch)
    ensures var s := Step(ps, t, ch);
            && s.outcome.Going? && s.ps.state.HeaderField? && s.ps.nread == ps.nread + 1
            && Means(s.ps.hstate, s.ps.index, [Token(ch)]) && s.ps.usesTe == ps.usesTe && SameRequest(ps, s.ps)
  {
    hide FlushAll, Play, StateInv, Means, Token;
    FirstByteMeans(Token(ch));
    TokenIsNoLineEnd(ch);
  }

  lemma TokenIsNoLineEnd(ch: Byte)
    requires IsToken(ch)
    ensures ch != CR && ch != LF && ch != ':'
  {
  }

  lemma FirstByteMeans(c: Byte)
    ensures c == 'c' ==> Means(MatchC, 0, [c])
    ensures c == 'p' ==> Means(MatchingProxyConnection, 0, [c])
    ensures c == 't' ==> Means(MatchingTransferEncoding, 0, [c])
    ensures c == 'u' ==> Means(MatchingUpgrade, 0, [c])
    ensures c != 'c' && c != 'p' && c != 't' && c != 'u' ==> Means(General, 0, [c])
  {
    FirstLetters();
    assert CONNECTION[..4][0] == 'c' && CONTENT_LENGTH[..4][0] == 'c';
    assert [c][0] == c;
  }

  lemma NextNameByte(ps: Parser, t: Trace, ch: Byte)
    requires Valid(ps) && ps.state.HeaderField? && ps.nread < MAX_HEADER_SIZE && IsToken(ch)
    ensures FieldStep(ps, Token(ch)).Some?
    ensures var s := Step(ps, t, ch);
            s.outcome.Going? && s.ps == FieldStep(ps, Token(ch)).value.(nread := ps.nread + 1)
  {
    hide FlushAll, Play, Token, FieldStep, MethodState, ValueState;
    FieldStepOk(ps, Token(ch));
    FieldStepIgnoresCount(ps, Token(ch), ps.nread + 1);
  }

  /** Where the matcher stands after a name that began at `was`, and what it has noted. */
  predicate AfterName(was: Parser, ps: Parser, nread: nat, l: string) {
    && ps.state.HeaderField? && ps.nread == nread
    && Means(ps.hstate, ps.index, l)
    && (ps.usesTe <==> was.usesTe || TRANSFER_ENCODING <= l)
    && SameRequest(was, ps)
  }

  lemma {:induction false} NameRun(ps: Parser, t: Trace, w: seq<Byte>)
    requires Valid(ps) && ps.state.HeaderFieldStart? && w != [] && forall i :: 0 <= i < |w| ==> IsToken(w[i])
    requires ps.nread + |w| <= MAX_HEADER_SIZE
    ensures var r := Run(ps, t, w);
            r.outcome.Going? && AfterName(ps, r.ps, ps.nread + |w|, Tokens(w))
    decreases |w|
  {
    hide Run, Step, StateInv, IsToken, Token, Means, FieldStep, TRANSFER_ENCODING;
    FirstLetters();
    var u, c := w[..|w| - 1], w[|w| - 1];
    assert w == u + [c];
    if u == [] {
      assert w == [c] && Tokens(w) == [Token(c)];
      FirstNameByte(ps, t, c);
      RunOne(ps, t, c);
    } else {
      NameRun(ps, t, u);
      RunOk(ps, t, u);
      RunConcat(ps, t, u, [c]);
      var r := Run(ps, t, u);
      NextNameByte(r.ps, r.trace, c);
      RunOne(r.ps, r.trace, c);
      FieldStepMeans(r.ps, Tokens(u), Token(c));
      FieldStepState(r.ps, Token(c));
      FieldStepKeeps(r.ps, Token(c));
      PrefixSnoc(TRANSFER_ENCODING, Tokens(u), Token(c));
    }
  }

  lemma PrefixSnoc(name: string, l: string, c: char)
    ensures name <= l + [c] <==> name <= l || name == l + [c]
  {
    if |name| == |l| + 1 { assert name <= l + [c] ==> name == l + [c]; }
  }

  /** A header name is recognised exactly when it is one of the names looked for, in any case of letters.
      The note of a transfer encoding is taken more often: from every name that begins with it. */
  lemma HeaderNameRecognised(ps: Parser, t: Trace, w: seq<Byte>)
    requires Valid(ps) && ps.state.HeaderFieldStart? && w != [] && forall i :: 0 <= i < |w| ==> IsToken(w[i])
    requires ps.nread + |w| <= MAX_HEADER_SIZE
    ensures var r := Run(ps, t, w);
            && r.outcome.Going? && r.ps.state.HeaderField?
            && (r.ps.hstate.ContentLength? <==> Tokens(w) == CONTENT_LENGTH)
            && (r.ps.hstate.TransferEncoding? <==> Tokens(w) == TRANSFER_ENCODING)
            && (r.ps.hstate.Upgrade? <==> Tokens(w) == UPGRADE)
            && (r.ps.hstate.Connection? <==> Tokens(w) == CONNECTION || Tokens(w) == PROXY_CONNECTION)
            && (r.ps.usesTe <==> ps.usesTe || TRANSFER_ENCODING <= Tokens(w))
            && r.ps.nread == ps.nread + |w| && SameRequest(ps, r.ps)
  {
    hide Run, StateInv, Tokens, CONNECTION, PROXY_CONNECTION, CONTENT_LENGTH, TRANSFER_ENCODING, UPGRADE;
    NameRun(ps, t, w);
    var r := Run(ps, t, w);
    MeansDecides(r.ps.hstate, r.ps.index, Tokens(w));
  }

  lemma MeansDecides(h: HState, index: nat, l: string)
    requires Means(h, index, l)
    ensures h.ContentLength? <==> l == CONTENT_LENGTH
    ensures h.TransferEncoding? <==> l == TRANSFER_ENCODING
    ensures h.Upgrade? <==> l == UPGRADE
    ensures h.Connection? <==> l == CONNECTION || l == PROXY_CONNECTION
  {
    hide CONNECTION, PROXY_CONNECTION, CONTENT_LENGTH, TRANSFER_ENCODING, UPGRADE;
    FirstLetters();
    assert CONNECTION[0] == CONNECTION[..4][0] && CONNECTION[3] == CONNECTION[..4][3];
    assert CONTENT_LENGTH[0] == CONTENT_LENGTH[..4][0] && CONTENT_LENGTH[3] == CONTENT_LENGTH[..4][3];
    assert |l| > 3 ==> l[0] == l[0] && l[3] == l[3];
  }

  const LONGER_NAME: seq<Byte> := "Transfer-Encoding-X"

  lemma ReadLongerName()
    ensures TRANSFER_ENCODING <= Tokens(LONGER_NAME) && Tokens(LONGER_NAME) != TRANSFER_ENCODING
    ensures |LONGER_NAME| == 19 && forall i :: 0 <= i < 19 ==> IsToken(LONGER_NAME[i])
  {
    hide Token;
    TokensAt(LONGER_NAME);
    Capitals();
    forall i | 0 <= i < 19 && i != 0 && i != 9 && i != 18 ensures Token(LONGER_NAME[i]) == LONGER_NAME[i] {
      SmallLetter(LONGER_NAME[i]);
    }
  }

  lemma Capitals()
    ensures Token('T') == 't' && Token('E') == 'e' && Token('X') == 'x'
  {
  }

  lemma SmallLetter(c: Byte)
    requires 'a' <= c <= 'z' || c == '-'
    ensures Token(c) == c
  {
  }

  /** The header Transfer-Encoding-X is taken for no header that is looked for, and yet for a use of
      Transfer-Encoding. */
  lemma TransferEncodingNotedTooOften(ps: Parser, t: Trace)
    requires Valid(ps) && ps.state.HeaderFieldStart? && ps.nread + 19 <= MAX_HEADER_SIZE
    ensures var r := Run(ps, t, LONGER_NAME);
            r.outcome.Going? && r.ps.usesTe && !r.ps.hstate.TransferEncoding?
  {
    hide Run, Valid, Tokens, IsToken, LONGER_NAME, TRANSFER_ENCODING;
    ReadLongerName();
    HeaderNameRecognised(ps, t, LONGER_NAME);
  }

  lemma {:induction false} TokensAt(w: seq<Byte>)
    ensures forall i :: 0 <= i < |w| ==> Tokens(w)[i] == Token(w[i])
  {
    if w != [] { TokensAt(w[..|w| - 1]); }
  }

  // ---------------------------------------------------------------- methods

  /** The matcher's guess after the bytes `w`, None once no method fits. */
  function GuessAfter(w: seq<Byte>): Option<Method>
    decreases |w|
  {
    if w == [] then None
    else if |w| == 1 then FirstGuess(w[0])
    else
      match GuessAfter(w[..|w| - 1])
      case None => None
      case Some(m) => NextGuess(m, |w| - 1, w[|w| - 1])
  }

  function NextGuess(m: Method, i: nat, c: Byte): Option<Method> {
    if i < |MethodString(m)| && c == MethodString(m)[i] then Some(m) else SwitchGuess(m, i, c)
  }

  /** Whatever the guess is, it begins with the bytes read. */
  lemma {:induction false} GuessBeginsAsRead(w: seq<Byte>)
    ensures GuessAfter(w).Some? ==> 1 <= |w| && w <= MethodString(GuessAfter(w).value)
    decreases |w|
  {
    hide MethodString, GuessAfter;
    GuessUnfolds(w);
    if |w| == 1 {
      FirstGuessLetter(w[0]);
    } else if |w| > 1 {
      var u, c := w[..|w| - 1], w[|w| - 1];
      GuessBeginsAsRead(u);
      if GuessAfter(w).Some? {
        NextBeginsAsRead(u, c, GuessAfter(u).value);
        assert w == u + [c];
      }
    }
  }

  lemma GuessUnfolds(w: seq<Byte>)
    ensures |w| == 0 ==> GuessAfter(w).None?
    ensures |w| == 1 ==> GuessAfter(w) == FirstGuess(w[0])
    ensures |w| > 1 ==> var u := w[..|w| - 1];
                        GuessAfter(w) == if GuessAfter(u).None? then None
                                         else NextGuess(GuessAfter(u).value, |u|, w[|w| - 1])
  {
    hide MethodString, NextGuess, FirstGuess;
  }

  lemma NextBeginsAsRead(u: seq<Byte>, c: Byte, m: Method)
    requires u <= MethodString(m) && NextGuess(m, |u|, c).Some?
    ensures u + [c] <= MethodString(NextGuess(m, |u|, c).value)
  {
    hide MethodString, SwitchGuess;
    if !(|u| < |MethodString(m)| && c == MethodString(m)[|u|]) { SwitchAgrees(m, |u|, c); }
  }

  lemma FirstGuessLetter(c: Byte)
    ensures FirstGuess(c).Some? ==>
              |MethodString(FirstGuess(c).value)| > 1 && MethodString(FirstGuess(c).value)[0] == c
  {
  }

  /** A switch of guess keeps the bytes read so far and adds the one that caused it. */
  lemma SwitchAgrees(m: Method, i: nat, c: Byte)
    requires SwitchGuess(m, i, c).Some? && i <= |MethodString(m)|
    ensures var n := SwitchGuess(m, i, c).value;
            i < |MethodString(n)| && MethodString(n)[..i] == MethodString(m)[..i] && MethodString(n)[i] == c
  {
    hide MethodString, SwitchGuess;
    if i == 1 { SecondByteAgrees(m, c); } else { LaterByteAgrees(m, i, c); }
  }

  lemma SecondByteAgrees(m: Method, c: Byte)
    requires SwitchGuess(m, 1, c).Some? && 1 <= |MethodString(m)|
    ensures var n := SwitchGuess(m, 1, c).value;
            1 < |MethodString(n)| && MethodString(n)[..1] == MethodString(m)[..1] && MethodString(n)[1] == c
  {
  }

  lemma LaterByteAgrees(m: Method, i: nat, c: Byte)
    requires i != 1 && SwitchGuess(m, i, c).Some? && i <= |MethodString(m)|
    ensures var n := SwitchGuess(m, i, c).value;
            i < |MethodString(n)| && MethodString(n)[..i] == MethodString(m)[..i] && MethodString(n)[i] == c
  {
  }

  /** Once the guess is the method that is being read, it stays. */
  lemma {:induction false} GuessSettles(m: Method, k: nat, n: nat)
    requires 1 <= k <= n <= |MethodString(m)| && GuessAfter(MethodString(m)[..k]) == Some(m)
    ensures GuessAfter(MethodString(m)[..n]) == Some(m)
    decreases n
  {
    hide MethodString;
    if k < n {
      GuessSettles(m, k, n - 1);
      assert MethodString(m)[..n][..n - 1] == MethodString(m)[..n - 1];
    }
  }

  /** The bytes after which the guess is right: one for the first guess of a letter, up to five else. */
  function Settled(m: Method): nat {
    match m
    case PUT | PATCH | PROPFIND | CHECKOUT | MOVE | MERGE | MSEARCH | SEARCH | SOURCE | LINK => 2
    case PURGE | COPY | MKACTIVITY | REBIND | UNSUBSCRIBE | UNBIND => 3
    case MKCALENDAR | UNLINK => 4
    case PROPPATCH => 5
    case _ => 1
  }

  lemma GuessOne(m: Method)
    ensures Settled(m) == 1 ==> GuessAfter(MethodString(m)[..1]) == Some(m)
    ensures 1 <= Settled(m) <= |MethodString(m)|
  {
  }

  lemma GuessTwo(w: seq<Byte>)
    requires |w| == 2 && FirstGuess(w[0]).Some?
    ensures GuessAfter(w) == NextGuess(FirstGuess(w[0]).value, 1, w[1])
  {
    hide MethodString, FirstGuess, SwitchGuess;
    assert w[..1] == [w[0]];
  }

  lemma GuessTwos(m: Method)
    requires Settled(m) == 2
    ensures GuessAfter(MethodString(m)[..2]) == Some(m)
  {
    hide GuessAfter;
    GuessTwo(MethodString(m)[..2]);
  }

  lemma GuessPrefix(w: seq<Byte>, u: seq<Byte>, c: Byte, m: Method)
    requires w == u + [c] && u != [] && GuessAfter(u) == Some(m)
    ensures GuessAfter(w) == NextGuess(m, |u|, c)
  {
    hide MethodString, FirstGuess, SwitchGuess;
    assert w[..|w| - 1] == u;
  }

  lemma GuessThrees(m: Method)
    requires Settled(m) == 3
    ensures GuessAfter(MethodString(m)[..3]) == Some(m)
  {
    hide GuessAfter;
    var w := MethodString(m)[..3];
    GuessTwo(w[..2]);
    GuessPrefix(w, w[..2], w[2], if m.PURGE? then PUT else FirstGuess(w[0]).value);
  }

  lemma GuessFours(m: Method)
    requires m.MKCALENDAR? || m.UNLINK?
    ensures GuessAfter(MethodString(m)[..4]) == Some(m)
  {
    hide GuessAfter;
    var w := MethodString(m)[..4];
    GuessTwo(w[..2]);
    var g := FirstGuess(w[0]).value;
    GuessPrefix(w[..3], w[..2], w[2], g);
    GuessPrefix(w, w[..3], w[3], g);
  }

  lemma GuessProppatch()
    ensures GuessAfter(MethodString(PROPPATCH)[..5]) == Some(PROPPATCH)
  {
    hide GuessAfter;
    var w := MethodString(PROPPATCH)[..5];
    GuessTwo(w[..2]);
    GuessPrefix(w[..3], w[..2], w[2], PROPFIND);
    GuessPrefix(w[..4], w[..3], w[3], PROPFIND);
    GuessPrefix(w, w[..4], w[4], PROPFIND);
  }

  /** Every method is found from its name. */
  lemma EveryMethodGuessed(m: Method)
    ensures GuessAfter(MethodString(m)) == Some(m)
  {
    hide GuessAfter, MethodString;
    GuessOne(m);
    match Settled(m) {
      case 1 =>
      case 2 => GuessTwos(m);
      case 3 => GuessThrees(m);
      case 4 => GuessFours(m);
      case _ => GuessProppatch();
    }
    var n := |MethodString(m)|;
    GuessSettles(m, Settled(m), n);
    assert MethodString(m)[..n] == MethodString(m);
  }

  /** The parser inside a method, after the bytes `w`. */
  predicate AtMethod(ps: Parser, nread: nat, w: seq<Byte>) {
    ps.state.ReqMethod? && ps.nread == nread && ps.index == |w| && GuessAfter(w) == Some(ps.verb)
  }

  lemma FirstMethodByte(ps: Parser, t: Trace, ch: Byte)
    requires Valid(ps) && ps.state.StartReq? && ps.nread < MAX_HEADER_SIZE && ch != CR && ch != LF
    ensures var s := Step(ps, t, ch);
            if FirstGuess(ch).Some? then s.outcome.Going? && AtMethod(s.ps, ps.nread + 1, [ch]) else s.outcome.Failed?
  {
    hide FlushAll, Play, StateInv, FirstGuess;
  }

  lemma SwitchIsUpper(m: Method, i: nat, c: Byte)
    requires SwitchGuess(m, i, c).Some?
    ensures 'A' <= c <= 'Z' || c == '-'
  {
  }

  lemma MethodBytes(m: Method, i: nat)
    requires i < |MethodString(m)|
    ensures MethodString(m)[i] != '\0' && MethodString(m)[i] != ' '
  {
    hide MethodString;
    var n := |MethodString(m)|;
    if n <= 5 { ShortBytes(m, i); } else if n <= 7 { MiddleBytes(m, i); } else { LongBytes(m, i); }
  }

  lemma ShortBytes(m: Method, i: nat)
    requires i < |MethodString(m)| <= 5
    ensures MethodString(m)[i] != '\0' && MethodString(m)[i] != ' '
  {
  }

  lemma MiddleBytes(m: Method, i: nat)
    requires i < |MethodString(m)| && 5 < |MethodString(m)| <= 7
    ensures MethodString(m)[i] != '\0' && MethodString(m)[i] != ' '
  {
  }

  lemma LongBytes(m: Method, i: nat)
    requires i < |MethodString(m)| && 7 < |MethodString(m)|
    ensures MethodString(m)[i] != '\0' && MethodString(m)[i] != ' '
  {
  }

  lemma NextMethodByte(ps: Parser, t: Trace, w: seq<Byte>, ch: Byte)
    requires Valid(ps) && AtMethod(ps, ps.nread, w) && w != [] && ps.nread < MAX_HEADER_SIZE && ch != ' '
    ensures var s := Step(ps, t, ch);
            if GuessAfter(w + [ch]).Some? then s.outcome.Going? && AtMethod(s.ps, ps.nread + 1, w + [ch])
            else s.outcome.Failed?
  {
    hide FlushAll, Play, NameState, ValueState, MethodString, SwitchGuess, GuessAfter;
    GuessPrefix(w + [ch], w, ch, ps.verb);
    MethodLengths(ps.verb);
    if SwitchGuess(ps.verb, |w|, ch).Some? { SwitchIsUpper(ps.verb, |w|, ch); }
    if |w| < |MethodString(ps.verb)| { MethodBytes(ps.verb, |w|); }
  }

  lemma MethodEnds(ps: Parser, t: Trace, w: seq<Byte>)
    requires Valid(ps) && AtMethod(ps, ps.nread, w) && ps.nread < MAX_HEADER_SIZE
    ensures var s := Step(ps, t, ' ');
            if |w| == |MethodString(ps.verb)|
            then s.outcome.Going? && s.ps.state.ReqSpacesBeforeUrl? && s.ps.verb == ps.verb
            else s.outcome.Failed?
  {
    hide FlushAll, Play, NameState, ValueState, MethodString, SwitchGuess, GuessAfter;
    if SwitchGuess(ps.verb, |w|, ' ').Some? { SwitchIsUpper(ps.verb, |w|, ' '); }
    if |w| < |MethodString(ps.verb)| { MethodBytes(ps.verb, |w|); }
  }

  lemma {:induction false} MethodRun(ps: Parser, t: Trace, w: seq<Byte>)
    requires Valid(ps) && ps.state.StartReq? && w != [] && w[0] != CR && w[0] != LF
    requires (forall i :: 0 <= i < |w| ==> w[i] != ' ') && ps.nread + |w| <= MAX_HEADER_SIZE
    ensures var r := Run(ps, t, w);
            if GuessAfter(w).Some? then r.outcome.Going? && AtMethod(r.ps, ps.nread + |w|, w) else r.outcome.Failed?
    decreases |w|
  {
    hide Run, Step, StateInv, FirstGuess, MethodString, SwitchGuess;
    var u, c := w[..|w| - 1], w[|w| - 1];
    assert w == u + [c];
    if u == [] {
      assert w == [c];
      FirstMethodByte(ps, t, c);
      RunOne(ps, t, c);
    } else {
      MethodRun(ps, t, u);
      RunOk(ps, t, u);
      RunConcat(ps, t, u, [c]);
      var r := Run(ps, t, u);
      if r.outcome.Going? {
        NextMethodByte(r.ps, r.trace, u, c);
        RunOne(r.ps, r.trace, c);
      }
    }
  }

  /** A method is accepted exactly when it is spelled as one of the known names, and it is that one. */
  lemma MethodRecognised(ps: Parser, t: Trace, w: seq<Byte>)
    requires Valid(ps) && ps.state.StartReq? && w != [] && w[0] != CR && w[0] != LF
    requires (forall i :: 0 <= i < |w| ==> w[i] != ' ') && ps.nread + |w| < MAX_HEADER_SIZE
    ensures var r := Run(ps, t, w + [' ']);
            && (r.outcome.Going? <==> exists m: Method :: w == MethodString(m))
            && (r.outcome.Going? ==> r.ps.state.ReqSpacesBeforeUrl? && w == MethodString(r.ps.verb))
  {
    hide Run, Step, StateInv, GuessAfter, MethodString;
    MethodRun(ps, t, w);
    RunOk(ps, t, w);
    RunConcat(ps, t, w, [' ']);
    var r := Run(ps, t, w);
    if r.outcome.Going? {
      MethodEnds(r.ps, r.trace, w);
      RunOne(r.ps, r.trace, ' ');
      GuessBeginsAsRead(w);
    }
    if m: Method :| w == MethodString(m) { EveryMethodGuessed(m); }
  }
}
