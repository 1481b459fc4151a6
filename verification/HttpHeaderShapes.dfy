// What an accepted header block must look like, and which Content-Length it can hold.

module HttpHeaderShapes {
  import opened Words
  import opened Digits
  import opened HttpChars
  import opened HttpParser
  import opened HttpInvariant
  import opened HttpRun
  import opened HttpSteps
  import opened HttpNames
  import opened HttpNumbers
  import opened HttpElements
  import opened HttpLines
  import opened HttpFields
  import opened HttpHeaders
  import opened HttpShapes

  // ---------------------------------------------------------------- the name

  lemma NameFlow(ps: Parser, ch: Byte)
    requires ps.state.HeaderField? && NameState(ps.hstate, ps.index) && ps.index < 32 && !Dispatch(ps, ch).Fail?
    ensures var d := Dispatch(ps, ch);
            && d.Next? && d.ps.nread == ps.nread
            && (if ch == ':' then d.ps.state.HeaderValueDiscardWs? else IsToken(ch) && d.ps.state.HeaderField?)
  {
    if IsToken(ch) {
      TokenIsNoLineEnd(ch);
      NameTurn(ps, ch);
    } else {
      NoTokenFlow(ps, ch);
    }
  }

  lemma NoTokenFlow(ps: Parser, ch: Byte)
    requires ps.state.HeaderField? && !IsToken(ch) && !Dispatch(ps, ch).Fail?
    ensures ch == ':' && Dispatch(ps, ch) == Next(ps.(state := HeaderValueDiscardWs), [Flush(FieldData)])
  {
    hide Token;
  }

  /** A header name goes up to a colon. */
  lemma {:induction false} NameRest(ps: Parser, t: Trace, data: seq<Byte>) returns (w: seq<Byte>, rest: seq<Byte>)
    requires Valid(ps) && ps.state.HeaderField? && Complete(ps, t, data)
    ensures data == w + [':'] + rest && (forall i :: 0 <= i < |w| ==> IsToken(w[i]))
    ensures ps.nread + |w| < MAX_HEADER_SIZE
    decreases |data|
  {
    hide Valid, Step, Complete, Dispatch, NameState, IsToken;
    InName(ps);
    FirstTaken(ps, t, data);
    TurnTaken(ps, t, data[0]);
    NameFlow(ps.(nread := ps.nread + 1), data[0]);
    assert data == [data[0]] + data[1..];
    if data[0] == ':' {
      w, rest := [], data[1..];
    } else {
      var q, u := Peel(ps, t, data);
      var v;
      v, rest := NameRest(q, u, data[1..]);
      w := [data[0]] + v;
    }
  }

  lemma NameShape(ps: Parser, t: Trace, data: seq<Byte>) returns (w: seq<Byte>, rest: seq<Byte>)
    requires Valid(ps) && ps.state.HeaderFieldStart? && Complete(ps, t, data) && data != []
    requires data[0] != CR && data[0] != LF
    ensures data == w + [':'] + rest && w != [] && (forall i :: 0 <= i < |w| ==> IsToken(w[i]))
    ensures ps.nread + |w| < MAX_HEADER_SIZE
  {
    hide Valid, Step, Complete, Dispatch, IsToken;
    FirstTaken(ps, t, data);
    TurnTaken(ps, t, data[0]);
    FieldStartFlow(ps.(nread := ps.nread + 1), data[0]);
    NameFirstTurn(ps.(nread := ps.nread + 1), data[0]);
    var q, u := Peel(ps, t, data);
    var v;
    v, rest := NameRest(q, u, data[1..]);
    w := [data[0]] + v;
    assert data == [data[0]] + data[1..];
  }

  lemma FieldStartFlow(ps: Parser, ch: Byte)
    requires ps.state.HeaderFieldStart? && ch != CR && ch != LF && !Dispatch(ps, ch).Fail?
    ensures IsToken(ch)
  {
    hide Token;
  }

  // ---------------------------------------------------------------- blanks and folds before the value

  lemma {:induction false} SentCons(x: Sign, s: seq<Sign>)
    ensures Sent([x] + s) == SentAs(x) + Sent(s)
    decreases |s|
  {
    hide SentAs;
    if s == [] {
      FoldedSnoc([], x);
      assert [] + [x] == [x] && [x] + s == [x] && [] + SentAs(x) == SentAs(x);
    } else {
      var r, y := s[..|s| - 1], s[|s| - 1];
      SentCons(x, r);
      FoldedSnoc([x] + r, y);
      assert [x] + s == [x] + r + [y];
      assert SentAs(x) + Sent(r) + SentAs(y) == SentAs(x) + (Sent(r) + SentAs(y));
    }
  }

  lemma SentNothing()
    ensures Sent([]) == []
  {
  }

  /** Behind `n` bytes of a line. */
  predicate Later(ps: Parser, q: Parser, u: Trace, n: nat, rest: seq<Byte>) {
    Valid(q) && q.nread == ps.nread + n && Complete(q, u, rest)
  }

  lemma StrictLines(ps: Parser)
    ensures ps.state.HeaderValueDiscardWsAlmostDone? ==> WantsOnly(ps, LF, HeaderValueDiscardLws)
    ensures ps.state.HeaderAlmostDone? ==> WantsOnly(ps, LF, HeaderValueLws)
  {
  }

  /** A line end before the value. */
  lemma EarlyEolShape(ps: Parser, t: Trace, data: seq<Byte>)
    returns (eol: seq<Byte>, q: Parser, u: Trace, rest: seq<Byte>)
    requires Valid(ps) && ps.state.HeaderValueDiscardWs? && Complete(ps, t, data) && data != []
    requires data[0] == CR || data[0] == LF
    ensures data == eol + rest && IsEol(eol) && q.state.HeaderValueDiscardLws? && Later(ps, q, u, |eol|, rest)
    ensures rest != []
  {
    hide Valid, Step, Complete, WantsOnly, Dispatch;
    FirstTaken(ps, t, data);
    TurnTaken(ps, t, data[0]);
    PadTurns(ps.(nread := ps.nread + 1), ' ');
    assert data == [data[0]] + data[1..];
    q, u := Peel(ps, t, data);
    eol, rest := [LF], data[1..];
    if data[0] == CR {
      StrictLines(q);
      q, u := Wanted(q, u, data[1..], LF, HeaderValueDiscardLws);
      eol, rest := CRLF, data[1..][1..];
    }
    FirstTaken(q, u, rest);
  }

  /** The line end that follows if a line has no value. */
  predicate EndsLine(eol: seq<Byte>, rest: seq<Byte>) {
    IsEol(eol) && eol <= rest && |eol| < |rest| && !IsBlank(rest[|eol|])
  }

  lemma BlankPeel(ps: Parser, t: Trace, data: seq<Byte>) returns (q: Parser, u: Trace)
    requires Valid(ps) && (ps.state.HeaderValueDiscardWs? || ps.state.HeaderValueDiscardLws?) && Complete(ps, t, data)
    requires data != [] && IsBlank(data[0])
    ensures q.state.HeaderValueDiscardWs? && Later(ps, q, u, 1, data[1..])
  {
    hide Valid, Step, Complete, Dispatch;
    FirstTaken(ps, t, data);
    TurnTaken(ps, t, data[0]);
    PadTurns(ps.(nread := ps.nread + 1), data[0]);
    q, u := Peel(ps, t, data);
  }

  /** The blanks and folds behind a colon, up to the value or to the line end of an empty one. */
  lemma {:induction false} PadShape(ps: Parser, t: Trace, data: seq<Byte>)
    returns (pad: seq<Sign>, eol: seq<Byte>, rest: seq<Byte>)
    requires Valid(ps) && ps.state.HeaderValueDiscardWs? && Complete(ps, t, data)
    ensures data == Sent(pad) + rest && AllBlank(pad) && ps.nread + |Sent(pad) + eol| <= MAX_HEADER_SIZE
    ensures rest != [] && if eol == [] then !IsBlank(rest[0]) && rest[0] != CR && rest[0] != LF else EndsLine(eol, rest)
    decreases |data|
  {
    hide Valid, Step, Complete, Dispatch, Sent, IsEol;
    FirstTaken(ps, t, data);
    TurnTaken(ps, t, data[0]);
    SentNothing();
    if IsBlank(data[0]) {
      var q, u := BlankPeel(ps, t, data);
      var more;
      more, eol, rest := PadShape(q, u, data[1..]);
      pad := PadOne(Char(data[0]), more);
      assert data == [data[0]] + (Sent(more) + rest);
      assert Sent(pad) + eol == [data[0]] + (Sent(more) + eol);
    } else if data[0] == CR || data[0] == LF {
      var end, q, u, a := EarlyEolShape(ps, t, data);
      CountLimit(q);
      EolThere(end);
      if IsBlank(a[0]) {
        var p, v := BlankPeel(q, u, a);
        var more;
        more, eol, rest := PadShape(p, v, a[1..]);
        pad := PadOne(Fold(end, a[0]), more);
        assert data == end + [a[0]] + (Sent(more) + rest);
        assert Sent(pad) + eol == end + [a[0]] + (Sent(more) + eol);
      } else {
        pad, eol, rest := [], end, data;
      }
    } else {
      pad, eol, rest := [], [], data;
    }
  }

  lemma EolThere(eol: seq<Byte>)
    requires IsEol(eol)
    ensures 1 <= |eol| <= 2 && (eol[0] == CR || eol[0] == LF)
  {
  }

  lemma PadOne(x: Sign, more: seq<Sign>) returns (pad: seq<Sign>)
    requires AllBlank(more) && if x.Char? then IsBlank(x.c) else IsEol(x.eol) && IsBlank(x.blank)
    ensures pad == [x] + more && AllBlank(pad) && Sent(pad) == SentAs(x) + Sent(more)
  {
    pad := [x] + more;
    SentCons(x, more);
    hide IsEol;
  }

  // ---------------------------------------------------------------- the value

  /** A step to a known parser, off the front of the input. */
  lemma StepOff(ps: Parser, t: Trace, data: seq<Byte>, q: Parser) returns (u: Trace)
    requires Valid(ps) && Complete(ps, t, data) && data != []
    requires Step(ps, t, data[0]).outcome.Going? && Step(ps, t, data[0]).ps == q
    ensures Valid(q) && Complete(q, u, data[1..])
  {
    hide Valid, Step, Complete, Run;
    RunOne(ps, t, data[0]);
    StepOk(ps, t, data[0]);
    assert data == [data[0]] + data[1..];
    CompleteRest(ps, t, [data[0]], data[1..]);
    u := Step(ps, t, data[0]).trace;
  }

  /** A line end inside a value. */
  lemma ValueEolShape(ps: Parser, t: Trace, data: seq<Byte>)
    returns (eol: seq<Byte>, q: Parser, u: Trace, rest: seq<Byte>)
    requires Valid(ps) && ps.state.HeaderValue? && Complete(ps, t, data) && data != []
    requires data[0] == CR || data[0] == LF
    ensures data == eol + rest && IsEol(eol) && q.state.HeaderValueLws? && Later(ps, q, u, |eol|, rest)
    ensures rest != []
  {
    hide Valid, Step, Complete, WantsOnly, Dispatch;
    FirstTaken(ps, t, data);
    TurnTaken(ps, t, data[0]);
    ValueLineEnd(ps, t, data[0]);
    assert data == [data[0]] + data[1..];
    q := Step(ps, t, data[0]).ps;
    u := StepOff(ps, t, data, q);
    eol, rest := [LF], data[1..];
    if data[0] == CR {
      StrictLines(q);
      q, u := Wanted(q, u, data[1..], LF, HeaderValueLws);
      eol, rest := CRLF, data[1..][1..];
    }
    FirstTaken(q, u, rest);
  }

  lemma FoldPeel(ps: Parser, t: Trace, data: seq<Byte>) returns (q: Parser, u: Trace)
    requires Valid(ps) && ps.state.HeaderValueLws? && Complete(ps, t, data) && data != [] && IsBlank(data[0])
    ensures q.state.HeaderValue? && Later(ps, q, u, 1, data[1..])
  {
    hide Valid, Step, Complete, Chain, Dispatch, ValueState;
    FirstTaken(ps, t, data);
    TurnTaken(ps, t, data[0]);
    BehindValue(ps);
    var counted := ps.(nread := ps.nread + 1);
    FoldTurns(counted, data[0]);
    var d := Dispatch(counted, data[0]);
    var e := Dispatch(d.ps, data[0]);
    ChainTwice(counted, data[0], d.ps, d.acts, e.ps, e.acts);
    HeaderStep(ps, t, data[0], e.ps, d.acts + e.acts);
    q := e.ps;
    u := StepOff(ps, t, data, q);
  }

  lemma ValueFlow(ps: Parser, ch: Byte)
    requires ps.state.HeaderValue? && ch != CR && ch != LF && ValueChange(ps, ps) && !Dispatch(ps, ch).Fail?
    ensures IsHeaderChar(ch) && Dispatch(ps, ch).Next? && Dispatch(ps, ch).ps.state.HeaderValue?
    ensures Dispatch(ps, ch).ps.nread == ps.nread
  {
    ValueIsDispatched(ps, ch);
    ValueTurn(ps, ch);
    hide ValueStep, ValueChange, Dispatch, IsHeaderChar;
  }

  lemma ValuePeel(ps: Parser, t: Trace, data: seq<Byte>) returns (q: Parser, u: Trace)
    requires Valid(ps) && ps.state.HeaderValue? && Complete(ps, t, data) && data != [] && data[0] != CR && data[0] != LF
    ensures q.state.HeaderValue? && Later(ps, q, u, 1, data[1..]) && IsSign(Char(data[0]))
  {
    hide Valid, Step, Complete, Dispatch, ValueChange, IsHeaderChar;
    FirstTaken(ps, t, data);
    TurnTaken(ps, t, data[0]);
    InValue(ps);
    ChangeIgnoresCount(ps, ps.nread + 1);
    ValueFlow(ps.(nread := ps.nread + 1), data[0]);
    q, u := Peel(ps, t, data);
  }

  predicate AllSigns(s: seq<Sign>) { forall i :: 0 <= i < |s| ==> IsSign(s[i]) }

  lemma SignOne(x: Sign, more: seq<Sign>) returns (s: seq<Sign>)
    requires AllSigns(more) && IsSign(x)
    ensures s == [x] + more && AllSigns(s) && Sent(s) == SentAs(x) + Sent(more)
  {
    s := [x] + more;
    SentCons(x, more);
    hide IsSign;
  }

  /** A value goes up to a line end that no blank follows. */
  lemma {:induction false} ValueRest(ps: Parser, t: Trace, data: seq<Byte>)
    returns (s: seq<Sign>, eol: seq<Byte>, rest: seq<Byte>)
    requires Valid(ps) && ps.state.HeaderValue? && Complete(ps, t, data)
    ensures data == Sent(s) + rest && AllSigns(s) && ps.nread + |Sent(s) + eol| <= MAX_HEADER_SIZE
    ensures EndsLine(eol, rest)
    decreases |data|
  {
    hide Valid, Step, Complete, Dispatch, Sent, IsEol, IsHeaderChar;
    FirstTaken(ps, t, data);
    SentNothing();
    if data[0] == CR || data[0] == LF {
      var end, q, u, a := ValueEolShape(ps, t, data);
      CountLimit(q);
      EolThere(end);
      if IsBlank(a[0]) {
        var p, v := FoldPeel(q, u, a);
        var more;
        more, eol, rest := ValueRest(p, v, a[1..]);
        s := SignOne(Fold(end, a[0]), more);
        assert data == end + [a[0]] + (Sent(more) + rest);
        assert Sent(s) + eol == end + [a[0]] + (Sent(more) + eol);
      } else {
        s, eol, rest := [], end, data;
      }
    } else {
      var q, u := ValuePeel(ps, t, data);
      var more;
      more, eol, rest := ValueRest(q, u, data[1..]);
      s := SignOne(Char(data[0]), more);
      assert data == [data[0]] + (Sent(more) + rest);
      assert Sent(s) + eol == [data[0]] + (Sent(more) + eol);
    }
  }

  lemma ValueShape(ps: Parser, t: Trace, data: seq<Byte>)
    returns (s: seq<Sign>, eol: seq<Byte>, rest: seq<Byte>)
    requires Valid(ps) && ps.state.HeaderValueDiscardWs? && Complete(ps, t, data) && data != []
    requires !IsBlank(data[0]) && data[0] != CR && data[0] != LF
    ensures data == Sent(s) + rest && IsValue(s) && ps.nread + |Sent(s) + eol| <= MAX_HEADER_SIZE
    ensures EndsLine(eol, rest)
  {
    hide Valid, Step, Complete, Dispatch, Sent, IsEol, IsSign, NameState;
    FirstTaken(ps, t, data);
    TurnTaken(ps, t, data[0]);
    BeforeValue(ps);
    ValueFirstTurn(ps.(nread := ps.nread + 1), data[0]);
    var q, u := Peel(ps, t, data);
    var more;
    more, eol, rest := ValueRest(q, u, data[1..]);
    s := [Char(data[0])] + more;
    SentCons(Char(data[0]), more);
    assert data == [data[0]] + (Sent(more) + rest);
    assert Sent(s) + eol == [data[0]] + (Sent(more) + eol);
  }

  // ---------------------------------------------------------------- a header line

  /** The value, or none, and the line end behind a colon. */
  lemma BehindColon(ps: Parser, t: Trace, data: seq<Byte>)
    returns (pad: seq<Sign>, s: seq<Sign>, eol: seq<Byte>, rest: seq<Byte>)
    requires Valid(ps) && ps.state.HeaderValueDiscardWs? && Complete(ps, t, data)
    ensures AllBlank(pad) && (s == [] || IsValue(s)) && IsEol(eol) && rest != [] && !IsBlank(rest[0])
    ensures var w := Sent(pad) + Sent(s) + eol;
            data == w + rest && ps.nread + |w| <= MAX_HEADER_SIZE
  {
    hide Valid, Run, Complete, Sent, IsEol, AllBlank, IsValue, IsBlank;
    var a;
    SentNothing();
    pad, eol, a := PadShape(ps, t, data);
    if eol == [] {
      PadText(ps, t, pad);
      var p := ps.(nread := ps.nread + |Sent(pad)|);
      RanRest(ps, t, Sent(pad), a, p, t);
      var b;
      s, eol, b := ValueShape(p, t, a);
      rest := b[|eol|..];
      assert b == eol + rest;
      assert data == Sent(pad) + (Sent(s) + (eol + rest));
    } else {
      s, rest := [], a[|eol|..];
      assert a == eol + rest;
      assert data == Sent(pad) + (eol + rest) && Sent(pad) + Sent(s) == Sent(pad);
    }
  }

  /** An accepted header block goes on with a header line, if not with the blank line. */
  lemma LineShape(ps: Parser, t: Trace, data: seq<Byte>) returns (l: HeaderLine, rest: seq<Byte>)
    requires Valid(ps) && ps.state.HeaderFieldStart? && Complete(ps, t, data) && data != []
    requires data[0] != CR && data[0] != LF && !Joins(t, FieldData)
    ensures data == LineText(l) + rest && LineOk(l) && rest != [] && !IsBlank(rest[0])
    ensures ps.nread + |LineText(l)| <= MAX_HEADER_SIZE
  {
    hide Valid, Run, Complete, Sent, IsEol, AllBlank, IsValue, IsBlank, IsToken;
    var w, a := NameShape(ps, t, data);
    var n := NameText(ps, t, w);
    var u := t + [Data(FieldData, w)];
    assert data == w + ([':'] + a);
    RanRest(ps, t, w, [':'] + a, n, u);
    ColonText(n, u);
    var c := n.(state := HeaderValueDiscardWs, nread := n.nread + 1);
    RanRest(n, u, [':'], a, c, u);
    var pad, s, eol, b := BehindColon(c, u, a);
    l, rest := HeaderLine(w, pad, s, eol), b;
    assert data == w + ([':'] + (Sent(pad) + Sent(s) + eol + rest));
    assert LineText(l) == w + ([':'] + (Sent(pad) + Sent(s) + eol));
  }

  // ---------------------------------------------------------------- the Content-Length that is taken

  lemma PrefixGoes(ps: Parser, t: Trace, w: seq<Byte>, rest: seq<Byte>)
    requires Complete(ps, t, w + rest) && rest != []
    ensures Run(ps, t, w).outcome.Going?
  {
    hide Run;
    RunConcat(ps, t, w, rest);
    RunUsed(ps, t, w);
  }

  lemma FirstLengthSign(ps: Parser, t: Trace, s: seq<Sign>)
    requires Valid(ps) && ps.state.HeaderValueDiscardWs? && ps.hstate.ContentLength? && IsValue(s) && |s| == 1
    requires ps.nread < MAX_HEADER_SIZE && Run(ps, t, Sent(s)).outcome.Going?
    ensures IsLengthValue(s) && !ps.flags.contentLength
  {
    hide Run, Valid, Step;
    var c := s[0].c;
    assert s == [Char(c)] && Sent(s) == [c] && Marked(s) == [c] by {
      assert s[..0] == [];
    }
    FirstDigit(ps, t, c);
    RunOne(ps, t, c);
    OneDigitValue(c);
    assert [c][..0] == [];
  }

  /** A further byte of a length is a digit within the guard or a space, and a fold goes anywhere. */
  lemma NextLengthSign(was: Parser, ps: Parser, t: Trace, s: seq<Sign>, x: Sign)
    requires Valid(ps) && InLength(was, ps, s) && IsLengthValue(s) && IsSign(x)
    requires ps.nread + |SentAs(x)| <= MAX_HEADER_SIZE && Run(ps, t, SentAs(x)).outcome.Going?
    ensures IsLengthValue(s + [x])
  {
    hide Run, Valid, Step, Value, Leading, IsHeaderChar, ValueStep;
    FoldedSnoc(s, x);
    var v, c := Marked(s), if x.Char? then x.c else FOLD;
    LeadingSnoc(v, c);
    if x.Char? {
      ValueByte(ps, t, c);
      RunOne(ps, t, c);
      LengthStep(ps, c);
    }
    MoreLength(s, x);
  }

  lemma LengthStep(ps: Parser, c: Byte)
    requires (ps.hstate.ContentLengthNum? || ps.hstate.ContentLengthWs?) && ValueStep(ps, c).Good?
    ensures c == ' ' || (ps.hstate.ContentLengthNum? && IsDigit(c) && ps.contentLength <= DECIMAL_GUARD)
  {
    hide Lower;
  }

  lemma MoreLength(s: seq<Sign>, x: Sign)
    requires IsLengthValue(s)
    requires x.Fold? || x.c == ' ' || (Leading(Marked(s)) == |s| && IsDigit(x.c) && LengthOf(s) <= DECIMAL_GUARD)
    ensures IsLengthValue(s + [x])
  {
    hide IsLengthValue, LengthOf, Marked, Leading;
    if x.Fold? || x.c == ' ' { BlankMore(s, x); } else { DigitMore(s, x); }
  }

  lemma DigitMore(s: seq<Sign>, x: Sign)
    requires IsLengthValue(s) && x.Char? && IsDigit(x.c) && Leading(Marked(s)) == |s| && LengthOf(s) <= DECIMAL_GUARD
    ensures IsLengthValue(s + [x])
  {
    hide Value, Leading, Marked, Sent, SentAs;
    FoldedSnoc(s, x);
    LeadingSnoc(Marked(s), x.c);
    assert (Marked(s) + [x.c])[..|s|] == Marked(s) && Marked(s)[..|s|] == Marked(s);
  }

  lemma BlankMore(s: seq<Sign>, x: Sign)
    requires IsLengthValue(s) && (x.Fold? || x.c == ' ')
    ensures IsLengthValue(s + [x])
  {
    hide Value, Leading, Marked, Sent, SentAs;
    FoldedSnoc(s, x);
    var v, c, n := Marked(s), if x.Char? then x.c else FOLD, Leading(Marked(s));
    LeadingSnoc(v, c);
    assert (v + [c])[..n - 1] == v[..n - 1];
    BlankBehindDigits(s, x, n);
  }

  lemma BlankBehindDigits(s: seq<Sign>, x: Sign, n: nat)
    requires (forall i :: n <= i < |s| ==> s[i].Fold? || s[i].c == ' ') && (x.Fold? || x.c == ' ')
    ensures forall i :: n <= i < |s + [x]| ==> (s + [x])[i].Fold? || (s + [x])[i].c == ' '
  {
  }

  lemma {:induction false} LengthNeeded(ps: Parser, t: Trace, s: seq<Sign>)
    requires Valid(ps) && ps.state.HeaderValueDiscardWs? && ps.hstate.ContentLength? && IsValue(s)
    requires ps.nread + |Sent(s)| <= MAX_HEADER_SIZE && Run(ps, t, Sent(s)).outcome.Going?
    ensures IsLengthValue(s) && !ps.flags.contentLength
    decreases |s|
  {
    hide Run, Valid, IsLengthValue, InLength, IsHeaderChar;
    if |s| == 1 {
      assert s[..0] == [] && Sent(s) == [s[0].c];
      FirstLengthSign(ps, t, s);
    } else {
      var u, x := s[..|s| - 1], s[|s| - 1];
      assert u[0] == s[0] && IsSign(x) && s == u + [x];
      FoldedSnoc(u, x);
      RunConcat(ps, t, Sent(u), SentAs(x));
      LengthNeeded(ps, t, u);
      LengthRun(ps, t, u);
      RunOk(ps, t, Sent(u));
      var r := Run(ps, t, Sent(u));
      InLengthCount(ps, r.ps, u);
      NextLengthSign(ps, r.ps, r.trace, u, x);
    }
  }

  lemma InLengthCount(was: Parser, ps: Parser, s: seq<Sign>)
    requires InLength(was, ps, s)
    ensures ps.nread == was.nread + |Sent(s)|
  {
  }

  lemma EmptyLengthFails(ps: Parser, t: Trace, data: seq<Byte>)
    requires Valid(ps) && ps.state.HeaderValueDiscardLws? && ps.hstate.ContentLength? && data != [] && !IsBlank(data[0])
    ensures !Complete(ps, t, data)
  {
    hide Valid, Step, Run, Complete;
    if Complete(ps, t, data) {
      FirstTaken(ps, t, data);
      TurnTaken(ps, t, data[0]);
      EmptyLengthRefused(ps, t, data[0]);
      RunOne(ps, t, data[0]);
    }
  }

  /** Behind an accepted line, if it is a Content-Length, there is a length, and there was none before. */
  lemma FitsNeeded(ps: Parser, t: Trace, l: HeaderLine, rest: seq<Byte>)
    requires Valid(ps) && ps.state.HeaderFieldStart? && LineOk(l) && !Joins(t, FieldData)
    requires Complete(ps, t, LineText(l) + rest) && rest != [] && !IsBlank(rest[0])
    requires ps.nread + |LineText(l)| <= MAX_HEADER_SIZE
    ensures LineFits(KnownOf(ps), l)
  {
    hide Run, Valid, Complete, LineOk, Tokens, CONTENT_LENGTH, CONNECTION, PROXY_CONNECTION, TRANSFER_ENCODING, UPGRADE,
      IsLengthValue, Sent, IsBlank;
    if Tokens(l.name) == CONTENT_LENGTH {
      var r := NameRead(ps, t, l);
      var w, u := l.name + [':'] + Sent(l.pad), t + [Data(FieldData, l.name)];
      assert LineText(l) + rest == w + (Sent(l.value) + (l.eol + rest));
      RanRest(ps, t, w, Sent(l.value) + (l.eol + rest), r, u);
      LengthFits(r, u, l, rest);
    }
  }

  lemma LengthFits(r: Parser, u: Trace, l: HeaderLine, rest: seq<Byte>)
    requires Valid(r) && r.state.HeaderValueDiscardWs? && r.hstate.ContentLength? && LineOk(l)
    requires Complete(r, u, Sent(l.value) + (l.eol + rest)) && rest != [] && !IsBlank(rest[0])
    requires r.nread + |Sent(l.value) + l.eol| <= MAX_HEADER_SIZE
    ensures l.value != [] && IsLengthValue(l.value) && !r.flags.contentLength
  {
    hide Run, Valid, Complete, IsLengthValue, Sent, IsBlank, IsValue, IsEol, IsToken, AllBlank;
    if l.value == [] {
      SentNothing();
      assert Sent(l.value) + (l.eol + rest) == l.eol + rest;
      EarlyEol(r, u, l.eol);
      var e := r.(state := HeaderValueDiscardLws, nread := r.nread + |l.eol|);
      RanRest(r, u, l.eol, rest, e, u);
      EmptyLengthFails(e, u, rest);
    } else {
      PrefixGoes(r, u, Sent(l.value), l.eol + rest);
      LengthNeeded(r, u, l.value);
    }
  }

  // ---------------------------------------------------------------- the header block

  lemma BlankLineShape(ps: Parser, t: Trace, data: seq<Byte>) returns (eol: seq<Byte>, rest: seq<Byte>)
    requires Valid(ps) && ps.state.HeaderFieldStart? && Complete(ps, t, data) && data != []
    requires data[0] == CR || data[0] == LF
    ensures data == eol + rest && IsEol(eol) && ps.nread + |eol| <= MAX_HEADER_SIZE
  {
    hide Valid, Complete, Step, Dispatch;
    FirstTaken(ps, t, data);
    TurnTaken(ps, t, data[0]);
    assert data == [data[0]] + data[1..];
    if data[0] == CR {
      BlankTurns(ps.(nread := ps.nread + 1), CR);
      var a, v := Peel(ps, t, data);
      FirstTaken(a, v, data[1..]);
      TurnTaken(a, v, data[1]);
      BlankTurns(a.(nread := a.nread + 1), data[1]);
      eol, rest := CRLF, data[2..];
    } else {
      eol, rest := [LF], data[1..];
    }
  }

  lemma BlankTurns(ps: Parser, ch: Byte)
    ensures ps.state.HeaderFieldStart? && ch == CR ==> Dispatch(ps, ch) == Next(ps.(state := HeadersAlmostDone), [])
    ensures ps.state.HeadersAlmostDone? && !Dispatch(ps, ch).Fail? ==> ch == LF
  {
  }

  lemma LeadsOn(ps: Parser, t: Trace, f: Parser, u: Trace, data: seq<Byte>)
    requires Leads(ps, t, f, u) && data != [] && !IsBlank(data[0]) && Complete(ps, t, data)
    ensures Complete(f, u, data)
  {
    hide Run;
  }

  /** Header lines up to a blank line: `done` are those that have been read before, on top of `k`. */
  lemma {:induction false} LinesShape(f: Parser, t: Trace, data: seq<Byte>, k: Known, done: seq<HeaderLine>)
    returns (ls: seq<HeaderLine>, eol: seq<Byte>, rest: seq<Byte>)
    requires Valid(f) && f.state.HeaderFieldStart? && Complete(f, t, data) && !Joins(t, FieldData)
    requires LinesOk(done) && AllFit(k, done) && KnownOf(f) == LearntFrom(k, done)
    ensures LinesOk(ls) && AllFit(k, ls) && IsEol(eol) && LinesText(done) + data == LinesText(ls) + eol + rest
    ensures f.nread + |LinesText(ls) + eol| <= MAX_HEADER_SIZE + |LinesText(done)|
    decreases |data|
  {
    hide Run, Valid, Complete, LineText, LineOk, Leads, Learnt, LineFits, IsBlank, IsEol, LineTold, LinesOk, AllFit,
      LearntFrom, LinesText, Step;
    FirstTaken(f, t, data);
    if data[0] == CR || data[0] == LF {
      eol, rest := BlankLineShape(f, t, data);
      ls := done;
      assert LinesText(done) + (eol + rest) == LinesText(ls) + eol + rest;
    } else {
      var l, a := LineShape(f, t, data);
      FitsNeeded(f, t, l, a);
      var e, u, g := LineRead(f, t, l);
      RanRest(f, t, LineText(l), a, e, u);
      LeadsOn(e, u, g, t + LineTold(l), a);
      LineIsValue(t, l);
      LineStarts(l);
      OneLineMore(k, done, l);
      ls, eol, rest := LinesShape(g, t + LineTold(l), a, k, done + [l]);
      assert LinesText(done) + (LineText(l) + a) == LinesText(done) + LineText(l) + a;
    }
  }

  lemma OneLineMore(k: Known, done: seq<HeaderLine>, l: HeaderLine)
    requires LinesOk(done) && LineOk(l) && AllFit(k, done) && LineFits(LearntFrom(k, done), l)
    ensures LinesOk(done + [l]) && AllFit(k, done + [l]) && LearntFrom(k, done + [l]) == Learnt(LearntFrom(k, done), l)
    ensures LinesText(done + [l]) == LinesText(done) + LineText(l)
  {
    hide LineOk, LineFits, Learnt, LineText;
    assert (done + [l])[..|done|] == done;
  }
}
