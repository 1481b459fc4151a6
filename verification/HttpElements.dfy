// The elements of a comma-separated header value: how everybody reads them, how the parser does, and which it looks
// at. A value can be folded over several lines.

module HttpElements {
  import opened HttpChars
  import opened HttpParser

  // ---------------------------------------------------------------- the elements of a value

  /** The pieces between the commas. */
  function Pieces(v: seq<Byte>): (ps: seq<seq<Byte>>)
    ensures |ps| >= 1
  {
    if v == [] then [[]]
    else
      var before, c := Pieces(v[..|v| - 1]), v[|v| - 1];
      var last := |before| - 1;
      if c == ',' then before + [[]] else before[last := before[last] + [c]]
  }

  predicate IsBlank(c: Byte) { c == ' ' || c == '\t' }

  /** Stands in a value for a fold: a line end with the blank that begins the next line. */
  const FOLD: Byte := LF

  /** In lower case; a fold is read as a space, as section 3.2.4 of RFC 7230 says. */
  function Small(c: Byte): Byte { if c == FOLD then ' ' else Lower(c) }

  function Lowered(e: seq<Byte>): (r: seq<Byte>)
    ensures |r| == |e| && forall i :: 0 <= i < |e| ==> r[i] == Small(e[i])
  {
    if e == [] then [] else Lowered(e[..|e| - 1]) + [Small(e[|e| - 1])]
  }

  /** An element as RFC 7230 reads it: in lower case, without the spaces, tabs and folds around it. */
  function Bare(e: seq<Byte>): seq<Byte>
    decreases |e|
  {
    if e == [] then []
    else if IsBlank(e[0]) || e[0] == FOLD then Bare(e[1..])
    else if IsBlank(e[|e| - 1]) || e[|e| - 1] == FOLD then Bare(e[..|e| - 1])
    else Lowered(e)
  }

  predicate Listed(v: seq<Byte>, name: string) {
    exists i :: 0 <= i < |Pieces(v)| && Bare(Pieces(v)[i]) == name
  }

  /** An element as the parser reads it: in lower case, without the spaces before it. A tab is no blank to it: it
      looks for one in the lower-cased byte, which never is one. */
  function Text(e: seq<Byte>): seq<Byte> {
    if e == [] then []
    else
      var w, c := Text(e[..|e| - 1]), e[|e| - 1];
      if w == [] && (c == ' ' || c == FOLD) then [] else w + [Small(c)]
  }

  /** A text is a name, up to spaces behind it. */
  predicate Is(w: seq<Byte>, name: string) { name <= w && forall i :: |name| <= i < |w| ==> w[i] == ' ' }

  /** A mere beginning of an option. */
  predicate Beginning(w: seq<Byte>) { w != [] && (w < KEEP_ALIVE || w < CLOSE || w < UPGRADE) }

  predicate Begun(w: seq<Byte>) { w != [] && IsToken(w[0]) }

  datatype Header = ConnectionHeader | CodingHeader

  /** The texts whose comma the parser takes for a byte of the element: a matcher that is not done with its name
      does, and the one for chunked also when it is. */
  predicate Swallows(h: Header, w: seq<Byte>) {
    match h
    case ConnectionHeader => Beginning(w)
    case CodingHeader => w != [] && (w <= CHUNKED || Is(w, CHUNKED))
  }

  /** What the parser does with an element: it looks at the first one and at most others; it skips one, or it has
      lost interest for good. */
  datatype Mode = First | Look | Skip | Lost

  predicate Heeds(m: Mode) { m.First? || m.Look? }

  /** Whether a fold makes the parser forget element `e` and all that follows. It goes on over a fold only if it is
      looking for the beginning of an element. */
  predicate Torn(m: Mode, e: seq<Byte>) {
    exists i :: 0 <= i < |e| && e[i] == FOLD && (m.Look? ==> Text(e[..i]) != [])
  }

  /** The mode for the element behind `e`. */
  function NextMode(h: Header, m: Mode, e: seq<Byte>): Mode { if Torn(m, e) then Lost else Then(h, m, Text(e)) }

  /** The same behind an element with the text `w` that no fold tears. */
  function Then(h: Header, m: Mode, w: seq<Byte>): Mode {
    match m
    case First => if w == [] || Swallows(h, w) then Skip else Look
    case Look => if !Begun(w) then Lost else if Swallows(h, w) then Skip else Look
    case Skip => Look
    case Lost => Lost
  }

  function ModeAfter(h: Header, ps: seq<seq<Byte>>): Mode {
    if ps == [] then First else NextMode(h, ModeAfter(h, ps[..|ps| - 1]), ps[|ps| - 1])
  }

  /** Whether the parser looks at element `i` of the value. */
  predicate Heeded(h: Header, v: seq<Byte>, i: nat)
    requires i < |Pieces(v)|
  {
    Heeds(ModeAfter(h, Pieces(v)[..i]))
  }

  /** Whether a fold tears element `i`. */
  predicate TornAt(h: Header, v: seq<Byte>, i: nat)
    requires i < |Pieces(v)|
  {
    Torn(ModeAfter(h, Pieces(v)[..i]), Pieces(v)[i])
  }

  /** Whether the parser recognises element `i`: it looks at it, and neither a fold nor a tab spoils it. */
  predicate Recognised(h: Header, v: seq<Byte>, i: nat, name: string)
    requires i < |Pieces(v)|
  {
    Heeded(h, v, i) && !TornAt(h, v, i) && Bare(Pieces(v)[i]) == name && '\t' !in Pieces(v)[i]
  }

  predicate Heard(v: seq<Byte>, name: string) {
    exists i :: 0 <= i < |Pieces(v)| && Recognised(ConnectionHeader, v, i, name)
  }

  /** An element after which the next one is looked at too. */
  predicate Passes(h: Header, v: seq<Byte>, i: nat)
    requires i < |Pieces(v)|
  {
    var w := Text(Pieces(v)[i]);
    && w != [] && (i > 0 ==> IsToken(w[0])) && !Swallows(h, w)
    && !Torn(if i == 0 then First else Look, Pieces(v)[i])
  }

  /** All elements are looked at if and only if all before the last let the next one be. */
  lemma AllHeeded(h: Header, v: seq<Byte>)
    ensures (forall i :: 0 <= i < |Pieces(v)| ==> Heeded(h, v, i))
       <==> (forall i :: 0 <= i < |Pieces(v)| - 1 ==> Passes(h, v, i))
  {
    hide Pieces, Text, Swallows, IsToken, Torn;
    var n := |Pieces(v)|;
    forall i | 0 <= i < n - 1 ensures Heeded(h, v, i) ==> (Heeded(h, v, i + 1) <==> Passes(h, v, i)) {
      NextHeeded(h, v, i);
    }
    FirstHeeded(h, v);
    hide Heeded, Passes;
    if forall i :: 0 <= i < n - 1 ==> Passes(h, v, i) { HeededUpTo(h, v, n - 1); }
    if forall i :: 0 <= i < n ==> Heeded(h, v, i) {
      forall i | 0 <= i < n - 1 ensures Passes(h, v, i) {
        assert Heeded(h, v, i) && Heeded(h, v, i + 1);
      }
    }
  }

  lemma FirstHeeded(h: Header, v: seq<Byte>)
    ensures Heeded(h, v, 0)
  {
    assert Pieces(v)[..0] == [];
  }

  lemma NextHeeded(h: Header, v: seq<Byte>, i: nat)
    requires i + 1 < |Pieces(v)|
    ensures Heeded(h, v, i) ==> (Heeded(h, v, i + 1) <==> Passes(h, v, i))
    ensures !Heeded(h, v, i) ==> (Heeded(h, v, i + 1) <==> ModeAfter(h, Pieces(v)[..i]).Skip? && !TornAt(h, v, i))
    ensures ModeAfter(h, Pieces(v)[..i]).First? <==> i == 0
    ensures TornAt(h, v, i) ==> ModeAfter(h, Pieces(v)[..i + 1]).Lost?
  {
    hide Pieces, Text, Swallows, IsToken, Torn;
    var ps := Pieces(v);
    assert ps[..i + 1][..i] == ps[..i] && ps[..i + 1][i] == ps[i];
    if i > 0 { assert ps[..i][..i - 1] == ps[..i - 1]; }
  }

  lemma {:induction false} HeededUpTo(h: Header, v: seq<Byte>, k: nat)
    requires k < |Pieces(v)| && forall i :: 0 <= i < k ==> Passes(h, v, i)
    ensures forall i :: 0 <= i <= k ==> Heeded(h, v, i)
  {
    hide Heeded, Passes;
    if k == 0 {
      FirstHeeded(h, v);
    } else {
      HeededUpTo(h, v, k - 1);
      NextHeeded(h, v, k - 1);
    }
  }

  // ---------------------------------------------------------------- the parser's reading and the usual one

  lemma PiecesSnoc(u: seq<Byte>, c: Byte)
    ensures var ps, last := Pieces(u), |Pieces(u)| - 1;
            Pieces(u + [c]) == if c == ',' then ps + [[]] else ps[last := ps[last] + [c]]
  {
    assert (u + [c])[..|u|] == u;
  }

  lemma TextSnoc(e: seq<Byte>, c: Byte)
    ensures Text(e + [c]) == if Text(e) == [] && (c == ' ' || c == FOLD) then [] else Text(e) + [Small(c)]
  {
    assert (e + [c])[..|e|] == e;
  }

  /** A fold tears an element once, or a further one does. */
  lemma TornSnoc(m: Mode, e: seq<Byte>, c: Byte)
    ensures Torn(m, e + [c]) <==> Torn(m, e) || (c == FOLD && (m.Look? ==> Text(e) != []))
  {
    hide Text;
    var f := e + [c];
    assert f[|e|] == c && f[..|e|] == e;
    forall i | 0 <= i < |e| ensures f[i] == e[i] && f[..i] == e[..i] {}
    if Torn(m, e) {
      var i :| 0 <= i < |e| && e[i] == FOLD && (m.Look? ==> Text(e[..i]) != []);
      assert f[i] == FOLD;
    }
  }

  /** The bytes that get into a value: NUL, which the parser reads as a space, at most in the first place. */
  predicate InLine(e: seq<Byte>) { forall i :: 0 <= i < |e| ==> e[i] != CR && (i > 0 ==> e[i] != '\0') }

  /** A name that elements are compared with: no blank at its ends, and nothing in it that a tab is read as. */
  predicate IsName(name: string) {
    name != [] && name[0] != ' ' && name[|name| - 1] != ' ' && Lower('\t') !in name
  }

  lemma NamesAreNames()
    ensures IsName(KEEP_ALIVE) && IsName(CLOSE) && IsName(UPGRADE) && IsName(CHUNKED)
  {
  }

  /** A space before an element does not matter to the parser either. */
  lemma {:induction false} TextDropsSpace(e: seq<Byte>)
    requires e != [] && (e[0] == ' ' || e[0] == FOLD)
    ensures Text(e) == Text(e[1..])
    decreases |e|
  {
    hide Small;
    var last := |e| - 1;
    if last == 0 {
      assert e == [e[0]] && e[..0] == [];
    } else {
      TextDropsSpace(e[..last]);
      assert e[..last][1..] == e[1..][..last - 1] && e[1..][last - 1] == e[last];
    }
  }

  /** An element that begins with something else is kept as it is. */
  lemma {:induction false} TextKeeps(e: seq<Byte>)
    requires e != [] && e[0] != ' ' && e[0] != FOLD
    ensures Text(e) == Lowered(e)
    decreases |e|
  {
    hide Small;
    var last := |e| - 1;
    if last > 0 { TextKeeps(e[..last]); } else { assert e[..0] == [] && Lowered([]) == []; }
  }

  /** What the parser takes for a name is what everybody does, unless there is a tab in the element. */
  lemma {:induction false} IsMeansBare(e: seq<Byte>, name: string)
    requires InLine(e) && IsName(name)
    ensures Is(Text(e), name) <==> Bare(e) == name && '\t' !in e
    decreases |e|
  {
    if e == [] {
    } else if e[0] == ' ' || e[0] == FOLD {
      hide Is, Text, IsName, Lower, IsHeaderChar;
      TextDropsSpace(e);
      IsMeansBare(e[1..], name);
      assert e == [e[0]] + e[1..];
    } else {
      TextKeeps(e);
      NoBlankBefore(e, name);
    }
  }

  lemma {:induction false} NoBlankBefore(e: seq<Byte>, name: string)
    requires e != [] && e[0] != ' ' && e[0] != FOLD && InLine(e) && IsName(name)
    ensures Is(Lowered(e), name) <==> Bare(e) == name && '\t' !in e
    decreases |e|
  {
    var last := |e| - 1;
    if e[last] != '\0' { SmallBlank(e[last]); }
    SmallTab();
    hide Small, Lower, IsHeaderChar;
    var w := Lowered(e);
    if e[0] == '\t' {
      TabSpoils(w, name, 0);
    } else if e[last] == ' ' || e[last] == FOLD {
      assert e[..last][0] == e[0];
      NoBlankBefore(e[..last], name);
      assert e == e[..last] + [e[last]];
      IsDropsSpace(Lowered(e[..last]), name);
    } else if e[last] == '\t' {
      TabSpoils(w, name, last);
    } else {
      IsAt(w, name, last);
      if w == name {
        forall i | 0 <= i < |e| ensures e[i] != '\t' { assert w[i] in name; }
      }
    }
  }

  lemma SmallBlank(c: Byte)
    requires c != '\0'
    ensures Small(c) == ' ' <==> c == ' ' || c == FOLD
    ensures c != FOLD ==> Small(c) == Lower(c)
  {
  }

  lemma SmallTab()
    ensures Small('\t') == Lower('\t') && '\t' != FOLD
  {
  }

  /** What a text that is a name has at place `k`. */
  lemma IsAt(w: seq<Byte>, name: string, k: nat)
    requires k < |w|
    ensures Is(w, name) ==> if k < |name| then w[k] == name[k] && w[k] in name else w[k] == ' '
  {
  }

  lemma TabSpoils(w: seq<Byte>, name: string, k: nat)
    requires k < |w| && w[k] == Lower('\t') && IsName(name)
    ensures !Is(w, name)
  {
    IsAt(w, name, k);
  }

  lemma IsDropsSpace(w: seq<Byte>, name: string)
    requires IsName(name)
    ensures Is(w + [' '], name) <==> Is(w, name)
  {
    var v := w + [' '];
    assert v[..|w|] == w && v[|w|] == ' ';
    IsAt(v, name, |w|);
    if |name| <= |w| { assert v[..|name|] == w[..|name|]; }
  }

  // ---------------------------------------------------------------- one name against an element

  /** An element has nothing to do with a name: it is neither the name nor a beginning of it. */
  predicate Foreign(w: seq<Byte>, name: string) { !(w <= name) && !Is(w, name) }

  lemma IsSnoc(w: seq<Byte>, c: Byte, name: string)
    requires Is(w, name)
    ensures Is(w + [c], name) <==> c == ' '
  {
    assert (w + [c])[..|w|] == w && (w + [c])[|w|] == c;
  }

  lemma ForeignStays(w: seq<Byte>, c: Byte, name: string)
    requires Foreign(w, name)
    ensures Foreign(w + [c], name)
  {
    var v := w + [c];
    assert v[..|w|] == w && v[|w|] == c;
    if |name| <= |w| && name <= w { assert name <= v; }
  }

  /** What leaves the beginning of a name is foreign to it. */
  lemma MissIsForeign(w: seq<Byte>, c: Byte, name: string)
    requires w < name && c != name[|w|]
    ensures Foreign(w + [c], name)
  {
    var v := w + [c];
    assert v[|w|] == c;
  }

  lemma NotBoth(w: seq<Byte>, a: string, b: string)
    requires w != [] && w <= a && b != [] && a != [] && a[0] != b[0]
    ensures Foreign(w, b)
  {
    assert w[0] == a[0];
  }

  /** Where a matcher stands with one name, whose state while matching is `matching` and once matched `full`. */
  predicate Stands(h: HState, index: nat, w: seq<Byte>, name: string, matching: HState, full: HState) {
    && (h == matching ==> index + 1 < |name| && w == name[..index + 1])
    && (h == full ==> Is(w, name))
    && (h.ConnTokenStart? || h.TeTokenStart? ==> w == [] && index == 0)
  }

  /** The same the other way round: nothing of the name is overlooked. */
  predicate Sees(h: HState, w: seq<Byte>, name: string, matching: HState, full: HState) {
    && (h != matching && h != full && !h.ConnTokenStart? && !h.TeTokenStart? && !h.General? ==> Foreign(w, name))
    && (h.General? ==> w != [] && !IsToken(w[0]))
  }

  lemma OptionNames()
    ensures |KEEP_ALIVE| == 10 && KEEP_ALIVE[0] == 'k' && |CLOSE| == 5 && CLOSE[0] == 'c'
    ensures |UPGRADE| == 7 && UPGRADE[0] == 'u' && |CHUNKED| == 7 && CHUNKED[0] == 'c'
  {
  }

  /** One byte of an element against the name it is being matched with, and against another one. */
  lemma MatchStands(name: string, index: nat, w: seq<Byte>, c: Byte, h: HState, miss: HState, full: HState)
    requires 0 < |name| < 32 && index + 1 < |name| && w == name[..index + 1] && h != full && h != miss && miss != full
    requires miss.ConnToken? || miss.TeToken?
    requires !h.General? && !h.ConnTokenStart? && !h.TeTokenStart? && !full.ConnTokenStart? && !full.TeTokenStart?
             && !full.General?
    ensures var next := MatchState(index + 1, h, name, c, miss, full);
            && (next == miss || next == full || next == h)
            && Stands(next, index + 1, w + [c], name, h, full) && Sees(next, w + [c], name, h, full)
  {
    if c == name[index + 1] {
      assert w + [c] == name[..index + 2];
    } else {
      MissIsForeign(w, c, name);
    }
  }

  lemma OtherForeign(w: seq<Byte>, c: Byte, a: string, b: string)
    requires w != [] && w <= a && b != [] && a != [] && a[0] != b[0]
    ensures Foreign(w + [c], b)
  {
    NotBoth(w, a, b);
    ForeignStays(w, c, b);
  }

  lemma LowerBlank(ch: Byte)
    requires IsHeaderChar(ch) && ch != CR && ch != LF
    ensures Lower(ch) == ' ' <==> ch == ' '
    ensures Lower(ch) == ',' <==> ch == ','
    ensures Lower(ch) != '\t' && !IsToken(' ') && !IsToken(',')
  {
  }

  /** What comes after a whole option: blanks belong to it, anything else makes it another element. */
  lemma BehindOption(w: seq<Byte>, c: Byte, name: string)
    requires Is(w, name) && name != []
    ensures if c == ' ' then Is(w + [c], name) else Foreign(w + [c], name)
  {
    IsSnoc(w, c, name);
    assert |w + [c]| > |name|;
  }

  lemma OptionIsNot(w: seq<Byte>, a: string, b: string)
    requires Is(w, a) && a != [] && b != [] && a[0] != b[0]
    ensures !Is(w, b) && !(w <= b)
  {
    assert w[0] == a[0];
  }

  lemma OtherOption(w: seq<Byte>, c: Byte, a: string, b: string)
    requires Is(w, a) && a != [] && b != [] && a[0] != b[0]
    ensures Foreign(w + [c], b)
  {
    OptionIsNot(w, a, b);
    ForeignStays(w, c, b);
  }

  lemma NoBytes(m: Mode)
    ensures !Torn(m, []) && Text([]) == []
  {
  }

  lemma NamesBegin()
    ensures IsToken('k') && IsToken('c') && IsToken('u')
  {
  }

  lemma BlankIsNoToken()
    ensures !IsToken(' ')
  {
  }

  /** Whether element `e`, met in mode `m`, tells the parser the option. */
  predicate Hears(m: Mode, e: seq<Byte>, name: string) { Heeds(m) && !Torn(m, e) && Is(Text(e), name) }

  // ---------------------------------------------------------------- values over several lines

  /** What a value is made of: bytes and folds. */
  datatype Sign = Char(c: Byte) | Fold(eol: seq<Byte>, blank: Byte)

  const CRLF: seq<Byte> := [CR, LF]
  predicate IsEol(e: seq<Byte>) { e == CRLF || e == [LF] }

  predicate IsSign(x: Sign) {
    match x
    case Char(c) => IsHeaderChar(c) && c != CR && c != LF
    case Fold(eol, blank) => IsEol(eol) && IsBlank(blank)
  }

  /** A value, without the white space before it. Its first byte is taken whatever it is. */
  predicate IsValue(s: seq<Sign>) {
    && s != [] && s[0].Char? && !IsBlank(s[0].c) && s[0].c != CR && s[0].c != LF
    && forall i :: 1 <= i < |s| ==> IsSign(s[i])
  }

  function SentAs(x: Sign): seq<Byte> {
    match x
    case Char(c) => [c]
    case Fold(eol, blank) => eol + [blank]
  }

  /** The bytes of a value as they are received. */
  function Sent(s: seq<Sign>): (b: seq<Byte>)
    ensures s != [] ==> b != []
  {
    if s == [] then [] else Sent(s[..|s| - 1]) + SentAs(s[|s| - 1])
  }

  /** The value with a mark for each fold. */
  function Marked(s: seq<Sign>): (v: seq<Byte>)
    ensures |v| == |s|
  {
    if s == [] then [] else Marked(s[..|s| - 1]) + [if s[|s| - 1].Char? then s[|s| - 1].c else FOLD]
  }

  lemma {:induction false} ValueInLine(s: seq<Sign>)
    requires IsValue(s)
    ensures InLine(Marked(s))
    decreases |s|
  {
    if |s| > 1 {
      assert IsSign(s[|s| - 1]);
      ValueInLine(s[..|s| - 1]);
    }
  }

  lemma FoldedSnoc(s: seq<Sign>, x: Sign)
    ensures Sent(s + [x]) == Sent(s) + SentAs(x)
    ensures Marked(s + [x]) == Marked(s) + [if x.Char? then x.c else FOLD]
  {
    assert (s + [x])[..|s|] == s;
  }

  lemma ModeSnoc(h: Header, ps: seq<seq<Byte>>, e: seq<Byte>)
    ensures ModeAfter(h, ps + [e]) == NextMode(h, ModeAfter(h, ps), e)
  {
    assert (ps + [e])[..|ps|] == ps;
  }

  /** The value after its first byte. A comma there counts as an element. */
  lemma OnePiece(ch: Byte)
    requires ch != ' ' && ch != LF
    ensures Pieces([ch]) == if ch == ',' then [[], []] else [[ch]]
    ensures Text([ch]) == [Lower(ch)] && Text([]) == [] && forall m :: !Torn(m, [ch]) && !Torn(m, [])
  {
    assert [ch][..0] == [] && Pieces([]) == [[]] && [] + [ch] == [ch];
  }

  lemma NoElement(h: Header)
    ensures ModeAfter(h, []) == First && ModeAfter(h, [[]]) == Skip
  {
    var none: seq<seq<Byte>> := [[]];
    assert none[..0] == [];
  }

  lemma {:induction false} PiecesInLine(v: seq<Byte>)
    requires InLine(v)
    ensures forall i :: 0 <= i < |Pieces(v)| ==> InLine(Pieces(v)[i])
    decreases |v|
  {
    if v != [] { PiecesInLine(v[..|v| - 1]); }
  }

  // ---------------------------------------------------------------- what is overlooked

  /** An element that is a mere beginning of an option swallows the comma behind it: the next element is not looked
      at, the one behind that is again. */
  lemma BeginningHidesNext(v: seq<Byte>, i: nat)
    requires i + 1 < |Pieces(v)| && Heeded(ConnectionHeader, v, i) && Beginning(Text(Pieces(v)[i]))
    requires (i > 0 ==> Begun(Text(Pieces(v)[i]))) && !TornAt(ConnectionHeader, v, i)
    ensures !Heeded(ConnectionHeader, v, i + 1)
    ensures i + 2 < |Pieces(v)| ==> (Heeded(ConnectionHeader, v, i + 2) <==> FOLD !in Pieces(v)[i + 1])
  {
    hide Pieces, Text, Beginning, IsToken, Torn;
    var ps := Pieces(v);
    NextHeeded(ConnectionHeader, v, i);
    assert ps[..i + 1][..i] == ps[..i];
    TornIfFolded(Skip, ps[i + 1]);
    if i + 2 < |ps| { NextHeeded(ConnectionHeader, v, i + 1); }
  }

  /** An element that the parser is not looking for the beginning of is torn by any fold. */
  lemma TornIfFolded(m: Mode, e: seq<Byte>)
    ensures Torn(m, e) ==> FOLD in e
    ensures !m.Look? && FOLD in e ==> Torn(m, e)
  {
    hide Text;
  }

  /** Behind an element other than the first that is empty, or begins with no token character, or with a tab, and
      behind any element that a fold tears, nothing is looked at any more. */
  lemma {:induction false} BadStartHidesRest(h: Header, v: seq<Byte>, i: nat, j: nat)
    requires i < j < |Pieces(v)|
    requires TornAt(h, v, i) || (0 < i && Heeded(h, v, i) && !Begun(Text(Pieces(v)[i])))
    ensures !Heeded(h, v, j) && ModeAfter(h, Pieces(v)[..j]).Lost?
    decreases j
  {
    hide Pieces, Text, Swallows, Begun, Torn;
    var ps := Pieces(v);
    assert ps[..j][..j - 1] == ps[..j - 1];
    if j == i + 1 { NextHeeded(h, v, i); } else { BadStartHidesRest(h, v, i, j - 1); }
  }

  // ---------------------------------------------------------------- single values

  predicate NoComma(u: seq<Byte>) { forall i :: 0 <= i < |u| ==> u[i] != ',' }

  lemma {:induction false} PiecesJoin(e: seq<Byte>, rest: seq<Byte>)
    requires NoComma(e) && NoComma(rest)
    ensures Pieces(e + [','] + rest) == [e, rest]
    decreases |rest|
  {
    if rest == [] {
      SinglePiece(e);
      PiecesSnoc(e, ',');
      assert e + [','] + rest == e + [','];
    } else {
      var u, c := rest[..|rest| - 1], rest[|rest| - 1];
      PiecesJoin(e, u);
      PiecesSnoc(e + [','] + u, c);
      assert e + [','] + u + [c] == e + [','] + rest && u + [c] == rest;
    }
  }

  lemma {:induction false} SinglePiece(e: seq<Byte>)
    requires NoComma(e)
    ensures Pieces(e) == [e]
    decreases |e|
  {
    if e != [] {
      SinglePiece(e[..|e| - 1]);
      assert e[..|e| - 1] + [e[|e| - 1]] == e;
    }
  }

  predicate IsPlain(e: seq<Byte>) { e != [] && forall i :: 0 <= i < |e| ==> 'a' <= e[i] <= 'z' || e[i] == '-' }

  /** Elements in small letters and hyphens are read as they are. */
  lemma PlainElement(e: seq<Byte>)
    requires IsPlain(e)
    ensures Bare(e) == e && Text(e) == e && '\t' !in e && FOLD !in e && NoComma(e)
  {
    hide Small, Text, Bare, IsBlank;
    forall i | 0 <= i < |e| ensures Small(e[i]) == e[i] { PlainByte(e[i]); }
    assert Lowered(e) == e;
    TextKeeps(e);
    PlainBare(e);
  }

  lemma PlainBare(e: seq<Byte>)
    requires IsPlain(e)
    ensures Bare(e) == Lowered(e)
  {
    hide Lowered;
    assert !IsBlank(e[0]) && !IsBlank(e[|e| - 1]) && e[0] != FOLD && e[|e| - 1] != FOLD;
  }

  lemma PlainByte(c: Byte)
    requires 'a' <= c <= 'z' || c == '-'
    ensures Small(c) == c
  {
  }

  /** Two elements, as the parser and as everybody reads them. */
  lemma TwoElements(e: seq<Byte>, rest: seq<Byte>, v: seq<Byte>)
    requires NoComma(e) && NoComma(rest) && v == e + [','] + rest && FOLD !in e && FOLD !in rest
    ensures Pieces(v) == [e, rest]
    ensures forall h :: !TornAt(h, v, 0) && !TornAt(h, v, 1)
    ensures forall h, name :: Recognised(h, v, 0, name) <==> Bare(e) == name && '\t' !in e
    ensures forall h, name :: Recognised(h, v, 1, name) <==> Heeded(h, v, 1) && Bare(rest) == name && '\t' !in rest
    ensures forall name :: Listed(v, name) <==> Bare(e) == name || Bare(rest) == name
  {
    PiecesJoin(e, rest);
    hide Pieces, Bare, Torn;
    FirstHeeded(ConnectionHeader, v);
    FirstHeeded(CodingHeader, v);
    forall h: Header ensures !TornAt(h, v, 0) && !TornAt(h, v, 1) {
      TornIfFolded(ModeAfter(h, Pieces(v)[..0]), e);
      TornIfFolded(ModeAfter(h, Pieces(v)[..1]), rest);
    }
    hide Heeded, TornAt;
    assert Pieces(v)[0] == e && Pieces(v)[1] == rest;
    assert forall h: Header :: h.ConnectionHeader? || h.CodingHeader?;
  }

  /** The one element of a value that has no comma. */
  lemma OneElement(h: Header, v: seq<Byte>)
    requires NoComma(v)
    ensures Pieces(v) == [v] && Heeded(h, v, 0) && (TornAt(h, v, 0) <==> FOLD in v)
    ensures forall name :: Listed(v, name) <==> Bare(v) == name
  {
    SinglePiece(v);
    hide Pieces, Bare, Torn;
    FirstHeeded(h, v);
    assert Pieces(v)[..0] == [] && Pieces(v)[0] == v;
    TornIfFolded(First, v);
  }

  lemma OneBlank(c: Byte, e: seq<Byte>)
    requires IsBlank(c) && c != ','
    ensures Bare([c] + e) == Bare(e) && (NoComma(e) ==> NoComma([c] + e)) && (FOLD !in e ==> FOLD !in [c] + e)
  {
    assert ([c] + e)[1..] == e;
  }

  lemma BlankBehind(e: seq<Byte>, c: Byte)
    requires e != [] && !IsBlank(e[0]) && e[0] != FOLD && (IsBlank(c) || c == FOLD)
    ensures Bare(e + [c]) == Bare(e)
  {
    assert (e + [c])[..|e|] == e && (e + [c])[0] == e[0];
  }

  /** A value on one line. */
  predicate IsLine(v: seq<Byte>) {
    && v != [] && !IsBlank(v[0]) && v[0] != CR && v[0] != LF
    && forall i :: 1 <= i < |v| ==> IsHeaderChar(v[i]) && v[i] != CR && v[i] != LF
  }

  function Chars(v: seq<Byte>): (s: seq<Sign>)
    ensures |s| == |v| && forall i :: 0 <= i < |v| ==> s[i] == Char(v[i])
  {
    if v == [] then [] else Chars(v[..|v| - 1]) + [Char(v[|v| - 1])]
  }

  /** Such a value is sent as it is. */
  lemma {:induction false} CharsSent(v: seq<Byte>)
    ensures Sent(Chars(v)) == v && Marked(Chars(v)) == v
    ensures IsLine(v) ==> IsValue(Chars(v))
    decreases |v|
  {
    hide IsHeaderChar;
    if v != [] {
      var u := v[..|v| - 1];
      CharsSent(u);
      assert Chars(v)[..|v| - 1] == Chars(u);
    }
  }
}
