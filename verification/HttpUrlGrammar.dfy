// The grammar of the URLs that http_parser_parse_url accepts, and the function itself.

module HttpUrlGrammar {
  import opened Words
  import opened Digits
  import opened HttpChars
  import opened HttpParser
  import opened HttpInvariant
  import opened HttpUrl

  // ---------------------------------------------------------------- the grammar of a URL

  /** Where the parts of a URL begin: the authority, the path, the query with its '?' and the fragment with its '#'. */
  datatype Cuts = Cuts(authority: nat, path: nat, query: nat, fragment: nat)

  predicate IsQueryChar(ch: Byte) { IsUrlChar(ch) || ch == '?' }

  predicate IsFragmentChar(ch: Byte) { IsQueryChar(ch) || ch == '#' }

  /** buf[..a] is letters and "://", or nothing. */
  predicate SchemaText(buf: seq<Byte>, a: nat) {
    || a == 0
    || (3 < a <= |buf| && buf[a - 3] == ':' && buf[a - 2] == '/' && buf[a - 1] == '/'
        && forall i :: 0 <= i < a - 3 ==> IsAlpha(buf[i]))
  }

  /** buf[p..q] is a path, or nothing. */
  predicate PathText(buf: seq<Byte>, p: nat, q: nat) {
    && p <= q <= |buf|
    && (p == q || buf[p] == '/' || (p == 0 && buf[p] == '*'))
    && forall i :: p < i < q ==> IsUrlChar(buf[i])
  }

  /** buf[q..f] is a query with its '?', or nothing. */
  predicate QueryText(buf: seq<Byte>, q: nat, f: nat) {
    q <= f <= |buf| && (q == f || buf[q] == '?') && forall i :: q < i < f ==> IsQueryChar(buf[i])
  }

  /** buf[f..] is a fragment with its '#', or nothing. */
  predicate FragmentText(buf: seq<Byte>, f: nat) {
    f <= |buf| && (f == |buf| || buf[f] == '#') && forall i :: f < i < |buf| ==> IsFragmentChar(buf[i])
  }

  predicate Hashes(buf: seq<Byte>, i: nat, j: nat) { i <= j <= |buf| && forall k :: i <= k < j ==> buf[k] == '#' }

  /** No port, or one of at most 65535. */
  predicate PortFits(buf: seq<Byte>, e: nat, z: nat) {
    PortText(buf, e, z) && (e < z ==> AllNum(buf[e + 1..z]) && Value(buf[e + 1..z]) <= 0xffff)
  }

  /** An authority that is host and port, perhaps behind an empty user information. */
  predicate HostAndPort(foundAt: bool, a: nat, z: nat, h: nat, e: nat) { (foundAt ==> h == a + 1) && e < z }

  /** The URL with its parts at `k` and its host at buf[h..e]. It has an authority exactly if it has a schema or is that
      of a CONNECT request, and begins with a path else. In a CONNECT request there is a port and nothing else, but for
      the empty query and the empty fragment. A fragment is never directly behind an authority. */
  ghost predicate IsUrl(buf: seq<Byte>, isConnect: bool, k: Cuts, h: nat, e: nat) {
    && SchemaText(buf, k.authority) && (isConnect ==> k.authority == 0)
    && PathText(buf, k.path, k.query) && QueryText(buf, k.query, k.fragment) && FragmentText(buf, k.fragment)
    && (k.path == k.fragment ==> k.fragment == |buf|)
    && (if isConnect || k.authority > 0 then
          k.authority < k.path && Splits(buf, h > k.authority, k.authority, k.path, h, e) && PortFits(buf, e, k.path)
        else k.path == 0 && k.query > 0)
    && (isConnect ==>
          && HostAndPort(h > k.authority, k.authority, k.path, h, e)
          && k.path == k.query && k.fragment <= k.query + 1 && Hashes(buf, k.fragment, |buf|))
  }

  /** The URLs that are accepted. */
  ghost predicate Accepts(buf: seq<Byte>, isConnect: bool) {
    exists k: Cuts, h: nat, e: nat :: IsUrl(buf, isConnect, k, h, e)
  }

  // ---------------------------------------------------------------- the automaton, by the parts

  /** The bytes of an authority: an '@' is not followed by another one. */
  predicate AuthorityByte(buf: seq<Byte>, a: nat, j: nat)
    requires a <= j < |buf|
  {
    var c := buf[j];
    IsUserinfoChar(c) || c == '[' || c == ']' || (c == '@' && (a < j ==> buf[j - 1] != '@'))
  }

  predicate SchemaByte(k: Cuts, j: nat, c: Byte) {
    if j + 3 < k.authority then IsAlpha(c) else if j + 3 == k.authority then c == ':' else c == '/'
  }

  /** Byte `j` of a URL whose parts are at `k`. */
  predicate ByteFits(buf: seq<Byte>, isConnect: bool, k: Cuts, j: nat)
    requires j < |buf|
  {
    var c := buf[j];
    if j < k.authority then SchemaByte(k, j, c)
    else if j < k.path then AuthorityByte(buf, k.authority, j)
    else if j < k.query then
      (if j == k.path then c == '/' || (c == '*' && j == 0 && !isConnect) else IsUrlChar(c))
    else if j < k.fragment then (if j == k.query then c == '?' else IsQueryChar(c))
    else if j == k.fragment then c == '#' && k.path < k.fragment
    else IsFragmentChar(c)
  }

  predicate CutsFit(isConnect: bool, k: Cuts) {
    && k.authority <= k.path <= k.query <= k.fragment && (k.authority == 0 || k.authority > 3)
    && (isConnect ==> k.authority == 0)
    && (!isConnect && k.authority == 0 ==> k.path == 0 < k.query)
  }

  /** The first `n` bytes fit the parts at `k`, as far as these are reached. */
  predicate Shape(buf: seq<Byte>, isConnect: bool, k: Cuts, n: nat)
    requires n <= |buf|
  {
    CutsFit(isConnect, k) && forall j :: 0 <= j < n ==> ByteFits(buf, isConnect, k, j)
  }

  /** The state after byte `j`. */
  function StateAt(buf: seq<Byte>, k: Cuts, j: nat): State
    requires j < |buf|
  {
    if j < k.authority then
      (if j + 3 < k.authority then ReqSchema else if j + 3 == k.authority then ReqSchemaSlash
       else if j + 2 == k.authority then ReqSchemaSlashSlash else ReqServerStart)
    else if j < k.path then (if buf[j] == '@' then ReqServerWithAt else ReqServer)
    else if j < k.query then ReqPath
    else if j < k.fragment then (if j == k.query then ReqQueryStringStart else ReqQueryString)
    else if Hashes(buf, k.fragment, j + 1) then ReqFragmentStart
    else ReqFragment
  }

  function StateAfter(buf: seq<Byte>, isConnect: bool, k: Cuts, n: nat): State
    requires n <= |buf|
  {
    if n == 0 then StartState(isConnect) else StateAt(buf, k, n - 1)
  }

  lemma CharKinds(c: Byte)
    ensures IsUserinfoChar(c) || IsUrlChar(c) || IsAlpha(c) ==>
              c != ' ' && c != CR && c != LF && c != '\t' && c != FORM_FEED && c != '?' && c != '#'
    ensures IsUserinfoChar(c) || IsAlpha(c) ==> c != '/' && c != '@' && c != '[' && c != ']'
    ensures IsAlpha(c) ==> c != ':' && c != '*'
    ensures IsUrlChar('/')
  {
  }

  /** A byte that fits leads to the state of its part. */
  lemma StepFits(buf: seq<Byte>, isConnect: bool, k: Cuts, j: nat)
    requires j < |buf| && CutsFit(isConnect, k) && ByteFits(buf, isConnect, k, j)
    requires j > 0 ==> ByteFits(buf, isConnect, k, j - 1)
    ensures ParseUrlChar(StateAfter(buf, isConnect, k, j), buf[j]) == StateAt(buf, k, j)
  {
    hide IsUserinfoChar, IsUrlChar, IsAlpha, Hashes, ParseUrlChar, ByteFits;
    if j < k.path { EarlyStep(buf, isConnect, k, j); } else { LateStep(buf, isConnect, k, j); }
  }

  lemma EarlyStep(buf: seq<Byte>, isConnect: bool, k: Cuts, j: nat)
    requires j < |buf| && CutsFit(isConnect, k) && ByteFits(buf, isConnect, k, j) && j < k.path
    ensures ParseUrlChar(StateAfter(buf, isConnect, k, j), buf[j]) == StateAt(buf, k, j)
  {
    CharKinds(buf[j]);
    hide IsUserinfoChar, IsUrlChar, IsAlpha, Hashes;
  }

  lemma LateStep(buf: seq<Byte>, isConnect: bool, k: Cuts, j: nat)
    requires j < |buf| && CutsFit(isConnect, k) && ByteFits(buf, isConnect, k, j) && k.path <= j
    requires j > 0 ==> ByteFits(buf, isConnect, k, j - 1)
    ensures ParseUrlChar(StateAfter(buf, isConnect, k, j), buf[j]) == StateAt(buf, k, j)
  {
    hide IsUserinfoChar, IsUrlChar, IsAlpha, Hashes, ParseUrlChar, ByteFits;
    if j < k.query { PathStep(buf, isConnect, k, j); }
    else if j < k.fragment { QueryStep(buf, isConnect, k, j); }
    else { FragmentStep(buf, isConnect, k, j); }
  }

  lemma PathStep(buf: seq<Byte>, isConnect: bool, k: Cuts, j: nat)
    requires j < |buf| && CutsFit(isConnect, k) && ByteFits(buf, isConnect, k, j) && k.path <= j < k.query
    ensures ParseUrlChar(StateAfter(buf, isConnect, k, j), buf[j]) == StateAt(buf, k, j)
  {
    CharKinds(buf[j]);
    hide IsUserinfoChar, IsUrlChar, IsAlpha, Hashes;
  }

  lemma QueryStep(buf: seq<Byte>, isConnect: bool, k: Cuts, j: nat)
    requires j < |buf| && CutsFit(isConnect, k) && ByteFits(buf, isConnect, k, j) && k.query <= j < k.fragment
    ensures ParseUrlChar(StateAfter(buf, isConnect, k, j), buf[j]) == StateAt(buf, k, j)
  {
    CharKinds(buf[j]);
    hide IsUserinfoChar, IsUrlChar, IsAlpha, Hashes;
  }

  lemma FragmentStep(buf: seq<Byte>, isConnect: bool, k: Cuts, j: nat)
    requires j < |buf| && CutsFit(isConnect, k) && ByteFits(buf, isConnect, k, j) && k.fragment <= j
    requires j > 0 ==> ByteFits(buf, isConnect, k, j - 1)
    ensures ParseUrlChar(StateAfter(buf, isConnect, k, j), buf[j]) == StateAt(buf, k, j)
  {
    CharKinds(buf[j]);
    hide IsUserinfoChar, IsUrlChar, IsAlpha, Hashes;
    HashesSnoc(buf, k.fragment, j);
  }

  lemma HashesSnoc(buf: seq<Byte>, i: nat, j: nat)
    requires i <= j < |buf|
    ensures Hashes(buf, i, j + 1) <==> Hashes(buf, i, j) && buf[j] == '#'
    ensures Hashes(buf, j, j)
  {
  }

  lemma {:induction false} States(buf: seq<Byte>, isConnect: bool, k: Cuts, n: nat)
    requires n <= |buf| && Shape(buf, isConnect, k, n)
    ensures After(StartState(isConnect), buf[..n]) == StateAfter(buf, isConnect, k, n)
  {
    hide ByteFits, StateAt, ParseUrlChar, CutsFit;
    if n > 0 {
      States(buf, isConnect, k, n - 1);
      AfterSnoc(StartState(isConnect), buf, n - 1);
      StepFits(buf, isConnect, k, n - 1);
    } else {
      assert buf[..0] == [];
    }
  }

  // ---------------------------------------------------------------- what the two automata admit

  /** The automaton is in field `f` for exactly the bytes buf[a..z]. */
  predicate Occupies(s: State, buf: seq<Byte>, f: Field, a: nat, z: nat) {
    a < z <= |buf| && forall i :: 0 <= i < |buf| ==> (FieldAt(s, buf, i) == Some(f) <==> a <= i < z)
  }

  predicate Absent(s: State, buf: seq<Byte>, f: Field) {
    forall i :: 0 <= i < |buf| ==> FieldAt(s, buf, i) != Some(f)
  }

  predicate OthersAbsent(s: State, buf: seq<Byte>) {
    Absent(s, buf, Schema) && Absent(s, buf, Path) && Absent(s, buf, Query) && Absent(s, buf, Fragment)
  }

  ghost predicate AuthorityFits(buf: seq<Byte>, isConnect: bool, a: nat, z: nat, h: nat, e: nat) {
    var s := StartState(isConnect);
    && Occupies(s, buf, Host, a, z) && Splits(buf, HasAt(s, buf), a, z, h, e) && PortFits(buf, e, z)
    && (isConnect ==> HostAndPort(HasAt(s, buf), a, z, h, e))
  }

  /** What the two automata and the checks behind them let pass. */
  ghost predicate Admits(buf: seq<Byte>, isConnect: bool) {
    var s := StartState(isConnect);
    && buf != [] && !After(s, buf).Dead?
    && (if Absent(s, buf, Host) then !isConnect && Absent(s, buf, Schema)
        else exists a: nat, z: nat, h: nat, e: nat :: AuthorityFits(buf, isConnect, a, z, h, e))
    && (isConnect ==> OthersAbsent(s, buf))
  }

  lemma OccupiesOnce(s: State, buf: seq<Byte>, f: Field, a: nat, z: nat, a': nat, z': nat)
    requires Occupies(s, buf, f, a, z) && Occupies(s, buf, f, a', z')
    ensures a == a' && z == z'
  {
    hide FieldAt;
    assert FieldAt(s, buf, a) == Some(f) && FieldAt(s, buf, z - 1) == Some(f);
    assert FieldAt(s, buf, a') == Some(f) && FieldAt(s, buf, z' - 1) == Some(f);
  }

  /** A part that was found lies where the automaton was in it. */
  lemma PartLies(buf: seq<Byte>, isConnect: bool, parts: Url, f: Field)
    requires PartsOf(buf, isConnect, parts) && IsPart(f)
    ensures HasRoom(parts)
    ensures var s := StartState(isConnect);
            if f in parts.fieldSet then Occupies(s, buf, f, parts.data[f].off, parts.data[f].End())
            else Absent(s, buf, f)
    ensures f in parts.fieldSet ==> !Absent(StartState(isConnect), buf, f)
  {
    hide FieldAt, Ordered, Skipped;
    var s := StartState(isConnect);
    assert Located(s, buf, |buf|, parts, f);
    if f in parts.fieldSet { assert FieldAt(s, buf, parts.data[f].off) == Some(f); }
  }

  /** The authority of the parts can be accepted only with their own bounds and its own split. */
  lemma OnlySplit(buf: seq<Byte>, isConnect: bool, parts: Url, h: nat, e: nat, a': nat, z': nat, h': nat, e': nat)
    requires PartsOf(buf, isConnect, parts) && Host in parts.fieldSet && HasRoom(parts)
    requires Splits(buf, HasAt(StartState(isConnect), buf), parts.data[Host].off, parts.data[Host].End(), h, e)
    requires AuthorityFits(buf, isConnect, a', z', h', e')
    ensures a' == parts.data[Host].off && z' == parts.data[Host].End() && h' == h && e' == e
  {
    hide FieldAt, Ordered, Skipped, Splits, HasAt, PartsOf;
    var s := StartState(isConnect);
    PartLies(buf, isConnect, parts, Host);
    OccupiesOnce(s, buf, Host, parts.data[Host].off, parts.data[Host].End(), a', z');
    SplitsUnique(buf, HasAt(s, buf), a', z', h, e, h', e');
  }

  /** Parts without a host: what decides then. */
  lemma NoHost(buf: seq<Byte>, isConnect: bool, parts: Url)
    requires PartsOf(buf, isConnect, parts) && HasRoom(parts) && Host !in parts.fieldSet
    requires buf != [] && !After(StartState(isConnect), buf).Dead?
    ensures Admits(buf, isConnect) <==> Schema !in parts.fieldSet && !isConnect
  {
    hide PartsOf, After, HasAt, Occupies, Absent, AuthorityFits;
    PartLies(buf, isConnect, parts, Host);
    PartLies(buf, isConnect, parts, Schema);
  }

  /** A host that is no authority. */
  lemma BadHost(buf: seq<Byte>, isConnect: bool, parts: Url)
    requires PartsOf(buf, isConnect, parts) && HasRoom(parts) && Host in parts.fieldSet
    requires !HostComplete(HostAfter(HostStartState(HasAt(StartState(isConnect), buf)),
                                     buf[parts.data[Host].off..parts.data[Host].End()]))
    ensures !Admits(buf, isConnect)
  {
    hide After, HasAt, Absent, Splits, HostAfter, FieldAt, PortFits, Skipped, Ordered;
    var s := StartState(isConnect);
    PartLies(buf, isConnect, parts, Host);
    forall a, z, h, e ensures !AuthorityFits(buf, isConnect, a, z, h, e) {
      if AuthorityFits(buf, isConnect, a, z, h, e) {
        OccupiesOnce(s, buf, Host, parts.data[Host].off, parts.data[Host].End(), a, z);
        SplitsComplete(buf, HasAt(s, buf), a, z, h, e);
      }
    }
  }

  /** A host whose authority splits at `h` and `e`: what decides then. */
  lemma AdmitsHost(buf: seq<Byte>, isConnect: bool, parts: Url, h: nat, e: nat)
    requires PartsOf(buf, isConnect, parts) && HasRoom(parts) && Host in parts.fieldSet
    requires buf != [] && !After(StartState(isConnect), buf).Dead?
    requires Splits(buf, HasAt(StartState(isConnect), buf), parts.data[Host].off, parts.data[Host].End(), h, e)
    ensures Admits(buf, isConnect) <==>
            && AuthorityFits(buf, isConnect, parts.data[Host].off, parts.data[Host].End(), h, e)
            && (isConnect ==> OthersAbsent(StartState(isConnect), buf))
  {
    hide After, HasAt, Absent, Splits, FieldAt, PartsOf, AuthorityFits;
    PartLies(buf, isConnect, parts, Host);
    forall a', z', h', e'
      ensures AuthorityFits(buf, isConnect, a', z', h', e') ==>
                a' == parts.data[Host].off && z' == parts.data[Host].End() && h' == h && e' == e
    {
      if AuthorityFits(buf, isConnect, a', z', h', e') { OnlySplit(buf, isConnect, parts, h, e, a', z', h', e'); }
    }
  }

  lemma PortDigitsAre(buf: seq<Byte>, u: Url, e: nat, z: nat)
    requires PortLies(buf, u, e, z)
    ensures Port in u.fieldSet <==> e < z
    ensures Port in u.fieldSet ==> u.data[Port].End() <= |buf| && AllNum(PortDigits(buf, u))
    ensures PortFits(buf, e, z) <==> (Port in u.fieldSet ==> Value(PortDigits(buf, u)) <= 0xffff)
  {
    if Port in u.fieldSet {
      var ds := PortDigits(buf, u);
      assert ds == buf[e + 1..z];
      forall i | 0 <= i < |ds| ensures IsDigit(ds[i]) { assert InClass(PortBytes, buf[e + 1 + i]); }
    }
  }

  lemma WholeSet(buf: seq<Byte>, isConnect: bool, parts: Url, u: Url, at: bool, a: nat, z: nat, h: nat, e: nat)
    requires PartsOf(buf, isConnect, parts) && HasRoom(parts) && Host in parts.fieldSet && SameElsewhere(parts, u)
    requires UserinfoLies(buf, u, at, a, h) && (Port in u.fieldSet <==> e < z)
    ensures u.fieldSet == {Host, Port} <==> HostAndPort(at, a, z, h, e) && OthersAbsent(StartState(isConnect), buf)
  {
    hide PartsOf, Absent;
    PartLies(buf, isConnect, parts, Schema);
    PartLies(buf, isConnect, parts, Path);
    PartLies(buf, isConnect, parts, Query);
    PartLies(buf, isConnect, parts, Fragment);
    PresentAbsent(buf, isConnect);
    assert u.fieldSet == {Host, Port} <==>
           Port in u.fieldSet && forall f: Field :: f != Host && f != Port ==> f !in u.fieldSet;
  }

  lemma PresentAbsent(buf: seq<Byte>, isConnect: bool)
    ensures forall f, a, z :: Occupies(StartState(isConnect), buf, f, a, z) ==> !Absent(StartState(isConnect), buf, f)
  {
    hide FieldAt;
    var s := StartState(isConnect);
    forall f, a, z | Occupies(s, buf, f, a, z) ensures !Absent(s, buf, f) { assert FieldAt(s, buf, a) == Some(f); }
  }

  /** A host that is an authority: what decides then. */
  lemma GoodHost(buf: seq<Byte>, isConnect: bool, parts: Url, u: Url)
    requires PartsOf(buf, isConnect, parts) && HasRoom(parts) && Host in parts.fieldSet && HasRoom(u)
    requires buf != [] && !After(StartState(isConnect), buf).Dead? && SameElsewhere(parts, u)
    requires AuthorityLies(buf, u, HasAt(StartState(isConnect), buf), parts.data[Host].off, parts.data[Host].End())
    ensures Port in u.fieldSet ==> u.data[Port].End() <= |buf| && AllNum(PortDigits(buf, u))
    ensures Admits(buf, isConnect) <==>
            && (isConnect ==> u.fieldSet == {Host, Port})
            && (Port in u.fieldSet ==> Value(PortDigits(buf, u)) <= 0xffff)
  {
    var at := HasAt(StartState(isConnect), buf);
    var a, z := parts.data[Host].off, parts.data[Host].End();
    var h, e :| UserinfoLies(buf, u, at, a, h) && HostLies(buf, u, h, e) && PortLies(buf, u, e, z);
    hide After, HasAt, UserinfoText, HostText, PartsOf, Occupies, Absent, PortFits, Admits, SameElsewhere;
    PortDigitsAre(buf, u, e, z);
    WholeSet(buf, isConnect, parts, u, at, a, z, h, e);
    AdmitsHost(buf, isConnect, parts, h, e);
    PartLies(buf, isConnect, parts, Host);
  }

  lemma Refusals(buf: seq<Byte>, isConnect: bool)
    ensures buf == [] || After(StartState(isConnect), buf).Dead? ==> !Admits(buf, isConnect)
  {
    hide After, Absent, AuthorityFits;
  }

  lemma PartsFound(buf: seq<Byte>, isConnect: bool, parts: Url)
    requires var s := StartState(isConnect);
             AllLocated(s, buf, |buf|, parts) && Skipped(s, buf, |buf|) && Ordered(parts)
    requires Host in parts.fieldSet ==> parts.data[Host].End() <= |buf|
    ensures PartsOf(buf, isConnect, parts)
  {
    hide AllLocated, Skipped, Ordered;
  }

  // ---------------------------------------------------------------- every URL of the grammar is admitted

  lemma AuthorityBytes(buf: seq<Byte>, a: nat, z: nat, h: nat, e: nat)
    requires Splits(buf, h > a, a, z, h, e)
    ensures forall j :: a <= j < z ==> AuthorityByte(buf, a, j) && (buf[j] == '@' <==> h > a && j == h - 1)
  {
    hide HostText, PortText, UserinfoText;
    SplitOrder(buf, a, z, h, e);
    forall j | a <= j < z ensures AuthorityByte(buf, a, j) && (buf[j] == '@' <==> h > a && j == h - 1) {
      CharKinds(buf[j]);
      if j < h {
        InUserinfoText(buf, a, h, j);
        if a < j { InUserinfoText(buf, a, h, j - 1); CharKinds(buf[j - 1]); }
      } else if j < e {
        InHostText(buf, h, e, j);
      } else {
        InPortText(buf, e, z, j);
      }
    }
  }

  lemma SplitOrder(buf: seq<Byte>, a: nat, z: nat, h: nat, e: nat)
    requires Splits(buf, h > a, a, z, h, e)
    ensures a <= h < e <= z <= |buf| && (h > a ==> buf[h - 1] == '@')
    ensures UserinfoText(buf, h > a, a, h) && HostText(buf, h, e) && PortText(buf, e, z)
  {
    hide AllIn;
  }

  lemma InUserinfoText(buf: seq<Byte>, a: nat, h: nat, j: nat)
    requires UserinfoText(buf, h > a, a, h) && a <= j < h
    ensures if j == h - 1 then buf[j] == '@' else IsUserinfoChar(buf[j])
  {
    hide IsUserinfoChar;
    if j < h - 1 { assert InClass(UserinfoBytes, buf[j]); }
  }

  lemma HostKinds(c: Byte)
    ensures IsHostChar(c) || IsHex(c) || c == ':' || c == '.' || IsZoneChar(c) || c == '%' ==> IsUserinfoChar(c)
    ensures IsDigit(c) ==> IsUserinfoChar(c)
  {
  }

  lemma InHostText(buf: seq<Byte>, h: nat, e: nat, j: nat)
    requires HostText(buf, h, e) && h <= j < e
    ensures IsUserinfoChar(buf[j]) || buf[j] == '[' || buf[j] == ']'
  {
    HostKinds(buf[j]);
    hide IsUserinfoChar, IsHostChar, IsHex, IsZoneChar;
    if buf[h] == '[' {
      var m: nat :| V6Text(buf, h, m, e);
      if h < j < m { assert InClass(V6Bytes, buf[j]); } else if m < j < e - 1 { assert InClass(ZoneBytes, buf[j]); }
    } else {
      assert InClass(HostBytes, buf[j]);
    }
  }

  lemma InPortText(buf: seq<Byte>, e: nat, z: nat, j: nat)
    requires PortText(buf, e, z) && e <= j < z
    ensures IsUserinfoChar(buf[j])
  {
    HostKinds(buf[j]);
    hide IsUserinfoChar, IsHostChar, IsHex, IsZoneChar, IsDigit;
    if j > e { assert InClass(PortBytes, buf[j]); }
  }

  lemma UrlCutsFit(buf: seq<Byte>, isConnect: bool, k: Cuts, h: nat, e: nat)
    requires IsUrl(buf, isConnect, k, h, e)
    ensures CutsFit(isConnect, k) && k.fragment <= |buf| && buf != []
  {
    hide Splits, PortFits, IsUrlChar, IsAlpha;
  }

  lemma UrlByte(buf: seq<Byte>, isConnect: bool, k: Cuts, h: nat, e: nat, j: nat)
    requires IsUrl(buf, isConnect, k, h, e) && j < |buf|
    ensures ByteFits(buf, isConnect, k, j)
  {
    hide Splits, PortFits, IsUrlChar, IsAlpha, IsQueryChar, IsFragmentChar, AuthorityByte;
    if k.authority < k.path { AuthorityBytes(buf, k.authority, k.path, h, e); }
  }

  lemma UrlShape(buf: seq<Byte>, isConnect: bool, k: Cuts, h: nat, e: nat)
    requires IsUrl(buf, isConnect, k, h, e)
    ensures Shape(buf, isConnect, k, |buf|) && k.fragment <= |buf| && buf != []
  {
    hide IsUrl, ByteFits, CutsFit;
    UrlCutsFit(buf, isConnect, k, h, e);
    forall j | 0 <= j < |buf| ensures ByteFits(buf, isConnect, k, j) { UrlByte(buf, isConnect, k, h, e, j); }
  }

  /** Where the automaton is in which field, by the parts. */
  lemma FieldsOf(buf: seq<Byte>, isConnect: bool, k: Cuts)
    requires Shape(buf, isConnect, k, |buf|) && buf != []
    ensures !After(StartState(isConnect), buf).Dead?
    ensures forall i :: 0 <= i < |buf| ==> FieldAt(StartState(isConnect), buf, i) == FieldOf(StateAt(buf, k, i))
  {
    States(buf, isConnect, k, |buf|);
    assert buf[..|buf|] == buf;
    forall i | 0 <= i < |buf|
      ensures FieldAt(StartState(isConnect), buf, i) == FieldOf(StateAt(buf, k, i))
    {
      States(buf, isConnect, k, i + 1);
    }
    NeverDead(buf, k, |buf| - 1);
  }

  lemma NeverDead(buf: seq<Byte>, k: Cuts, j: nat)
    requires j < |buf|
    ensures !StateAt(buf, k, j).Dead?
  {
  }

  function Min(a: nat, b: nat): nat { if a <= b then a else b }

  /** The field of byte `i`. */
  function PartAt(buf: seq<Byte>, k: Cuts, i: nat): Option<Field>
    requires i < |buf|
  {
    if i < k.authority then (if i + 3 < k.authority then Some(Schema) else None)
    else if i < k.path then Some(Host)
    else if i < k.query then Some(Path)
    else if i < k.fragment then (if i == k.query then None else Some(Query))
    else if Hashes(buf, k.fragment, i + 1) then None
    else Some(Fragment)
  }

  lemma PartOfState(buf: seq<Byte>, k: Cuts, i: nat)
    requires i < |buf|
    ensures FieldOf(StateAt(buf, k, i)) == PartAt(buf, k, i)
  {
    hide Hashes;
  }

  /** The automaton is in the fields that the parts say. */
  predicate Reads(s: State, buf: seq<Byte>, k: Cuts) {
    && k.authority <= k.path <= k.query <= k.fragment && (k.authority == 0 || k.authority > 3) && buf != []
    && forall i :: 0 <= i < |buf| ==> FieldAt(s, buf, i) == PartAt(buf, k, i)
  }

  lemma ShapeReads(buf: seq<Byte>, isConnect: bool, k: Cuts)
    requires Shape(buf, isConnect, k, |buf|) && buf != []
    ensures Reads(StartState(isConnect), buf, k) && !After(StartState(isConnect), buf).Dead?
  {
    hide After, FieldAt, ByteFits, StateAt, FieldOf, PartAt;
    FieldsOf(buf, isConnect, k);
    forall i | 0 <= i < |buf| ensures FieldOf(StateAt(buf, k, i)) == PartAt(buf, k, i) { PartOfState(buf, k, i); }
  }

  lemma HostReads(s: State, buf: seq<Byte>, k: Cuts)
    requires Reads(s, buf, k)
    ensures if k.authority < Min(k.path, |buf|) then Occupies(s, buf, Host, k.authority, Min(k.path, |buf|))
            else Absent(s, buf, Host)
  {
    hide FieldAt, Hashes;
  }

  lemma SchemaReads(s: State, buf: seq<Byte>, k: Cuts)
    requires Reads(s, buf, k)
    ensures Absent(s, buf, Schema) <==> k.authority == 0
  {
    hide FieldAt, Hashes;
    assert FieldAt(s, buf, 0) == PartAt(buf, k, 0);
  }

  lemma PathReads(s: State, buf: seq<Byte>, k: Cuts)
    requires Reads(s, buf, k)
    ensures Absent(s, buf, Path) <==> Min(k.path, |buf|) == Min(k.query, |buf|)
  {
    hide FieldAt, Hashes;
    if k.path < |buf| { assert FieldAt(s, buf, k.path) == PartAt(buf, k, k.path); }
  }

  lemma QueryReads(s: State, buf: seq<Byte>, k: Cuts)
    requires Reads(s, buf, k)
    ensures Absent(s, buf, Query) <==> Min(k.fragment, |buf|) <= Min(k.query, |buf|) + 1
  {
    hide FieldAt, Hashes;
    if k.query + 1 < |buf| { assert FieldAt(s, buf, k.query + 1) == PartAt(buf, k, k.query + 1); }
  }

  lemma FragmentReads(s: State, buf: seq<Byte>, k: Cuts)
    requires Reads(s, buf, k)
    ensures Absent(s, buf, Fragment) <==> k.fragment >= |buf| || Hashes(buf, k.fragment, |buf|)
  {
    hide FieldAt;
    if k.fragment < |buf| {
      var last := |buf| - 1;
      assert FieldAt(s, buf, last) == PartAt(buf, k, last);
    }
  }

  /** An '@' is met exactly inside the authority. */
  lemma {:induction false} AtReads(buf: seq<Byte>, isConnect: bool, k: Cuts, n: nat)
    requires n <= |buf| && Shape(buf, isConnect, k, |buf|)
    ensures HasAt(StartState(isConnect), buf[..n]) <==> exists j :: k.authority <= j < Min(k.path, n) && buf[j] == '@'
    decreases n
  {
    hide ByteFits, After, Hashes, CutsFit;
    if n == 0 {
      assert buf[..0] == [];
    } else {
      AtReads(buf, isConnect, k, n - 1);
      HasAtSnoc(StartState(isConnect), buf, n - 1);
      States(buf, isConnect, k, n);
    }
  }

  /** What is left to decide once the parts are known. */
  lemma UrlAdmitted(buf: seq<Byte>, isConnect: bool, k: Cuts, h: nat, e: nat)
    requires IsUrl(buf, isConnect, k, h, e)
    ensures Admits(buf, isConnect)
  {
    hide After, HasAt, Splits, PortFits, Hashes, Shape, Reads, FieldAt, SchemaText, PathText, QueryText, FragmentText;
    var s := StartState(isConnect);
    UrlShape(buf, isConnect, k, h, e);
    UrlOrder(buf, isConnect, k, h, e);
    ShapeReads(buf, isConnect, k);
    HostReads(s, buf, k);
    SchemaReads(s, buf, k);
    PathReads(s, buf, k);
    QueryReads(s, buf, k);
    FragmentReads(s, buf, k);
    if k.authority < k.path {
      AuthorityBytes(buf, k.authority, k.path, h, e);
      SplitOrder(buf, k.authority, k.path, h, e);
      AtReads(buf, isConnect, k, |buf|);
      assert buf[..|buf|] == buf;
      if h > k.authority { assert buf[h - 1] == '@'; }
      assert HasAt(s, buf) <==> h > k.authority;
      assert AuthorityFits(buf, isConnect, k.authority, k.path, h, e);
      HostThere(s, buf, k.authority, k.path);
    }
  }

  lemma HostThere(s: State, buf: seq<Byte>, a: nat, z: nat)
    requires Occupies(s, buf, Host, a, z)
    ensures !Absent(s, buf, Host)
  {
    hide FieldAt;
    assert FieldAt(s, buf, a) == Some(Host);
  }

  lemma UrlOrder(buf: seq<Byte>, isConnect: bool, k: Cuts, h: nat, e: nat)
    requires IsUrl(buf, isConnect, k, h, e)
    ensures k.authority <= k.path <= k.query <= k.fragment <= |buf|
  {
    hide Splits, PortFits, Hashes;
  }

  // ---------------------------------------------------------------- what is admitted is a URL of the grammar

  /** Parts that are not reached within the first `n` bytes are far away. */
  predicate Lazy(buf: seq<Byte>, k: Cuts, n: nat) {
    && (k.authority <= n + 2 || k.authority >= |buf| + 3)
    && (k.path < n || k.path >= |buf|) && (k.query < n || k.query >= |buf|) && (k.fragment < n || k.fragment >= |buf|)
  }

  /** The parts once byte `i` is read in state `s`. */
  function NextCuts(buf: seq<Byte>, k: Cuts, s: State, i: nat): Cuts
    requires i < |buf|
  {
    var far, c := |buf| + 4, buf[i];
    match s
    case ReqSpacesBeforeUrl => if c == '/' || c == '*' then Cuts(0, 0, far, far) else Cuts(far, far, far, far)
    case ReqSchema => if c == ':' then Cuts(i + 3, far, far, far) else k
    case ReqServerStart | ReqServer | ReqServerWithAt =>
      if c == '/' then k.(path := i) else if c == '?' then k.(path := i, query := i) else k
    case ReqPath => if c == '?' then k.(query := i) else if c == '#' then k.(query := i, fragment := i) else k
    case ReqQueryStringStart | ReqQueryString => if c == '#' then k.(fragment := i) else k
    case _ => k
  }

  /** The parts reached within the first `i` bytes are the same. */
  predicate Agree(k: Cuts, l: Cuts, i: nat) {
    && (k.authority == l.authority || (k.authority >= i + 3 && l.authority >= i + 3) || i == 0)
    && (k.path == l.path || (k.path >= i && l.path >= i))
    && (k.query == l.query || (k.query >= i && l.query >= i))
    && (k.fragment == l.fragment || (k.fragment >= i && l.fragment >= i))
  }

  lemma AgreeFits(buf: seq<Byte>, isConnect: bool, k: Cuts, l: Cuts, i: nat, j: nat)
    requires Agree(k, l, i) && j < i <= |buf| && ByteFits(buf, isConnect, k, j)
    requires CutsFit(isConnect, k) && CutsFit(isConnect, l)
    ensures ByteFits(buf, isConnect, l, j)
  {
    hide IsUrlChar, IsAlpha, IsQueryChar, IsFragmentChar, IsUserinfoChar;
  }

  /** Where the automaton goes on, the parts do. */
  lemma CutsGoOn(buf: seq<Byte>, isConnect: bool, k: Cuts, i: nat)
    requires i < |buf| && CutsFit(isConnect, k) && Lazy(buf, k, i)
    requires i > 0 ==> ByteFits(buf, isConnect, k, i - 1)
    requires i == 0 && isConnect ==> k.path > 0
    requires !ParseUrlChar(StateAfter(buf, isConnect, k, i), buf[i]).Dead?
    ensures var l := NextCuts(buf, k, StateAfter(buf, isConnect, k, i), i);
            CutsFit(isConnect, l) && Lazy(buf, l, i + 1) && Agree(k, l, i) && ByteFits(buf, isConnect, l, i)
  {
    CharKinds(buf[i]);
    hide IsUrlChar, IsAlpha, IsUserinfoChar, Hashes;
  }

  lemma {:induction false} CutsExist(buf: seq<Byte>, isConnect: bool, n: nat) returns (k: Cuts)
    requires n <= |buf| && !After(StartState(isConnect), buf[..n]).Dead?
    ensures Shape(buf, isConnect, k, n) && Lazy(buf, k, n)
    ensures n == 0 && isConnect ==> k.path > 0
  {
    hide ByteFits, StateAfter, ParseUrlChar, CutsFit, Lazy, Agree, NextCuts;
    if n == 0 {
      k := FarCuts(buf, isConnect);
    } else {
      AfterSnoc(StartState(isConnect), buf, n - 1);
      DeadIsDead(buf[n - 1]);
      var l := CutsExist(buf, isConnect, n - 1);
      States(buf, isConnect, l, n - 1);
      CutsGoOn(buf, isConnect, l, n - 1);
      k := NextCuts(buf, l, StateAfter(buf, isConnect, l, n - 1), n - 1);
      forall j | 0 <= j < n - 1 ensures ByteFits(buf, isConnect, k, j) {
        AgreeFits(buf, isConnect, l, k, n - 1, j);
      }
    }
  }

  lemma FarCuts(buf: seq<Byte>, isConnect: bool) returns (k: Cuts)
    ensures CutsFit(isConnect, k) && Lazy(buf, k, 0) && k.path > 0
  {
    var far := |buf| + 4;
    k := Cuts(if isConnect then 0 else far, far, far, far);
  }

  lemma DeadIsDead(c: Byte)
    ensures ParseUrlChar(Dead, c) == Dead
  {
  }

  /** The parts, as far as the bytes go. */
  function Clipped(k: Cuts, n: nat): Cuts {
    Cuts(k.authority, Min(k.path, n), Min(k.query, n), Min(k.fragment, n))
  }

  lemma TextsFit(buf: seq<Byte>, isConnect: bool, k: Cuts)
    requires Shape(buf, isConnect, k, |buf|) && k.authority <= |buf|
    ensures var l := Clipped(k, |buf|);
            && SchemaText(buf, l.authority) && PathText(buf, l.path, l.query) && QueryText(buf, l.query, l.fragment)
            && FragmentText(buf, l.fragment) && (l.path == l.fragment ==> l.fragment == |buf|)
  {
    var l, n := Clipped(k, |buf|), |buf|;
    hide IsUrlChar, IsAlpha, IsUserinfoChar, IsQueryChar, IsFragmentChar;
    var a := k.authority;
    if a > 0 {
      forall i | 0 <= i < a - 3 ensures IsAlpha(buf[i]) { assert ByteFits(buf, isConnect, k, i); }
      assert ByteFits(buf, isConnect, k, a - 3) && ByteFits(buf, isConnect, k, a - 2);
      assert ByteFits(buf, isConnect, k, a - 1);
    }
    forall i | l.path < i < l.query ensures IsUrlChar(buf[i]) { assert ByteFits(buf, isConnect, k, i); }
    forall i | l.query < i < l.fragment ensures IsQueryChar(buf[i]) { assert ByteFits(buf, isConnect, k, i); }
    forall i | l.fragment < i < n ensures IsFragmentChar(buf[i]) { assert ByteFits(buf, isConnect, k, i); }
    if k.path < n { assert ByteFits(buf, isConnect, k, k.path); }
    if k.query < n { assert ByteFits(buf, isConnect, k, k.query); }
    if k.fragment < n { assert ByteFits(buf, isConnect, k, k.fragment); }
  }

  /** The host of what is admitted lies between the parts, and so does its split. */
  lemma HostBetween(buf: seq<Byte>, isConnect: bool, k: Cuts, a: nat, z: nat, h: nat, e: nat)
    requires Shape(buf, isConnect, k, |buf|) && buf != [] && AuthorityFits(buf, isConnect, a, z, h, e)
    ensures k.authority < Min(k.path, |buf|) && a == k.authority && z == Min(k.path, |buf|)
    ensures Splits(buf, h > a, a, z, h, e) && (HasAt(StartState(isConnect), buf) <==> h > a)
  {
    hide FieldAt, Shape, HasAt, HostText, PortText, AllIn, Reads, PortFits;
    var s := StartState(isConnect);
    ShapeReads(buf, isConnect, k);
    HostReads(s, buf, k);
    HostThere(s, buf, a, z);
    OccupiesOnce(s, buf, Host, a, z, k.authority, Min(k.path, |buf|));
  }

  lemma AdmittedUrl(buf: seq<Byte>, isConnect: bool)
    requires Admits(buf, isConnect)
    ensures Accepts(buf, isConnect)
  {
    hide After, HasAt, Splits, PortFits, Hashes, Shape, Reads, FieldAt, SchemaText, PathText, QueryText, FragmentText,
      Occupies, Absent, CutsFit;
    var s, n := StartState(isConnect), |buf|;
    assert buf[..n] == buf;
    var k := CutsExist(buf, isConnect, n);
    var l := Clipped(k, n);
    ShapeReads(buf, isConnect, k);
    HostReads(s, buf, k);
    SchemaReads(s, buf, k);
    PathReads(s, buf, k);
    QueryReads(s, buf, k);
    FragmentReads(s, buf, k);
    ShapeCuts(buf, isConnect, k);
    if Absent(s, buf, Host) {
      TextsFit(buf, isConnect, k);
      assert IsUrl(buf, isConnect, l, 0, 0);
    } else {
      var a: nat, z: nat, h: nat, e: nat :| AuthorityFits(buf, isConnect, a, z, h, e);
      HostBetween(buf, isConnect, k, a, z, h, e);
      TextsFit(buf, isConnect, k);
      NoHashes(buf);
      assert IsUrl(buf, isConnect, l, h, e);
    }
  }

  lemma NoHashes(buf: seq<Byte>)
    ensures Hashes(buf, |buf|, |buf|)
  {
  }

  lemma ShapeCuts(buf: seq<Byte>, isConnect: bool, k: Cuts)
    requires Shape(buf, isConnect, k, |buf|)
    ensures CutsFit(isConnect, k) && k.authority <= k.path <= k.query <= k.fragment
    ensures (isConnect ==> k.authority == 0) && (!isConnect && k.authority == 0 ==> k.path == 0 < k.query)
  {
    hide ByteFits;
  }

  /** The automata with the checks behind them accept exactly the URLs of the grammar. */
  lemma AcceptsIsAdmits(buf: seq<Byte>, isConnect: bool)
    ensures Accepts(buf, isConnect) <==> Admits(buf, isConnect)
  {
    hide Admits, IsUrl;
    if Admits(buf, isConnect) { AdmittedUrl(buf, isConnect); }
    if k, h, e :| IsUrl(buf, isConnect, k, h, e) { UrlAdmitted(buf, isConnect, k, h, e); }
  }

  // ---------------------------------------------------------------- where the fields of a URL lie

  /** The field `f` is buf[i..j], or missing if that is empty. */
  predicate LiesAt(u: Url, f: Field, i: nat, j: nat)
    requires HasRoom(u)
  {
    if i < j then f in u.fieldSet && u.data[f] == Span(i, j - i) else f !in u.fieldSet
  }

  /** The first byte from `i` on that is no '#'. */
  function BehindHashes(buf: seq<Byte>, i: nat): (m: nat)
    requires i <= |buf|
    ensures i <= m <= |buf| && Hashes(buf, i, m) && (m < |buf| ==> buf[m] != '#')
    decreases |buf| - i
  {
    if i < |buf| && buf[i] == '#' then BehindHashes(buf, i + 1) else i
  }

  function SchemaEnd(k: Cuts): nat { if k.authority > 3 then k.authority - 3 else 0 }

  /** Every field lies where the parts say, without its delimiters. */
  ghost predicate FieldsLie(buf: seq<Byte>, k: Cuts, h: nat, e: nat, u: Url)
    requires HasRoom(u) && k.fragment <= |buf|
  {
    && LiesAt(u, Schema, 0, SchemaEnd(k)) && LiesAt(u, Path, k.path, k.query)
    && LiesAt(u, Query, k.query + 1, k.fragment)
    && LiesAt(u, Fragment, BehindHashes(buf, k.fragment), |buf|)
    && (if k.authority < k.path then
          && UserinfoLies(buf, u, h > k.authority, k.authority, h) && HostLies(buf, u, h, e)
          && PortLies(buf, u, e, k.path)
        else Host !in u.fieldSet && Userinfo !in u.fieldSet && Port !in u.fieldSet)
  }

  lemma OccupiesSchema(s: State, buf: seq<Byte>, k: Cuts)
    requires Reads(s, buf, k) && 0 < k.authority <= |buf|
    ensures Occupies(s, buf, Schema, 0, k.authority - 3)
  {
    hide FieldAt, Hashes;
  }

  lemma OccupiesPath(s: State, buf: seq<Byte>, k: Cuts)
    requires Reads(s, buf, k) && k.path < k.query <= |buf|
    ensures Occupies(s, buf, Path, k.path, k.query)
  {
    hide FieldAt, Hashes;
  }

  lemma OccupiesQuery(s: State, buf: seq<Byte>, k: Cuts)
    requires Reads(s, buf, k) && k.query + 1 < k.fragment <= |buf|
    ensures Occupies(s, buf, Query, k.query + 1, k.fragment)
  {
    hide FieldAt, Hashes;
  }

  lemma OccupiesFragment(s: State, buf: seq<Byte>, k: Cuts)
    requires Reads(s, buf, k) && k.fragment <= |buf|
    ensures var m := BehindHashes(buf, k.fragment);
            if m < |buf| then Occupies(s, buf, Fragment, m, |buf|) else Absent(s, buf, Fragment)
  {
    hide FieldAt;
    var m := BehindHashes(buf, k.fragment);
    forall i | 0 <= i < |buf| ensures FieldAt(s, buf, i) == Some(Fragment) <==> m <= i {
      assert FieldAt(s, buf, i) == PartAt(buf, k, i);
      if k.fragment <= i < m { assert Hashes(buf, k.fragment, i + 1); }
    }
  }

  lemma PartLiesAt(buf: seq<Byte>, isConnect: bool, parts: Url, f: Field, i: nat, j: nat)
    requires PartsOf(buf, isConnect, parts) && IsPart(f)
    requires if i < j then Occupies(StartState(isConnect), buf, f, i, j) else Absent(StartState(isConnect), buf, f)
    ensures HasRoom(parts) && LiesAt(parts, f, i, j)
  {
    hide FieldAt, Occupies, PartsOf;
    var s := StartState(isConnect);
    PartLies(buf, isConnect, parts, f);
    PresentAbsent(buf, isConnect);
    if f in parts.fieldSet && i < j {
      OccupiesOnce(s, buf, f, i, j, parts.data[f].off, parts.data[f].End());
    }
  }

  /** The automaton finds the parts of the grammar. */
  lemma PartsLieAt(buf: seq<Byte>, isConnect: bool, k: Cuts, h: nat, e: nat, parts: Url)
    requires IsUrl(buf, isConnect, k, h, e) && PartsOf(buf, isConnect, parts)
    ensures HasRoom(parts) && k.authority <= k.path <= k.query <= k.fragment <= |buf|
    ensures LiesAt(parts, Schema, 0, SchemaEnd(k))
    ensures LiesAt(parts, Host, k.authority, k.path) && LiesAt(parts, Path, k.path, k.query)
    ensures LiesAt(parts, Query, k.query + 1, k.fragment)
    ensures LiesAt(parts, Fragment, BehindHashes(buf, k.fragment), |buf|)
  {
    hide PartsOf, IsUrl, Occupies, Absent, FieldAt, Shape, After, Hashes, LiesAt;
    var s := StartState(isConnect);
    UrlShape(buf, isConnect, k, h, e);
    UrlOrder(buf, isConnect, k, h, e);
    ShapeReads(buf, isConnect, k);
    UrlAuthority(buf, isConnect, k, h, e);
    HostReads(s, buf, k);
    SchemaReads(s, buf, k);
    PathReads(s, buf, k);
    QueryReads(s, buf, k);
    if k.authority > 0 { OccupiesSchema(s, buf, k); }
    if k.path < k.query { OccupiesPath(s, buf, k); }
    if k.query + 1 < k.fragment { OccupiesQuery(s, buf, k); }
    OccupiesFragment(s, buf, k);
    hide Reads;
    PartLiesAt(buf, isConnect, parts, Schema, 0, SchemaEnd(k));
    PartLiesAt(buf, isConnect, parts, Host, k.authority, k.path);
    PartLiesAt(buf, isConnect, parts, Path, k.path, k.query);
    PartLiesAt(buf, isConnect, parts, Query, k.query + 1, k.fragment);
    PartLiesAt(buf, isConnect, parts, Fragment, BehindHashes(buf, k.fragment), |buf|);
  }

  lemma UrlAuthority(buf: seq<Byte>, isConnect: bool, k: Cuts, h: nat, e: nat)
    requires IsUrl(buf, isConnect, k, h, e)
    ensures k.authority == 0 || k.authority > 3
    ensures k.authority < k.path ==> Splits(buf, h > k.authority, k.authority, k.path, h, e)
  {
    hide Splits, PortFits, PathText, QueryText, FragmentText, Hashes;
  }

  /** And the fields of the parsed URL lie where the grammar says. */
  lemma UrlFieldsLie(buf: seq<Byte>, isConnect: bool, k: Cuts, h: nat, e: nat, parts: Url, u: Url)
    requires IsUrl(buf, isConnect, k, h, e) && PartsOf(buf, isConnect, parts) && HasRoom(parts) && HasRoom(u)
    requires UrlLies(buf, isConnect, parts, u) && Port !in parts.fieldSet && Userinfo !in parts.fieldSet
    ensures k.fragment <= |buf| && FieldsLie(buf, k, h, e, u)
  {
    hide PartsOf, IsUrl, UserinfoLies, HostLies, PortLies, HasAt, AuthorityLies, PortDigits, AllNum, Value;
    PartsLieAt(buf, isConnect, k, h, e, parts);
    hide Hashes;
    if k.authority < k.path { OwnSplit(buf, isConnect, k, h, e, u); }
  }

  lemma OwnSplit(buf: seq<Byte>, isConnect: bool, k: Cuts, h: nat, e: nat, u: Url)
    requires IsUrl(buf, isConnect, k, h, e) && k.authority < k.path && HasRoom(u)
    requires AuthorityLies(buf, u, HasAt(StartState(isConnect), buf), k.authority, k.path)
    ensures UserinfoLies(buf, u, h > k.authority, k.authority, h) && HostLies(buf, u, h, e)
    ensures PortLies(buf, u, e, k.path)
  {
    hide IsUrl, UserinfoLies, HostLies, PortLies, HasAt, Splits;
    var s, a, z := StartState(isConnect), k.authority, k.path;
    var h', e' :| UserinfoLies(buf, u, HasAt(s, buf), a, h') && HostLies(buf, u, h', e') && PortLies(buf, u, e', z);
    LiesTexts(buf, u, HasAt(s, buf), a, z, h', e');
    UrlAt(buf, isConnect, k, h, e);
    UrlAuthority(buf, isConnect, k, h, e);
    SplitsUnique(buf, h > a, a, z, h, e, h', e');
  }

  /** The port is the number its digits say, or 0 if there is none. */
  predicate PortIs(buf: seq<Byte>, u: Url)
    requires HasRoom(u)
  {
    if Port in u.fieldSet then
      u.data[Port].End() <= |buf| && AllNum(PortDigits(buf, u)) && u.port == Value(PortDigits(buf, u)) <= 0xffff
    else u.port == 0
  }

  lemma AllFieldsLie(buf: seq<Byte>, isConnect: bool, parts: Url, u: Url)
    requires PartsOf(buf, isConnect, parts) && HasRoom(parts) && HasRoom(u)
    requires UrlLies(buf, isConnect, parts, u) && Port !in parts.fieldSet && Userinfo !in parts.fieldSet
    ensures forall k, h, e :: IsUrl(buf, isConnect, k, h, e) ==> k.fragment <= |buf| && FieldsLie(buf, k, h, e, u)
    ensures PortIs(buf, u)
  {
    hide PartsOf, IsUrl, FieldsLie, AuthorityLies, AllNum, Value;
    forall k, h, e | IsUrl(buf, isConnect, k, h, e) ensures k.fragment <= |buf| && FieldsLie(buf, k, h, e, u) {
      UrlFieldsLie(buf, isConnect, k, h, e, parts, u);
    }
  }

  lemma LiesTexts(buf: seq<Byte>, u: Url, foundAt: bool, a: nat, z: nat, h: nat, e: nat)
    requires UserinfoLies(buf, u, foundAt, a, h) && HostLies(buf, u, h, e) && PortLies(buf, u, e, z)
    ensures Splits(buf, foundAt, a, z, h, e)
  {
    hide UserinfoText, HostText, PortText;
  }

  lemma UrlAt(buf: seq<Byte>, isConnect: bool, k: Cuts, h: nat, e: nat)
    requires IsUrl(buf, isConnect, k, h, e) && k.authority < k.path
    ensures HasAt(StartState(isConnect), buf) <==> h > k.authority
  {
    UrlShape(buf, isConnect, k, h, e);
    UrlOrder(buf, isConnect, k, h, e);
    UrlAuthority(buf, isConnect, k, h, e);
    hide IsUrl, Shape, HasAt, Splits;
    AuthorityBytes(buf, k.authority, k.path, h, e);
    SplitOrder(buf, k.authority, k.path, h, e);
    AtReads(buf, isConnect, k, |buf|);
    assert buf[..|buf|] == buf;
    if h > k.authority { assert buf[h - 1] == '@'; }
  }


  /** The authority ends within the reach of 16-bit offsets. */
  predicate InReach(buf: seq<Byte>, isConnect: bool) {
    forall i :: UINT16_RANGE - 1 <= i < |buf| ==> FieldAt(StartState(isConnect), buf, i) != Some(Host)
  }

  /** For a URL of the grammar that is a matter of where its path begins. */
  lemma InReachExactlyWhen(buf: seq<Byte>, isConnect: bool, k: Cuts, h: nat, e: nat)
    requires IsUrl(buf, isConnect, k, h, e)
    ensures InReach(buf, isConnect) <==> k.authority == k.path || k.path < UINT16_RANGE
  {
    UrlShape(buf, isConnect, k, h, e);
    UrlOrder(buf, isConnect, k, h, e);
    ShapeReads(buf, isConnect, k);
    hide IsUrl, Shape, FieldAt, Hashes;
    assert forall i :: 0 <= i < |buf| ==> FieldAt(StartState(isConnect), buf, i) == PartAt(buf, k, i);
    if k.authority < k.path && k.path >= UINT16_RANGE { assert PartAt(buf, k, k.path - 1) == Some(Host); }
  }

  lemma WindowFits(buf: seq<Byte>, isConnect: bool, parts: Url)
    requires PartsOf(buf, isConnect, parts) && HasRoom(parts) && Host in parts.fieldSet && InReach(buf, isConnect)
    ensures parts.data[Host].End() < UINT16_RANGE && Kept(parts.data[Host]) == parts.data[Host]
  {
    PartLies(buf, isConnect, parts, Host);
    hide FieldAt, PartsOf;
    var last := parts.data[Host].End() - 1;
    assert FieldAt(StartState(isConnect), buf, last) == Some(Host);
  }

  /** Whatever was kept of the port, it lies in the buffer; and it is the port, if the authority is in reach. */
  lemma PortWindow(buf: seq<Byte>, u: Url, whole: Url, foundAt: bool, a: nat, z: nat)
    requires Wraps(u, whole) && Port in u.fieldSet && AuthorityLies(buf, whole, foundAt, a, z)
    ensures u.data[Port].End() <= |buf| && HasRoom(whole)
    ensures z < UINT16_RANGE ==> u.data[Port] == whole.data[Port]
  {
    hide UserinfoLies, HostLies;
  }

  /** http_parser_parse_url, for a URL of any length. If its authority is in reach of 16-bit offsets, it accepts exactly
      the URLs of the grammar, and then what is stored is what 16 bits keep of `whole`, in which every field lies where
      the grammar says, however the URL is read. */
  method ParseUrl(buf: seq<Byte>, isConnect: bool, was: Url) returns (ok: bool, u: Url, ghost whole: Url)
    requires HasRoom(was)
    ensures InReach(buf, isConnect) ==> (ok <==> Accepts(buf, isConnect))
    ensures ok ==> Wraps(u, whole)
    ensures ok && InReach(buf, isConnect) ==>
              && PortIs(buf, whole)
              && forall k, h, e :: IsUrl(buf, isConnect, k, h, e) ==>
                                     k.fragment <= |buf| && FieldsLie(buf, k, h, e, whole)
    ensures ok && isConnect ==> u.fieldSet == {Host, Port}
  {
    hide After, HasAt, HostAfter, PartsOf, AuthorityLies, Admits, Accepts, Located, IsUrl, FieldsLie, InReach,
      AllLocated, Skipped, Ordered, PortIs;
    AcceptsIsAdmits(buf, isConnect);
    u, whole := was, was;
    Refusals(buf, isConnect);
    if |buf| == 0 { return false, u, whole; }
    var good, foundAt;
    good, u, foundAt, whole := FindParts(buf, isConnect, was.(port := 0, fieldSet := {}));
    ghost var parts := whole;
    if !good { return false, u, whole; }
    PartsFound(buf, isConnect, parts);
    if Host !in u.fieldSet { NoHost(buf, isConnect, parts); }
    if Schema in u.fieldSet && Host !in u.fieldSet { return false, u, whole; }
    if Host in u.fieldSet {
      ghost var window := u.data[Host];
      if InReach(buf, isConnect) { WindowFits(buf, isConnect, parts); }
      good, u, whole := ParseHost(buf, u, foundAt, parts);
      if !good {
        if InReach(buf, isConnect) { BadHost(buf, isConnect, parts); }
        return false, u, whole;
      }
      if Port in u.fieldSet { PortWindow(buf, u, whole, foundAt, window.off, window.End()); }
      if InReach(buf, isConnect) { GoodHost(buf, isConnect, parts, whole); }
    }
    if isConnect && u.fieldSet != {Host, Port} { return false, u, whole; }
    if Port in u.fieldSet {
      var v := ParsePort(buf, u.data[Port]);
      if v.None? { return false, u, whole; }
      if InReach(buf, isConnect) {
        PortElsewhere(buf, whole, foundAt, parts.data[Host].off, parts.data[Host].End(), v.value);
      }
      u, whole := u.(port := v.value), whole.(port := v.value);
    }
    if InReach(buf, isConnect) { AllFieldsLie(buf, isConnect, parts, whole); }
    ok := true;
  }

  function Slashes(n: nat): (buf: seq<Byte>)
    ensures |buf| == n && forall i :: 0 <= i < n ==> buf[i] == '/'
  {
    seq(n, _ => '/')
  }

  lemma SlashesAreUrl()
    ensures IsUrl(Slashes(UINT16_RANGE), false, Cuts(0, 0, UINT16_RANGE, UINT16_RANGE), 0, 0)
  {
    CharKinds('/');
    hide IsUrlChar, IsAlpha;
  }

  /** A URL of 65536 slashes is accepted, and its path is stored with length 0. */
  method LongPathVanishes(was: Url) returns (u: Url)
    requires HasRoom(was)
    ensures HasRoom(u) && Path in u.fieldSet && u.data[Path] == Span(0, 0)
  {
    var buf := Slashes(UINT16_RANGE);
    ghost var k := Cuts(0, 0, UINT16_RANGE, UINT16_RANGE);
    hide IsUrl, InReach, Slashes;
    SlashesAreUrl();
    InReachExactlyWhen(buf, false, k, 0, 0);
    ghost var whole;
    var ok;
    ok, u, whole := ParseUrl(buf, false, was);
    assert FieldsLie(buf, k, 0, 0, whole);
  }
}
