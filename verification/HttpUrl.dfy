// http_parser_parse_url and http_parse_host: the URL automaton turned into field offsets.

module HttpUrl {
  import opened Words
  import opened Digits
  import opened HttpChars
  import opened HttpParser
  import opened HttpNumbers

  datatype Field = Schema | Host | Port | Path | Query | Fragment | Userinfo

  /** Where a field lies: two uint16_t. */
  datatype Span = Span(off: nat, len: nat) {
    function End(): nat { off + len }
  }

  /** struct http_parser_url. Entries of `data` outside `fieldSet` are whatever they were before. */
  datatype Url = Url(fieldSet: set<Field>, port: nat, data: map<Field, Span>)

  predicate HasRoom(u: Url) { forall f: Field :: f in u.data }

  /** A span as two 16-bit words keep it. */
  function Kept(d: Span): Span { Span(d.off % UINT16_RANGE, d.len % UINT16_RANGE) }

  function Stored(u: Url): Url { u.(data := map f | f in u.data :: Kept(u.data[f])) }

  /** `u` holds what 16 bits keep of `whole`. */
  predicate Wraps(u: Url, whole: Url) {
    && HasRoom(u) && HasRoom(whole) && u.port == whole.port && u.fieldSet == whole.fieldSet
    && forall f <- u.fieldSet :: u.data[f] == Kept(whole.data[f])
  }

  /** A field is stored as it is if and only if its offset and its length are below 2^16. */
  lemma KeptExactlyWhen(u: Url, whole: Url, f: Field)
    requires Wraps(u, whole) && f in u.fieldSet
    ensures u.data[f] == whole.data[f] <==> whole.data[f].off < UINT16_RANGE && whole.data[f].len < UINT16_RANGE
  {
  }

  // ---------------------------------------------------------------- the URL automaton

  /** The state after `bytes`; a dead state stays dead. */
  function After(s: State, bytes: seq<Byte>): State {
    if bytes == [] then s else ParseUrlChar(After(s, bytes[..|bytes| - 1]), bytes[|bytes| - 1])
  }

  function StartState(isConnect: bool): State { if isConnect then ReqServerStart else ReqSpacesBeforeUrl }

  /** The field a byte belongs to, from the state it leads to; None for a delimiter. */
  function FieldOf(s: State): Option<Field> {
    match s
    case ReqSchema => Some(Schema)
    case ReqServer | ReqServerWithAt => Some(Host)
    case ReqPath => Some(Path)
    case ReqQueryString => Some(Query)
    case ReqFragment => Some(Fragment)
    case _ => None
  }

  function FieldAt(s: State, buf: seq<Byte>, i: nat): Option<Field>
    requires i < |buf|
  {
    FieldOf(After(s, buf[..i + 1]))
  }

  /** Whether the automaton has met an '@' in the authority. */
  predicate HasAt(s: State, bytes: seq<Byte>) {
    bytes != [] && (HasAt(s, bytes[..|bytes| - 1]) || After(s, bytes).ReqServerWithAt?)
  }

  /** How far a state is along a URL. */
  function Level(s: State): nat {
    match s
    case ReqSchema => 1
    case ReqSchemaSlash => 2
    case ReqSchemaSlashSlash => 3
    case ReqServerStart => 4
    case ReqServer | ReqServerWithAt => 5
    case ReqPath => 6
    case ReqQueryStringStart => 7
    case ReqQueryString => 8
    case ReqFragmentStart => 9
    case ReqFragment => 10
    case _ => 0
  }

  function FieldLevel(f: Field): nat {
    match f
    case Schema => 1
    case Host => 5
    case Path => 6
    case Query => 8
    case Fragment => 10
    case _ => 11
  }

  predicate IsDelimiter(ch: Byte) { ch == ':' || ch == '/' || ch == '?' || ch == '#' }

  predicate UrlReached(s: State) { s.ReqSpacesBeforeUrl? || OpenKind(s) == Some(UrlData) }

  /** The automaton only moves forward, a field is left for good, and what it skips is a delimiter. */
  lemma Forward(s: State, ch: Byte)
    requires UrlReached(s) && !ParseUrlChar(s, ch).Dead?
    ensures var n := ParseUrlChar(s, ch);
            && UrlReached(n) && Level(n) >= Level(s) && Level(n) > 0
            && (Level(n) == Level(s) ==> FieldOf(n) == FieldOf(s))
            && (FieldOf(n).Some? ==> FieldLevel(FieldOf(n).value) == Level(n) <= 10)
            && (FieldOf(n).None? ==> IsDelimiter(ch))
  {
    hide IsUserinfoChar, IsUrlChar, Lower;
  }

  lemma AfterSnoc(s: State, buf: seq<Byte>, p: nat)
    requires p < |buf|
    ensures After(s, buf[..p + 1]) == ParseUrlChar(After(s, buf[..p]), buf[p])
  {
    assert buf[..p + 1][..p] == buf[..p];
  }

  lemma {:induction false} DeadStays(s: State, buf: seq<Byte>, p: nat)
    requires p <= |buf| && After(s, buf[..p]).Dead?
    ensures After(s, buf).Dead?
    decreases |buf| - p
  {
    if p == |buf| {
      assert buf[..p] == buf;
    } else {
      AfterSnoc(s, buf, p);
      DeadStays(s, buf, p + 1);
    }
  }

  // ---------------------------------------------------------------- the fields found so far

  /** Field `f` is exactly where the automaton was in it, within the first `p` bytes. */
  predicate Located(s: State, buf: seq<Byte>, p: nat, u: Url, f: Field)
    requires p <= |buf| && f in u.data
  {
    if f in u.fieldSet then
      var d := u.data[f];
      && 0 < d.len && d.End() <= p
      && forall i :: 0 <= i < p ==> (FieldAt(s, buf, i) == Some(f) <==> d.off <= i < d.End())
    else forall i :: 0 <= i < p ==> FieldAt(s, buf, i) != Some(f)
  }

  predicate IsPart(f: Field) { f != Port && f != Userinfo }

  ghost predicate AllLocated(s: State, buf: seq<Byte>, p: nat, u: Url)
    requires p <= |buf|
  {
    HasRoom(u) && forall f: Field :: IsPart(f) ==> Located(s, buf, p, u, f)
  }

  predicate Skipped(s: State, buf: seq<Byte>, p: nat)
    requires p <= |buf|
  {
    forall i :: 0 <= i < p ==> FieldAt(s, buf, i).None? ==> IsDelimiter(buf[i])
  }

  /** The fields lie in the order of a URL. */
  ghost predicate Ordered(u: Url) {
    HasRoom(u)
    && forall f, g :: f in u.fieldSet && g in u.fieldSet && FieldLevel(f) < FieldLevel(g) ==>
                        u.data[f].End() <= u.data[g].off
  }

  /** `lastField` is the last field met, and the current one if there is a current one. */
  ghost predicate Recent(now: State, p: nat, u: Url, lastField: Option<Field>) {
    && HasRoom(u) && UrlReached(now)
    && (forall f <- u.fieldSet :: IsPart(f) && FieldLevel(f) <= Level(now))
    && (lastField.None? ==> u.fieldSet == {})
    && (lastField.Some? ==> lastField.value in u.fieldSet)
    && (forall f <- u.fieldSet :: lastField.Some? && FieldLevel(f) <= FieldLevel(lastField.value))
    && (FieldOf(now).Some? && p > 0 ==> FieldOf(now).value in u.fieldSet && u.data[FieldOf(now).value].End() == p)
  }

  /** What the first loop of http_parser_parse_url knows after `p` bytes. */
  ghost predicate Found(s: State, buf: seq<Byte>, p: nat, u: Url, lastField: Option<Field>, foundAt: bool)
    requires p <= |buf|
  {
    && Recent(After(s, buf[..p]), p, u, lastField)
    && AllLocated(s, buf, p, u)
    && Skipped(s, buf, p)
    && Ordered(u)
    && foundAt == HasAt(s, buf[..p])
  }

  /** The update for byte `p`. */
  function Placed(u: Url, uf: Field, lastField: Option<Field>, p: nat): Url
    requires uf in u.data
  {
    if lastField == Some(uf)
    then u.(data := u.data[uf := Span(u.data[uf].off, u.data[uf].len + 1)])
    else u.(data := u.data[uf := Span(p, 1)], fieldSet := u.fieldSet + {uf})
  }

  lemma PlacedWraps(u: Url, whole: Url, uf: Field, lastField: Option<Field>, p: nat)
    requires Wraps(u, whole) && (lastField == Some(uf) ==> uf in u.fieldSet)
    ensures Wraps(Stored(Placed(u, uf, lastField, p)), Placed(whole, uf, lastField, p))
  {
    hide Kept;
    var v, w := Placed(u, uf, lastField, p), Placed(whole, uf, lastField, p);
    if lastField == Some(uf) { KeptLonger(whole.data[uf]); }
    forall f <- v.fieldSet ensures Kept(v.data[f]) == Kept(w.data[f]) {
      KeptTwice(whole.data[f]);
    }
  }

  lemma KeptTwice(d: Span)
    ensures Kept(Kept(d)) == Kept(d)
  {
  }

  lemma KeptLonger(d: Span)
    ensures Kept(Span(Kept(d).off, Kept(d).len + 1)) == Kept(Span(d.off, d.len + 1))
  {
  }

  lemma KeptMoved(d: Span, p: nat)
    ensures Kept(Span(p, Kept(d).len + 1)) == Kept(Span(p, d.len + 1))
  {
  }

  lemma SkippedSnoc(s: State, buf: seq<Byte>, p: nat)
    requires p < |buf| && Skipped(s, buf, p) && (FieldAt(s, buf, p).None? ==> IsDelimiter(buf[p]))
    ensures Skipped(s, buf, p + 1)
  {
    hide FieldAt, IsDelimiter;
  }

  lemma HasAtSnoc(s: State, buf: seq<Byte>, p: nat)
    requires p < |buf|
    ensures HasAt(s, buf[..p + 1]) <==> HasAt(s, buf[..p]) || After(s, buf[..p + 1]).ReqServerWithAt?
  {
    hide After;
    assert buf[..p + 1][..p] == buf[..p];
  }

  lemma RecentDelimiter(was: State, now: State, p: nat, u: Url, lastField: Option<Field>)
    requires Recent(was, p, u, lastField) && FieldOf(now).None? && UrlReached(now) && Level(now) >= Level(was)
    ensures Recent(now, p + 1, u, lastField)
  {
    hide FieldOf, Level, FieldLevel;
  }

  lemma FoundDelimiter(s: State, buf: seq<Byte>, p: nat, u: Url, lastField: Option<Field>, foundAt: bool)
    requires p < |buf| && Found(s, buf, p, u, lastField, foundAt)
    requires !After(s, buf[..p + 1]).Dead? && FieldOf(After(s, buf[..p + 1])).None?
    ensures Found(s, buf, p + 1, u, lastField, foundAt)
  {
    hide ParseUrlChar, After, IsDelimiter, Ordered, Located, Skipped, HasAt, Level, FieldLevel;
    var was, now := After(s, buf[..p]), After(s, buf[..p + 1]);
    AfterSnoc(s, buf, p);
    Forward(was, buf[p]);
    SkippedSnoc(s, buf, p);
    HasAtSnoc(s, buf, p);
    RecentDelimiter(was, now, p, u, lastField);
    assert AllLocated(s, buf, p + 1, u) by {
      forall f: Field | IsPart(f) ensures Located(s, buf, p + 1, u, f) { LocatedDelimiter(s, buf, p, u, f); }
    }
  }

  lemma LocatedDelimiter(s: State, buf: seq<Byte>, p: nat, u: Url, f: Field)
    requires p < |buf| && f in u.data && Located(s, buf, p, u, f) && FieldAt(s, buf, p).None?
    ensures Located(s, buf, p + 1, u, f)
  {
    hide FieldAt;
  }

  lemma SameLevel(f: Field, g: Field)
    ensures IsPart(f) && IsPart(g) && FieldLevel(f) == FieldLevel(g) ==> f == g
  {
  }

  lemma PartLevel(s: State)
    ensures FieldOf(s).Some? ==> IsPart(FieldOf(s).value)
  {
  }

  /** A field that was met before is the one that is being read. */
  lemma StillReading(was: State, now: State, p: nat, u: Url, lastField: Option<Field>, uf: Field)
    requires Recent(was, p, u, lastField) && uf in u.fieldSet && FieldOf(now) == Some(uf)
    requires Level(now) >= Level(was) && FieldLevel(uf) == Level(now)
    requires Level(now) == Level(was) ==> FieldOf(was) == Some(uf)
    ensures lastField == Some(uf)
    ensures p > 0 ==> u.data[uf].End() == p
  {
    hide FieldOf, Level, FieldLevel;
    SameLevel(uf, lastField.value);
  }

  lemma RecentField(was: State, now: State, p: nat, u: Url, lastField: Option<Field>, uf: Field)
    requires Recent(was, p, u, lastField) && FieldOf(now) == Some(uf) && UrlReached(now)
    requires Level(now) >= Level(was) && FieldLevel(uf) == Level(now) && IsPart(uf)
    requires uf in u.fieldSet ==> lastField == Some(uf) && u.data[uf].End() == p
    ensures Recent(now, p + 1, Placed(u, uf, lastField, p), Some(uf))
  {
    hide FieldOf, Level, FieldLevel;
  }

  lemma LocatedField(s: State, buf: seq<Byte>, p: nat, u: Url, lastField: Option<Field>, uf: Field, f: Field)
    requires p < |buf| && HasRoom(u) && IsPart(f) && Located(s, buf, p, u, f)
    requires FieldAt(s, buf, p) == Some(uf)
    requires uf in u.fieldSet <==> lastField == Some(uf)
    requires uf in u.fieldSet ==> u.data[uf].End() == p
    ensures Located(s, buf, p + 1, Placed(u, uf, lastField, p), f)
  {
    hide FieldAt;
  }

  lemma OrderedField(s: State, buf: seq<Byte>, p: nat, u: Url, lastField: Option<Field>, uf: Field)
    requires p < |buf| && Ordered(u) && AllLocated(s, buf, p, u)
    requires forall f <- u.fieldSet :: IsPart(f)
    requires uf in u.fieldSet <==> lastField == Some(uf)
    requires uf in u.fieldSet ==> u.data[uf].End() == p
    requires forall f <- u.fieldSet :: FieldLevel(f) <= FieldLevel(uf)
    ensures Ordered(Placed(u, uf, lastField, p))
  {
    hide FieldAt, FieldLevel;
    assert forall f <- u.fieldSet :: Located(s, buf, p, u, f) && u.data[f].End() <= p;
  }

  /** One more byte of a field. */
  lemma FoundField(s: State, buf: seq<Byte>, p: nat, u: Url, lastField: Option<Field>, foundAt: bool, uf: Field)
    requires p < |buf| && Found(s, buf, p, u, lastField, foundAt)
    requires !After(s, buf[..p + 1]).Dead? && FieldOf(After(s, buf[..p + 1])) == Some(uf)
    ensures Found(s, buf, p + 1, Placed(u, uf, lastField, p), Some(uf),
                  foundAt || After(s, buf[..p + 1]).ReqServerWithAt?)
  {
    hide ParseUrlChar, After, Located, Ordered, Skipped, HasAt, FieldOf, Level, FieldLevel, Placed;
    var was, now := After(s, buf[..p]), After(s, buf[..p + 1]);
    AfterSnoc(s, buf, p);
    Forward(was, buf[p]);
    PartLevel(now);
    SkippedSnoc(s, buf, p);
    HasAtSnoc(s, buf, p);
    if uf in u.fieldSet {
      StillReading(was, now, p, u, lastField, uf);
      if p == 0 { assert Located(s, buf, p, u, uf); NothingYet(s, buf, u, uf); }
    }
    RecentField(was, now, p, u, lastField, uf);
    OrderedField(s, buf, p, u, lastField, uf);
    var v := Placed(u, uf, lastField, p);
    PlacedHasRoom(u, uf, lastField, p);
    assert AllLocated(s, buf, p + 1, v) by {
      forall f: Field | IsPart(f) ensures Located(s, buf, p + 1, v, f) {
        LocatedField(s, buf, p, u, lastField, uf, f);
      }
    }
  }

  lemma PlacedHasRoom(u: Url, uf: Field, lastField: Option<Field>, p: nat)
    requires HasRoom(u)
    ensures HasRoom(Placed(u, uf, lastField, p))
  {
  }

  lemma NothingYet(s: State, buf: seq<Byte>, u: Url, f: Field)
    requires f in u.data && Located(s, buf, 0, u, f)
    ensures f !in u.fieldSet
  {
  }

  // ---------------------------------------------------------------- the authority

  datatype HostState =
    | HostDead
    | UserinfoStart
    | InUserinfo
    | HostStart
    | V6Start
    | InHost
    | InV6
    | V6End
    | V6ZoneStart
    | InV6Zone
    | PortStart
    | InPort

  predicate IsZoneChar(ch: Byte) { IsAlphaNum(ch) || ch == '%' || ch == '.' || ch == '-' || ch == '_' || ch == '~' }

  /** http_parse_host_char. */
  function ParseHostChar(s: HostState, ch: Byte): HostState {
    match s
    case UserinfoStart | InUserinfo =>
      if ch == '@' then HostStart else if IsUserinfoChar(ch) then InUserinfo else HostDead
    case HostStart => if ch == '[' then V6Start else if IsHostChar(ch) then InHost else HostDead
    case InHost => if IsHostChar(ch) then InHost else if ch == ':' then PortStart else HostDead
    case V6End => if ch == ':' then PortStart else HostDead
    case InV6 =>
      if ch == ']' then V6End else if IsHex(ch) || ch == ':' || ch == '.' then InV6
      else if ch == '%' then V6ZoneStart else HostDead
    case V6Start => if IsHex(ch) || ch == ':' || ch == '.' then InV6 else HostDead
    case InV6Zone => if ch == ']' then V6End else if IsZoneChar(ch) then InV6Zone else HostDead
    case V6ZoneStart => if IsZoneChar(ch) then InV6Zone else HostDead
    case PortStart | InPort => if IsDigit(ch) then InPort else HostDead
    case _ => HostDead
  }

  function HostAfter(s: HostState, bytes: seq<Byte>): HostState {
    if bytes == [] then s else ParseHostChar(HostAfter(s, bytes[..|bytes| - 1]), bytes[|bytes| - 1])
  }

  /** The states an authority may end in. */
  predicate HostComplete(s: HostState) { s.InHost? || s.V6End? || s.InPort? }

  function Put(u: Url, f: Field, d: Span): Url { u.(data := u.data[f := d]) }

  /** One more byte of field `f`, which starts at `p` unless it is `going` already. */
  function Extended(u: Url, f: Field, going: bool, p: nat): Url
    requires f in u.data
  {
    var d := u.data[f];
    var v := if going then u
             else if f.Host? then Put(u, f, d.(off := p))
             else Put(u, f, Span(p, 0)).(fieldSet := u.fieldSet + {f});
    Put(v, f, v.data[f].(len := v.data[f].len + 1))
  }

  lemma ExtendedWraps(u: Url, whole: Url, f: Field, going: bool, p: nat)
    requires Wraps(u, whole) && (going || f.Host? ==> f in u.fieldSet)
    ensures Wraps(Stored(Extended(u, f, going, p)), Extended(whole, f, going, p))
  {
    hide Kept;
    var v, w := Extended(u, f, going, p), Extended(whole, f, going, p);
    KeptLonger(whole.data[f]);
    KeptMoved(whole.data[f], p);
    forall g <- v.fieldSet ensures Kept(v.data[g]) == Kept(w.data[g]) {
      KeptTwice(whole.data[g]);
    }
  }

  /** The update for the byte that leads from `s` to `n`. */
  function HostUpdate(u: Url, s: HostState, n: HostState, p: nat): Url
    requires HasRoom(u)
  {
    match n
    case InHost => Extended(u, Host, s.InHost?, p)
    case InV6 => Extended(u, Host, s.InV6?, p)
    case V6ZoneStart | InV6Zone => Extended(u, Host, true, p)
    case InPort => Extended(u, Port, s.InPort?, p)
    case InUserinfo => Extended(u, Userinfo, s.InUserinfo?, p)
    case _ => u
  }

  lemma HostUpdateWraps(u: Url, whole: Url, s: HostState, n: HostState, p: nat)
    requires Wraps(u, whole) && Host in u.fieldSet
    requires (s.InPort? ==> Port in u.fieldSet) && (s.InUserinfo? ==> Userinfo in u.fieldSet)
    ensures Wraps(Stored(HostUpdate(u, s, n, p)), HostUpdate(whole, s, n, p))
  {
    hide Extended, Kept;
    match n {
      case InHost => ExtendedWraps(u, whole, Host, s.InHost?, p);
      case InV6 => ExtendedWraps(u, whole, Host, s.InV6?, p);
      case V6ZoneStart | InV6Zone => ExtendedWraps(u, whole, Host, true, p);
      case InPort => ExtendedWraps(u, whole, Port, s.InPort?, p);
      case InUserinfo => ExtendedWraps(u, whole, Userinfo, s.InUserinfo?, p);
      case _ => StoredWraps(u, whole);
    }
  }

  lemma StoredWraps(u: Url, whole: Url)
    requires Wraps(u, whole)
    ensures Wraps(Stored(u), whole)
  {
  }

  // ---------------------------------------------------------------- the grammar of an authority

  /** The bytes that parts of an authority are made of. */
  datatype Class = UserinfoBytes | HostBytes | V6Bytes | ZoneBytes | PortBytes

  predicate InClass(c: Class, ch: Byte) {
    match c
    case UserinfoBytes => IsUserinfoChar(ch)
    case HostBytes => IsHostChar(ch)
    case V6Bytes => IsHex(ch) || ch == ':' || ch == '.'
    case ZoneBytes => IsZoneChar(ch)
    case PortBytes => IsDigit(ch)
  }

  predicate AllIn(c: Class, buf: seq<Byte>, i: nat, j: nat)
    requires i <= j <= |buf|
  {
    forall k :: i <= k < j ==> InClass(c, buf[k])
  }

  /** buf[a..h] is user information, possibly empty, with its '@'; or nothing, if there is no '@'. */
  predicate UserinfoText(buf: seq<Byte>, foundAt: bool, a: nat, h: nat) {
    && a <= h <= |buf|
    && if foundAt then a < h && buf[h - 1] == '@' && AllIn(UserinfoBytes, buf, a, h - 1) else a == h
  }

  /** buf[h..e] is an address in brackets; from `m` on with a zone, if `m` is not where the ']' is. */
  predicate V6Text(buf: seq<Byte>, h: nat, m: nat, e: nat) {
    && h + 1 < m < e <= |buf| && buf[h] == '[' && buf[e - 1] == ']' && AllIn(V6Bytes, buf, h + 1, m)
    && (m == e - 1 || (m + 1 < e - 1 && buf[m] == '%' && AllIn(ZoneBytes, buf, m + 1, e - 1)))
  }

  /** buf[h..e] is a host, plain or in brackets. */
  ghost predicate HostText(buf: seq<Byte>, h: nat, e: nat) {
    && h < e <= |buf|
    && if buf[h] == '[' then exists m: nat :: V6Text(buf, h, m, e) else AllIn(HostBytes, buf, h, e)
  }

  /** buf[e..z] is a port with its ':', or nothing. */
  predicate PortText(buf: seq<Byte>, e: nat, z: nat) {
    e <= z <= |buf| && (e == z || (e + 1 < z && buf[e] == ':' && AllIn(PortBytes, buf, e + 1, z)))
  }

  /** buf[a..z] is an authority, with the host at buf[h..e]. */
  ghost predicate Splits(buf: seq<Byte>, foundAt: bool, a: nat, z: nat, h: nat, e: nat) {
    UserinfoText(buf, foundAt, a, h) && HostText(buf, h, e) && PortText(buf, e, z)
  }

  ghost predicate IsAuthority(buf: seq<Byte>, foundAt: bool, a: nat, z: nat) {
    exists h: nat, e: nat :: Splits(buf, foundAt, a, z, h, e)
  }

  /** An authority can be read in one way only. */
  lemma SplitsUnique(buf: seq<Byte>, foundAt: bool, a: nat, z: nat, h: nat, e: nat, h': nat, e': nat)
    requires Splits(buf, foundAt, a, z, h, e) && Splits(buf, foundAt, a, z, h', e')
    ensures h == h' && e == e'
  {
    hide HostText, AllIn;
    if h < h' {
      NoAt(buf, a, h, h');
    } else if h' < h {
      NoAt(buf, a, h', h);
    }
    if e < e' {
      HostStops(buf, h, e, e', z);
    } else if e' < e {
      HostStops(buf, h, e', e, z);
    }
  }

  lemma NoAt(buf: seq<Byte>, a: nat, h: nat, h': nat)
    requires a < h <= |buf| && buf[h - 1] == '@' && h < h' <= |buf|
    ensures !AllIn(UserinfoBytes, buf, a, h' - 1)
  {
    AtIsOutside();
    hide IsUserinfoChar;
    assert !InClass(UserinfoBytes, buf[h - 1]);
  }

  lemma AtIsOutside()
    ensures !IsUserinfoChar('@') && !IsHostChar(':') && !IsHostChar('[')
    ensures forall c: Class :: !InClass(c, ']')
  {
  }

  /** A host that can end at `e` with a port behind it cannot go on. */
  lemma HostStops(buf: seq<Byte>, h: nat, e: nat, e': nat, z: nat)
    requires HostText(buf, h, e) && PortText(buf, e, z) && e < e' <= z
    ensures !HostText(buf, h, e')
  {
    AtIsOutside();
    hide InClass;
    if buf[h] == '[' {
      var m: nat :| V6Text(buf, h, m, e);
      forall m': nat ensures !V6Text(buf, h, m', e') { BracketStops(buf, h, e, m', e'); }
    } else {
      HostByte(buf, h, e, e');
    }
  }

  lemma HostByte(buf: seq<Byte>, h: nat, e: nat, e': nat)
    requires h < e < e' <= |buf| && buf[e] == ':'
    ensures !AllIn(HostBytes, buf, h, e')
  {
    AtIsOutside();
    hide IsHostChar;
    assert !InClass(HostBytes, buf[e]);
  }

  lemma BracketStops(buf: seq<Byte>, h: nat, e: nat, m: nat, e': nat)
    requires h + 1 < e < e' <= |buf| && buf[e - 1] == ']' && buf[h] == '['
    ensures !V6Text(buf, h, m, e')
  {
    AtIsOutside();
    hide InClass;
    assert !InClass(V6Bytes, buf[e - 1]) && !InClass(ZoneBytes, buf[e - 1]) && buf[e - 1] != '%';
  }

  /** The user information and its '@' take up buf[a..h]. */
  predicate UserinfoLies(buf: seq<Byte>, u: Url, foundAt: bool, a: nat, h: nat) {
    && UserinfoText(buf, foundAt, a, h) && HasRoom(u)
    && if Userinfo in u.fieldSet then foundAt && a < h - 1 && u.data[Userinfo] == Span(a, h - 1 - a)
       else !foundAt || a == h - 1
  }

  /** The host, plain or in brackets, takes up buf[h..e]. */
  ghost predicate HostLies(buf: seq<Byte>, u: Url, h: nat, e: nat) {
    && HostText(buf, h, e) && HasRoom(u) && Host in u.fieldSet && u.data[Host].len > 0
    && u.data[Host] == if buf[h] == '[' then Span(h + 1, Less(e, h + 2)) else Span(h, e - h)
  }

  function Less(a: nat, b: nat): nat { if a >= b then a - b else 0 }

  /** The port and its ':' take up buf[e..z]. */
  predicate PortLies(buf: seq<Byte>, u: Url, e: nat, z: nat) {
    && PortText(buf, e, z) && HasRoom(u)
    && if Port in u.fieldSet then e < z && u.data[Port] == Span(e + 1, z - e - 1) else e == z
  }

  // ---------------------------------------------------------------- the loop over an authority

  /** What the loop of http_parse_host knows after buf[a..p]: `h` is where the host part starts, `m` where its zone
      does and `e` where it ends, as far as they are known. */
  ghost predicate HostFound(
    buf: seq<Byte>, u: Url, foundAt: bool, a: nat, p: nat, s: HostState, h: nat, m: nat, e: nat)
  {
    && a <= p <= |buf| && HasRoom(u) && Host in u.fieldSet
    && match s
       case HostDead => false
       case UserinfoStart =>
         foundAt && p == a && Userinfo !in u.fieldSet && Port !in u.fieldSet && u.data[Host].len == 0
       case InUserinfo =>
         foundAt && a < p && Userinfo in u.fieldSet && u.data[Userinfo] == Span(a, p - a) && Port !in u.fieldSet
         && u.data[Host].len == 0 && AllIn(UserinfoBytes, buf, a, p)
       case HostStart =>
         UserinfoLies(buf, u, foundAt, a, p) && h == p && Port !in u.fieldSet && u.data[Host].len == 0
       case InHost =>
         UserinfoLies(buf, u, foundAt, a, h) && h < p && u.data[Host] == Span(h, p - h) && Port !in u.fieldSet
         && buf[h] != '[' && AllIn(HostBytes, buf, h, p)
       case V6Start =>
         UserinfoLies(buf, u, foundAt, a, h) && p == h + 1 && buf[h] == '[' && Port !in u.fieldSet
         && u.data[Host].len == 0
       case InV6 =>
         InBrackets(buf, u, foundAt, a, h, p) && AllIn(V6Bytes, buf, h + 1, p)
       case V6ZoneStart =>
         InBrackets(buf, u, foundAt, a, h, p) && h + 1 < m == p - 1 && AllIn(V6Bytes, buf, h + 1, m) && buf[m] == '%'
       case InV6Zone =>
         InBrackets(buf, u, foundAt, a, h, p) && h + 1 < m < p - 1 && AllIn(V6Bytes, buf, h + 1, m) && buf[m] == '%'
         && AllIn(ZoneBytes, buf, m + 1, p)
       case V6End =>
         UserinfoLies(buf, u, foundAt, a, h) && h < p && HostLies(buf, u, h, p) && Port !in u.fieldSet
       case PortStart =>
         UserinfoLies(buf, u, foundAt, a, h) && HostLies(buf, u, h, e) && Port !in u.fieldSet && p == e + 1
         && buf[e] == ':'
       case InPort =>
         UserinfoLies(buf, u, foundAt, a, h) && HostLies(buf, u, h, e) && PortLies(buf, u, e, p) && Port in u.fieldSet
  }

  /** Inside the brackets of a host. */
  predicate InBrackets(buf: seq<Byte>, u: Url, foundAt: bool, a: nat, h: nat, p: nat) {
    && UserinfoLies(buf, u, foundAt, a, h) && h + 1 < p <= |buf| && buf[h] == '[' && Port !in u.fieldSet
    && u.data[Host] == Span(h + 1, p - h - 1)
  }

  /** The only fields http_parse_host touches. */
  predicate SameElsewhere(u: Url, v: Url) {
    && HasRoom(u) && HasRoom(v) && v.port == u.port
    && (forall f: Field :: IsPart(f) ==> (f in v.fieldSet <==> f in u.fieldSet))
    && (forall f: Field :: IsPart(f) && f != Host ==> v.data[f] == u.data[f])
  }

  /** The loop's knowledge after one more byte. */
  ghost predicate StepFound(buf: seq<Byte>, u: Url, foundAt: bool, a: nat, p: nat, s: HostState, h: nat, m: nat, e: nat)
    requires p < |buf| && HasRoom(u)
  {
    var n := ParseHostChar(s, buf[p]);
    n.HostDead? || HostFound(buf, HostUpdate(u, s, n, p), foundAt, a, p + 1, n, if n.HostStart? then p + 1 else h,
                             if n.V6ZoneStart? then p else m, if n.PortStart? then p else e)
  }

  lemma KeepsUserinfo(buf: seq<Byte>, u: Url, foundAt: bool, a: nat, h: nat, f: Field, going: bool, p: nat)
    requires HasRoom(u) && UserinfoLies(buf, u, foundAt, a, h) && f != Userinfo
    ensures HasRoom(Extended(u, f, going, p)) && UserinfoLies(buf, Extended(u, f, going, p), foundAt, a, h)
  {
    hide UserinfoText;
  }

  lemma UserinfoStep(buf: seq<Byte>, u: Url, foundAt: bool, a: nat, p: nat, s: HostState, h: nat, m: nat, e: nat)
    requires HostFound(buf, u, foundAt, a, p, s, h, m, e)
    requires p < |buf| && (s.UserinfoStart? || s.InUserinfo?)
    ensures StepFound(buf, u, foundAt, a, p, s, h, m, e)
  {
    hide IsUserinfoChar, HostText, PortText;
  }

  lemma HostStep(buf: seq<Byte>, u: Url, foundAt: bool, a: nat, p: nat, s: HostState, h: nat, m: nat, e: nat)
    requires HostFound(buf, u, foundAt, a, p, s, h, m, e) && p < |buf| && (s.HostStart? || s.InHost?)
    ensures StepFound(buf, u, foundAt, a, p, s, h, m, e)
  {
    AtIsOutside();
    hide IsHostChar, UserinfoLies, PortText, UserinfoText, IsHex;
    KeepsUserinfo(buf, u, foundAt, a, h, Host, s.InHost?, p);
  }

  lemma V6Step(buf: seq<Byte>, u: Url, foundAt: bool, a: nat, p: nat, s: HostState, h: nat, m: nat, e: nat)
    requires HostFound(buf, u, foundAt, a, p, s, h, m, e) && p < |buf| && (s.V6Start? || s.InV6?)
    ensures StepFound(buf, u, foundAt, a, p, s, h, m, e)
  {
    hide IsHex, IsZoneChar, UserinfoLies, PortText, UserinfoText;
    KeepsUserinfo(buf, u, foundAt, a, h, Host, s.InV6?, p);
    KeepsUserinfo(buf, u, foundAt, a, h, Host, true, p);
    if s.InV6? && buf[p] == ']' { assert V6Text(buf, h, p, p + 1); }
  }

  lemma ZoneStep(buf: seq<Byte>, u: Url, foundAt: bool, a: nat, p: nat, s: HostState, h: nat, m: nat, e: nat)
    requires HostFound(buf, u, foundAt, a, p, s, h, m, e) && p < |buf| && (s.V6ZoneStart? || s.InV6Zone?)
    ensures StepFound(buf, u, foundAt, a, p, s, h, m, e)
  {
    hide IsHex, IsZoneChar, UserinfoLies, PortText, UserinfoText;
    KeepsUserinfo(buf, u, foundAt, a, h, Host, true, p);
    if s.InV6Zone? && buf[p] == ']' { assert V6Text(buf, h, m, p + 1); }
  }

  lemma PortStep(buf: seq<Byte>, u: Url, foundAt: bool, a: nat, p: nat, s: HostState, h: nat, m: nat, e: nat)
    requires HostFound(buf, u, foundAt, a, p, s, h, m, e)
    requires p < |buf| && (s.V6End? || s.PortStart? || s.InPort?)
    ensures StepFound(buf, u, foundAt, a, p, s, h, m, e)
  {
    hide HostText, UserinfoLies, UserinfoText;
    KeepsUserinfo(buf, u, foundAt, a, h, Port, s.InPort?, p);
  }

  lemma HostFoundStep(buf: seq<Byte>, u: Url, foundAt: bool, a: nat, p: nat, s: HostState, h: nat, m: nat, e: nat)
    requires HostFound(buf, u, foundAt, a, p, s, h, m, e) && p < |buf|
    ensures HasRoom(u) && StepFound(buf, u, foundAt, a, p, s, h, m, e)
  {
    hide StepFound;
    HostFoundRoom(buf, u, foundAt, a, p, s, h, m, e);
    match s {
      case UserinfoStart | InUserinfo => UserinfoStep(buf, u, foundAt, a, p, s, h, m, e);
      case HostStart | InHost => HostStep(buf, u, foundAt, a, p, s, h, m, e);
      case V6Start | InV6 => V6Step(buf, u, foundAt, a, p, s, h, m, e);
      case V6ZoneStart | InV6Zone => ZoneStep(buf, u, foundAt, a, p, s, h, m, e);
      case V6End | PortStart | InPort => PortStep(buf, u, foundAt, a, p, s, h, m, e);
      case HostDead =>
    }
  }

  lemma HostUpdateElsewhere(was: Url, u: Url, s: HostState, n: HostState, p: nat)
    requires HasRoom(u) && Host in u.fieldSet && SameElsewhere(was, u)
    ensures SameElsewhere(was, HostUpdate(u, s, n, p))
  {
  }

  lemma HostAfterSnoc(s: HostState, buf: seq<Byte>, a: nat, p: nat)
    requires a <= p < |buf|
    ensures HostAfter(s, buf[a..p + 1]) == ParseHostChar(HostAfter(s, buf[a..p]), buf[p])
  {
    assert buf[a..p + 1][..p - a] == buf[a..p];
  }

  lemma {:induction false} HostDeadStays(s: HostState, buf: seq<Byte>, a: nat, p: nat, z: nat)
    requires a <= p <= z <= |buf| && HostAfter(s, buf[a..p]).HostDead?
    ensures HostAfter(s, buf[a..z]).HostDead?
    decreases z - p
  {
    if p < z {
      HostAfterSnoc(s, buf, a, p);
      HostDeadStays(s, buf, a, p + 1, z);
    }
  }

  function HostStartState(foundAt: bool): HostState { if foundAt then UserinfoStart else HostStart }

  // ---------------------------------------------------------------- the grammar against the automaton

  /** Bytes of the class lead from `first` to `going`, and stay there. */
  ghost predicate Loops(c: Class, first: HostState, going: HostState) {
    forall ch: Byte :: InClass(c, ch) ==> ParseHostChar(first, ch) == going && ParseHostChar(going, ch) == going
  }

  lemma AllLoops()
    ensures Loops(UserinfoBytes, UserinfoStart, InUserinfo) && Loops(HostBytes, HostStart, InHost)
    ensures Loops(V6Bytes, V6Start, InV6) && Loops(ZoneBytes, V6ZoneStart, InV6Zone)
    ensures Loops(PortBytes, PortStart, InPort)
  {
  }

  lemma {:induction false} LoopRuns(
    s: HostState, buf: seq<Byte>, a: nat, i: nat, j: nat, c: Class, first: HostState, going: HostState)
    requires a <= i < j <= |buf| && HostAfter(s, buf[a..i]) == first && AllIn(c, buf, i, j) && Loops(c, first, going)
    ensures HostAfter(s, buf[a..j]) == going
    decreases j
  {
    hide ParseHostChar, InClass;
    HostAfterSnoc(s, buf, a, j - 1);
    if i < j - 1 { LoopRuns(s, buf, a, i, j - 1, c, first, going); }
  }

  lemma NothingRead(s: HostState, buf: seq<Byte>, a: nat)
    requires a <= |buf|
    ensures HostAfter(s, buf[a..a]) == s
  {
    assert buf[a..a] == [];
  }

  lemma UserinfoRuns(buf: seq<Byte>, foundAt: bool, a: nat, h: nat)
    requires UserinfoText(buf, foundAt, a, h)
    ensures a <= h && HostAfter(HostStartState(foundAt), buf[a..h]) == HostStart
  {
    hide HostAfter, Loops, InClass, AllIn, ParseHostChar;
    var s := HostStartState(foundAt);
    NothingRead(s, buf, a);
    if foundAt {
      AllLoops();
      PunctuationMoves();
      if a < h - 1 { LoopRuns(s, buf, a, a, h - 1, UserinfoBytes, UserinfoStart, InUserinfo); }
      HostAfterSnoc(s, buf, a, h - 1);
    }
  }

  lemma HostRuns(s: HostState, buf: seq<Byte>, a: nat, h: nat, e: nat)
    requires a <= h && HostText(buf, h, e) && HostAfter(s, buf[a..h]) == HostStart
    ensures HostAfter(s, buf[a..e]) == if buf[h] == '[' then V6End else InHost
  {
    hide HostAfter, Loops, InClass, AllIn, ParseHostChar;
    AllLoops();
    if buf[h] == '[' {
      var m: nat :| V6Text(buf, h, m, e);
      BracketsRun(s, buf, a, h, m, e);
    } else {
      LoopRuns(s, buf, a, h, e, HostBytes, HostStart, InHost);
    }
  }

  lemma BracketsRun(s: HostState, buf: seq<Byte>, a: nat, h: nat, m: nat, e: nat)
    requires a <= h && V6Text(buf, h, m, e) && HostAfter(s, buf[a..h]) == HostStart
    ensures HostAfter(s, buf[a..e]) == V6End
  {
    hide HostAfter, Loops, InClass, AllIn, ParseHostChar;
    AllLoops();
    PunctuationMoves();
    HostAfterSnoc(s, buf, a, h);
    LoopRuns(s, buf, a, h + 1, m, V6Bytes, V6Start, InV6);
    if m < e - 1 {
      HostAfterSnoc(s, buf, a, m);
      LoopRuns(s, buf, a, m + 1, e - 1, ZoneBytes, V6ZoneStart, InV6Zone);
    }
    HostAfterSnoc(s, buf, a, e - 1);
  }

  lemma PunctuationMoves()
    ensures ParseHostChar(HostStart, '[') == V6Start && ParseHostChar(InV6, '%') == V6ZoneStart
    ensures ParseHostChar(InV6, ']') == V6End && ParseHostChar(InV6Zone, ']') == V6End
    ensures ParseHostChar(UserinfoStart, '@') == HostStart && ParseHostChar(InUserinfo, '@') == HostStart
    ensures ParseHostChar(InHost, ':') == PortStart && ParseHostChar(V6End, ':') == PortStart
  {
  }

  /** What the grammar allows the automaton accepts. */
  lemma SplitsComplete(buf: seq<Byte>, foundAt: bool, a: nat, z: nat, h: nat, e: nat)
    requires Splits(buf, foundAt, a, z, h, e)
    ensures HostComplete(HostAfter(HostStartState(foundAt), buf[a..z]))
  {
    var s := HostStartState(foundAt);
    hide HostText, UserinfoText, HostAfter, InClass, Loops, AllIn, ParseHostChar;
    PunctuationMoves();
    UserinfoRuns(buf, foundAt, a, h);
    HostTextEnds(buf, h, e);
    HostRuns(s, buf, a, h, e);
    if e < z {
      HostAfterSnoc(s, buf, a, e);
      AllLoops();
      LoopRuns(s, buf, a, e + 1, z, PortBytes, PortStart, InPort);
    }
  }

  lemma HostTextEnds(buf: seq<Byte>, h: nat, e: nat)
    requires HostText(buf, h, e)
    ensures h < e <= |buf|
  {
  }

  /** The authority taken apart: user information, host and port lie in order, with nothing left over. */
  ghost predicate AuthorityLies(buf: seq<Byte>, u: Url, foundAt: bool, a: nat, z: nat) {
    exists h: nat, e: nat :: UserinfoLies(buf, u, foundAt, a, h) && HostLies(buf, u, h, e) && PortLies(buf, u, e, z)
  }

  lemma HostFoundEnd(buf: seq<Byte>, u: Url, foundAt: bool, a: nat, z: nat, s: HostState, h: nat, m: nat, e: nat)
    requires HostFound(buf, u, foundAt, a, z, s, h, m, e) && HostComplete(s)
    ensures AuthorityLies(buf, u, foundAt, a, z)
  {
    if s.InPort? {
      assert UserinfoLies(buf, u, foundAt, a, h) && HostLies(buf, u, h, e) && PortLies(buf, u, e, z);
    } else {
      assert UserinfoLies(buf, u, foundAt, a, h) && HostLies(buf, u, h, z) && PortLies(buf, u, z, z);
    }
  }

  /** http_parse_host: takes the authority buf[off..off + len] of field Host apart, for a URL of any length. What is
      found is `whole`; 16 bits of its offsets and lengths are stored. */
  method ParseHost(buf: seq<Byte>, was: Url, foundAt: bool, ghost wasWhole: Url)
    returns (ok: bool, u: Url, ghost whole: Url)
    requires Wraps(was, wasWhole) && Host in was.fieldSet && Port !in was.fieldSet && Userinfo !in was.fieldSet
    requires was.data[Host].End() <= |buf|
    ensures SameElsewhere(wasWhole, whole) && Wraps(u, whole)
    ensures ok <==> IsAuthority(buf, foundAt, was.data[Host].off, was.data[Host].End())
    ensures ok <==> HostComplete(HostAfter(HostStartState(foundAt), buf[was.data[Host].off..was.data[Host].End()]))
    ensures ok ==> AuthorityLies(buf, whole, foundAt, was.data[Host].off, was.data[Host].End())
  {
    hide ParseHostChar, HostUpdate, HostFound, IsAuthority, SameElsewhere, Wraps;
    NoLength(was, wasWhole);
    var a, z := was.data[Host].off, was.data[Host].End();
    u := Put(was, Host, was.data[Host].(len := 0));
    whole := Put(wasWhole, Host, was.data[Host].(len := 0));
    var s := HostStartState(foundAt);
    ghost var h: nat, m: nat, e: nat := a, a, a;
    var p := a;
    assert buf[a..a] == [];
    HostFoundStart(buf, whole, foundAt, a, h, m, e);
    while p < z
      invariant a <= p <= z && SameElsewhere(wasWhole, whole) && Wraps(u, whole) && HasRoom(u)
      invariant s == HostAfter(HostStartState(foundAt), buf[a..p])
      invariant HostFound(buf, whole, foundAt, a, p, s, h, m, e)
    {
      var n := ParseHostChar(s, buf[p]);
      HostAfterSnoc(HostStartState(foundAt), buf, a, p);
      if n.HostDead? {
        HostDeadStays(HostStartState(foundAt), buf, a, p + 1, z);
        AuthorityComplete(buf, foundAt, a, z);
        return false, u, whole;
      }
      HostFoundRoom(buf, whole, foundAt, a, p, s, h, m, e);
      HostFoundStep(buf, whole, foundAt, a, p, s, h, m, e);
      HostUpdateElsewhere(wasWhole, whole, s, n, p);
      WholeUpdated(u, whole, s, n, p);
      u, whole := Stored(HostUpdate(u, s, n, p)), HostUpdate(whole, s, n, p);
      h := if n.HostStart? then p + 1 else h;
      m := if n.V6ZoneStart? then p else m;
      e := if n.PortStart? then p else e;
      s := n;
      p := p + 1;
    }
    ok := HostComplete(s);
    AuthorityComplete(buf, foundAt, a, z);
    if ok {
      HostFoundEnd(buf, whole, foundAt, a, z, s, h, m, e);
      LiesSplits(buf, whole, foundAt, a, z);
    }
  }

  lemma NoLength(u: Url, whole: Url)
    requires Wraps(u, whole) && Host in u.fieldSet
    ensures HasRoom(u) && HasRoom(whole) && u.fieldSet == whole.fieldSet
    ensures var d := u.data[Host].(len := 0);
            && Wraps(Put(u, Host, d), Put(whole, Host, d)) && HasRoom(Put(u, Host, d))
            && SameElsewhere(whole, Put(whole, Host, d))
  {
  }

  lemma WholeUpdated(u: Url, whole: Url, s: HostState, n: HostState, p: nat)
    requires Wraps(u, whole) && Host in whole.fieldSet
    requires (s.InPort? ==> Port in whole.fieldSet) && (s.InUserinfo? ==> Userinfo in whole.fieldSet)
    ensures HasRoom(u) && HasRoom(whole) && Wraps(Stored(HostUpdate(u, s, n, p)), HostUpdate(whole, s, n, p))
    ensures HasRoom(Stored(HostUpdate(u, s, n, p)))
  {
    hide HostUpdate, Kept, Stored;
    HostUpdateWraps(u, whole, s, n, p);
  }

  lemma AuthorityComplete(buf: seq<Byte>, foundAt: bool, a: nat, z: nat)
    requires a <= z <= |buf|
    ensures IsAuthority(buf, foundAt, a, z) ==> HostComplete(HostAfter(HostStartState(foundAt), buf[a..z]))
  {
    hide Splits, HostAfter;
    if h, e :| Splits(buf, foundAt, a, z, h, e) { SplitsComplete(buf, foundAt, a, z, h, e); }
  }

  lemma LiesSplits(buf: seq<Byte>, u: Url, foundAt: bool, a: nat, z: nat)
    requires AuthorityLies(buf, u, foundAt, a, z)
    ensures IsAuthority(buf, foundAt, a, z)
  {
    hide UserinfoText, HostText, PortText;
    var h: nat, e: nat :| UserinfoLies(buf, u, foundAt, a, h) && HostLies(buf, u, h, e) && PortLies(buf, u, e, z);
    assert Splits(buf, foundAt, a, z, h, e);
  }

  lemma HostFoundStart(buf: seq<Byte>, u: Url, foundAt: bool, a: nat, h: nat, m: nat, e: nat)
    requires HasRoom(u) && Host in u.fieldSet && Port !in u.fieldSet && Userinfo !in u.fieldSet && a <= |buf| && h == a
    requires u.data[Host].len == 0
    ensures HostFound(buf, u, foundAt, a, a, HostStartState(foundAt), h, m, e)
  {
  }

  lemma HostFoundRoom(buf: seq<Byte>, u: Url, foundAt: bool, a: nat, p: nat, s: HostState, h: nat, m: nat, e: nat)
    requires HostFound(buf, u, foundAt, a, p, s, h, m, e)
    ensures HasRoom(u) && Host in u.fieldSet
    ensures (s.InPort? ==> Port in u.fieldSet) && (s.InUserinfo? ==> Userinfo in u.fieldSet)
  {
  }

  // ---------------------------------------------------------------- the whole URL

  lemma DecimalGrows(ds: seq<Byte>, k: nat)
    requires k <= |ds| && forall i :: 0 <= i < |ds| ==> IsDigit(ds[i])
    ensures Value(ds[..k]) <= Value(ds)
    decreases |ds|
  {
    if k == |ds| {
      assert ds[..k] == ds;
    } else {
      assert ds[..|ds| - 1][..k] == ds[..k];
      DecimalGrows(ds[..|ds| - 1], k);
    }
  }

  predicate AllNum(ds: seq<Byte>) { forall i :: 0 <= i < |ds| ==> IsDigit(ds[i]) }

  /** The port number: the decimal value of the digits, refused above 65535. Other bytes are not told from digits. */
  method ParsePort(buf: seq<Byte>, d: Span) returns (v: Option<nat>)
    requires d.End() <= |buf|
    ensures AllNum(buf[d.off..d.End()]) ==>
              v == if Value(buf[d.off..d.End()]) <= 0xffff then Some(Value(buf[d.off..d.End()])) else None
  {
    var n: nat, p := 0, d.off;
    ghost var ds := buf[d.off..d.End()];
    assert buf[d.off..d.off] == [];
    while p < d.End()
      invariant d.off <= p <= d.End() && n <= 0xffff
      invariant AllNum(ds) ==> n == Value(ds[..p - d.off])
    {
      n := (n * 10 + buf[p] as int + UINT64_RANGE - '0' as int) % UINT64_RANGE;
      p := p + 1;
      assert ds[..p - d.off][..p - 1 - d.off] == ds[..p - 1 - d.off];
      if AllNum(ds) { DecimalGrows(ds, p - d.off); }
      if n > 0xffff { return None; }
    }
    assert ds[..p - d.off] == ds;
    return Some(n);
  }

  /** The bytes of the port. */
  function PortDigits(buf: seq<Byte>, u: Url): seq<Byte>
    requires HasRoom(u) && u.data[Port].End() <= |buf|
  {
    buf[u.data[Port].off..u.data[Port].End()]
  }

  lemma PortElsewhere(buf: seq<Byte>, u: Url, foundAt: bool, a: nat, z: nat, port: nat)
    requires AuthorityLies(buf, u, foundAt, a, z)
    ensures AuthorityLies(buf, u.(port := port), foundAt, a, z)
  {
    var h, e :| UserinfoLies(buf, u, foundAt, a, h) && HostLies(buf, u, h, e) && PortLies(buf, u, e, z);
    var v := u.(port := port);
    assert UserinfoLies(buf, v, foundAt, a, h) && HostLies(buf, v, h, e) && PortLies(buf, v, e, z);
  }

  /** The first loop of http_parser_parse_url: the fields the automaton goes through, the whole authority as
      Host. Each is exactly the bytes the automaton was in it, they are in order, and every other byte is a
      delimiter. What is found is `whole`; 16 bits of its offsets and lengths are stored. */
  method FindParts(buf: seq<Byte>, isConnect: bool, was: Url)
    returns (ok: bool, u: Url, foundAt: bool, ghost whole: Url)
    requires HasRoom(was) && was.fieldSet == {}
    ensures Wraps(u, whole) && u.port == was.port
    ensures ok <==> !After(StartState(isConnect), buf).Dead?
    ensures ok ==> AllLocated(StartState(isConnect), buf, |buf|, whole) && Skipped(StartState(isConnect), buf, |buf|)
    ensures ok ==> Ordered(whole) && foundAt == HasAt(StartState(isConnect), buf)
    ensures ok ==> Port !in u.fieldSet && Userinfo !in u.fieldSet
    ensures ok && Host in u.fieldSet ==> whole.data[Host].End() <= |buf|
  {
    hide ParseUrlChar, After, Found, HasAt, Located, Wraps;
    u, whole := was, was;
    NothingWraps(was);
    var s := StartState(isConnect);
    var lastField := None;
    foundAt := false;
    var p := 0;
    FoundStart(s, buf, whole);
    while p < |buf|
      invariant 0 <= p <= |buf| && Wraps(u, whole) && u.port == was.port
      invariant s == After(StartState(isConnect), buf[..p])
      invariant Found(StartState(isConnect), buf, p, whole, lastField, foundAt)
    {
      AfterSnoc(StartState(isConnect), buf, p);
      s := ParseUrlChar(s, buf[p]);
      if s.Dead? {
        DeadStays(StartState(isConnect), buf, p + 1);
        return false, u, foundAt, whole;
      }
      var field := FieldOf(s);
      if field.None? {
        FoundDelimiter(StartState(isConnect), buf, p, whole, lastField, foundAt);
      } else {
        FoundField(StartState(isConnect), buf, p, whole, lastField, foundAt, field.value);
        FoundLast(StartState(isConnect), buf, p, whole, lastField, foundAt);
        PartPlaced(u, whole, field.value, lastField, p);
        if s.ReqServerWithAt? { foundAt := true; }
        u, whole := Stored(Placed(u, field.value, lastField, p)), Placed(whole, field.value, lastField, p);
        lastField := field;
      }
      p := p + 1;
    }
    assert buf[..p] == buf;
    FoundEnd(StartState(isConnect), buf, whole, lastField, foundAt);
    SameSets(u, whole);
    ok := true;
  }

  lemma NothingWraps(u: Url)
    requires HasRoom(u) && u.fieldSet == {}
    ensures Wraps(u, u)
  {
  }

  lemma SameSets(u: Url, whole: Url)
    requires Wraps(u, whole)
    ensures HasRoom(u) && HasRoom(whole) && u.fieldSet == whole.fieldSet && u.port == whole.port
  {
  }

  lemma FoundLast(s: State, buf: seq<Byte>, p: nat, u: Url, lastField: Option<Field>, foundAt: bool)
    requires p <= |buf| && Found(s, buf, p, u, lastField, foundAt)
    ensures lastField.Some? ==> lastField.value in u.fieldSet
  {
    hide AllLocated, Skipped, Ordered, HasAt, After;
  }

  lemma PartPlaced(u: Url, whole: Url, uf: Field, lastField: Option<Field>, p: nat)
    requires Wraps(u, whole) && (lastField.Some? ==> lastField.value in whole.fieldSet)
    ensures HasRoom(u) && HasRoom(whole)
    ensures var v := Stored(Placed(u, uf, lastField, p));
            Wraps(v, Placed(whole, uf, lastField, p)) && v.port == u.port
  {
    hide Kept;
    PlacedWraps(u, whole, uf, lastField, p);
  }

  /** What the automaton found: the fields with the whole authority as Host. */
  ghost predicate PartsOf(buf: seq<Byte>, isConnect: bool, parts: Url) {
    var s := StartState(isConnect);
    && AllLocated(s, buf, |buf|, parts) && Skipped(s, buf, |buf|) && Ordered(parts)
    && (Host in parts.fieldSet ==> parts.data[Host].End() <= |buf|)
  }

  /** A parsed URL: the parts, with the authority taken apart and the port converted. */
  ghost predicate UrlLies(buf: seq<Byte>, isConnect: bool, parts: Url, u: Url)
    requires HasRoom(parts) && HasRoom(u)
  {
    var a, z := parts.data[Host].off, parts.data[Host].End();
    && (if Host in parts.fieldSet then
          SameElsewhere(parts.(port := u.port), u) && AuthorityLies(buf, u, HasAt(StartState(isConnect), buf), a, z)
        else
          u == parts && Port !in u.fieldSet)
    && (if Port in u.fieldSet then
          u.data[Port].End() <= |buf| && AllNum(PortDigits(buf, u)) && u.port == Value(PortDigits(buf, u)) <= 0xffff
        else
          u.port == 0)
  }

  lemma FoundStart(s: State, buf: seq<Byte>, u: Url)
    requires HasRoom(u) && u.fieldSet == {} && UrlReached(s)
    ensures buf[..0] == []
    ensures After(s, []) == s && Found(s, buf, 0, u, None, false)
  {
    assert buf[..0] == [];
  }

  lemma FoundEnd(s: State, buf: seq<Byte>, u: Url, lastField: Option<Field>, foundAt: bool)
    requires Found(s, buf, |buf|, u, lastField, foundAt)
    ensures !After(s, buf).Dead? && foundAt == HasAt(s, buf)
    ensures AllLocated(s, buf, |buf|, u) && Skipped(s, buf, |buf|) && Ordered(u)
    ensures Port !in u.fieldSet && Userinfo !in u.fieldSet
    ensures Host in u.fieldSet ==> u.data[Host].End() <= |buf|
  {
    hide After, HasAt, Skipped, Ordered;
    assert buf[..|buf|] == buf;
    assert Located(s, buf, |buf|, u, Host);
  }
}
