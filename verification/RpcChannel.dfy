// The RPC channel: length-prefixed frames over a byte stream that arrives in pieces, and the table of calls
// that wait for their responses.

module RpcChannel {
  import opened Words
  import opened Seqs
  import opened Buffers

  const HEADER_LEN: nat := 12

  /** "ERPC". */
  const IDENTIFIER: seq<byte> := [69, 82, 80, 67]

  // ---------------------------------------------------------------- the header

  /** A 32-bit word in network byte order. */
  function Be32(n: nat): (s: seq<byte>)
    requires n < UINT32_RANGE
    ensures |s| == 4
  {
    [n / 0x100_0000, n / 0x1_0000 % 256, n / 0x100 % 256, n % 256]
  }

  function FromBe32(s: seq<byte>): (n: nat)
    requires |s| == 4
    ensures n < UINT32_RANGE
  {
    var a: int, b: int, c: int, d: int := s[0], s[1], s[2], s[3];
    a * 0x100_0000 + b * 0x1_0000 + c * 0x100 + d
  }

  lemma Be32RoundTrip(n: nat)
    requires n < UINT32_RANGE
    ensures FromBe32(Be32(n)) == n
  {
    var a := n / 0x100;
    var b := a / 0x100;
    var c := b / 0x100;
    assert n / 0x1_0000 == b && n / 0x100_0000 == c;
  }

  /** The two lengths pack_send computes, in 32-bit words. */
  function BodyLength(metaSize: nat, msgSize: nat): (n: nat)
    ensures n < UINT32_RANGE
  {
    (metaSize % UINT32_RANGE + msgSize % UINT32_RANGE) % UINT32_RANGE
  }

  function Header(metaSize: nat, msgSize: nat): (s: seq<byte>)
    ensures |s| == HEADER_LEN
  {
    IDENTIFIER + Be32(BodyLength(metaSize, msgSize)) + Be32(metaSize % UINT32_RANGE)
  }

  lemma BodyLengthIs(metaSize: nat, msgSize: nat)
    requires metaSize + msgSize < UINT32_RANGE
    ensures BodyLength(metaSize, msgSize) == metaSize + msgSize && metaSize % UINT32_RANGE == metaSize
  {
  }

  /** The lengths survive exactly when they fit together in 32 bits. */
  lemma LengthsSurvive(metaSize: nat, msgSize: nat)
    ensures var h := Header(metaSize, msgSize);
            FromBe32(h[4..8]) == metaSize + msgSize && FromBe32(h[8..12]) == metaSize
            <==> metaSize + msgSize < UINT32_RANGE
  {
    hide BodyLength, Be32, FromBe32;
    var h, body := Header(metaSize, msgSize), BodyLength(metaSize, msgSize);
    assert h[4..8] == Be32(body) && h[8..12] == Be32(metaSize % UINT32_RANGE);
    Be32RoundTrip(body);
    Be32RoundTrip(metaSize % UINT32_RANGE);
    if metaSize + msgSize < UINT32_RANGE { BodyLengthIs(metaSize, msgSize); }
  }

  /** A frame on the wire. */
  function Pack(meta: seq<byte>, msg: seq<byte>): seq<byte> { Header(|meta|, |msg|) + meta + msg }

  datatype Head = Stop(why: Outcome) | Frame(body: nat, meta: nat)

  /** Why process returns: it waits for bytes, or the header is wrong, or it cannot read a meta. In the last
      case the loop consumes nothing and goes round for ever. */
  datatype Outcome = Waits | BadIdentifier | BadLengths | SpinsOnMeta

  /** The tests at the head of the loop. */
  function ReadHead(s: seq<byte>): (h: Head)
    ensures h.Frame? ==> h.meta <= h.body && HEADER_LEN + h.body <= |s|
  {
    if |s| < HEADER_LEN then Stop(Waits)
    else if s[..4] != IDENTIFIER then Stop(BadIdentifier)
    else
      var body, meta := FromBe32(s[4..8]), FromBe32(s[8..12]);
      if body < meta then Stop(BadLengths)
      else if |s| < HEADER_LEN + body then Stop(Waits)
      else Frame(body, meta)
  }

  /** What a stretch of the stream unpacks to. */
  datatype Unpacked<M> = Unpacked(pairs: seq<(M, seq<byte>)>, rest: seq<byte>, end: Outcome)

  /** One turn of the loop: it ends, or takes a frame of `used` bytes. */
  datatype Turn<M> = Ends(why: Outcome) | Takes(pair: (M, seq<byte>), used: nat)

  function TakeTurn<M>(decode: seq<byte> -> Option<M>, s: seq<byte>): (r: Turn<M>)
    ensures r.Takes? ==> HEADER_LEN <= r.used <= |s|
  {
    match ReadHead(s)
    case Stop(why) => Ends(why)
    case Frame(body, meta) =>
      match decode(s[HEADER_LEN..HEADER_LEN + meta])
      case None => Ends(SpinsOnMeta)
      case Some(m) => Takes((m, s[HEADER_LEN + meta..HEADER_LEN + body]), HEADER_LEN + body)
  }

  function Unpack<M>(decode: seq<byte> -> Option<M>, s: seq<byte>): Unpacked<M>
    decreases |s|
  {
    match TakeTurn(decode, s)
    case Ends(why) => Unpacked([], s, why)
    case Takes(pair, used) => Behind([pair], Unpack(decode, s[used..]))
  }

  function Behind<M>(pairs: seq<(M, seq<byte>)>, u: Unpacked<M>): Unpacked<M> { u.(pairs := pairs + u.pairs) }

  // ---------------------------------------------------------------- any fragmentation

  lemma HeadGrows(s: seq<byte>, t: seq<byte>)
    ensures ReadHead(s) != Stop(Waits) ==> ReadHead(s + t) == ReadHead(s)
  {
    if |s| >= HEADER_LEN {
      assert (s + t)[..4] == s[..4] && (s + t)[4..8] == s[4..8] && (s + t)[8..12] == s[8..12];
    }
  }

  lemma TurnGrows<M>(decode: seq<byte> -> Option<M>, s: seq<byte>, t: seq<byte>)
    ensures TakeTurn(decode, s).Takes? ==> TakeTurn(decode, s + t) == TakeTurn(decode, s)
  {
    HeadGrows(s, t);
    hide ReadHead;
    match ReadHead(s)
    case Stop(why) =>
    case Frame(body, meta) =>
      assert (s + t)[HEADER_LEN..HEADER_LEN + meta] == s[HEADER_LEN..HEADER_LEN + meta];
      assert (s + t)[HEADER_LEN + meta..HEADER_LEN + body] == s[HEADER_LEN + meta..HEADER_LEN + body];
  }

  lemma BehindNothing<M>(u: Unpacked<M>)
    ensures Behind([], u) == u
  {
  }

  lemma BehindEnds<M>(pairs: seq<(M, seq<byte>)>, s: seq<byte>)
    ensures forall why :: Behind(pairs, Unpacked([], s, why)) == Unpacked(pairs, s, why)
  {
  }

  lemma BehindParts<M>(pairs: seq<(M, seq<byte>)>, u: Unpacked<M>)
    ensures Behind(pairs, u) == Unpacked(pairs + u.pairs, u.rest, u.end)
  {
  }

  lemma BehindBehind<M>(a: seq<(M, seq<byte>)>, b: seq<(M, seq<byte>)>, u: Unpacked<M>)
    ensures Behind(a, Behind(b, u)) == Behind(a + b, u)
  {
    assert a + (b + u.pairs) == a + b + u.pairs;
  }

  lemma UnpackTurn<M>(decode: seq<byte> -> Option<M>, s: seq<byte>)
    ensures TakeTurn(decode, s).Ends? ==> Unpack(decode, s) == Unpacked([], s, TakeTurn(decode, s).why)
    ensures TakeTurn(decode, s).Takes? ==>
              Unpack(decode, s) == Behind([TakeTurn(decode, s).pair], Unpack(decode, s[TakeTurn(decode, s).used..]))
  {
    hide TakeTurn;
  }

  /** Bytes that come later are unpacked behind the rest. */
  lemma {:induction false} UnpackConcat<M>(decode: seq<byte> -> Option<M>, s: seq<byte>, t: seq<byte>)
    ensures var u := Unpack(decode, s);
            Unpack(decode, s + t) == Behind(u.pairs, Unpack(decode, u.rest + t))
    decreases |s|
  {
    TurnGrows(decode, s, t);
    hide TakeTurn, Behind;
    UnpackTurn(decode, s);
    UnpackTurn(decode, s + t);
    var u := Unpack(decode, s);
    match TakeTurn(decode, s)
    case Ends(why) => BehindNothing(Unpack(decode, s + t));
    case Takes(pair, used) =>
      hide Unpack;
      var v := Unpack(decode, s[used..]);
      assert (s + t)[used..] == s[used..] + t;
      UnpackConcat(decode, s[used..], t);
      BehindParts([pair], v);
      BehindBehind([pair], v.pairs, Unpack(decode, v.rest + t));
  }

  /** Unpacking leaves nothing to unpack. */
  lemma {:induction false} RestIsDone<M>(decode: seq<byte> -> Option<M>, s: seq<byte>)
    ensures var u := Unpack(decode, s);
            Unpack(decode, u.rest) == Unpacked([], u.rest, u.end)
    decreases |s|
  {
    hide TakeTurn;
    match TakeTurn(decode, s)
    case Ends(why) =>
    case Takes(pair, used) => RestIsDone(decode, s[used..]);
  }

  /** The channel's side of a connection: after each piece the loop unpacks what it can. */
  function Arrive<M>(decode: seq<byte> -> Option<M>, u: Unpacked<M>, pieces: seq<seq<byte>>): Unpacked<M>
    decreases |pieces|
  {
    if pieces == [] then u
    else Arrive(decode, Behind(u.pairs, Unpack(decode, u.rest + pieces[0])), pieces[1..])
  }

  /** However the stream is cut, the same pairs come out of it. */
  lemma {:induction false} CuttingNeverMatters<M>(
    decode: seq<byte> -> Option<M>, u: Unpacked<M>, pieces: seq<seq<byte>>)
    requires Unpack(decode, u.rest) == Unpacked([], u.rest, u.end)
    ensures Arrive(decode, u, pieces) == Behind(u.pairs, Unpack(decode, u.rest + Flatten(pieces)))
    decreases |pieces|
  {
    hide Unpack;
    if pieces == [] {
      assert u.rest + Flatten(pieces) == u.rest;
    } else {
      FlattenFirst(pieces);
      var now := Unpack(decode, u.rest + pieces[0]);
      RestIsDone(decode, u.rest + pieces[0]);
      CuttingNeverMatters(decode, Behind(u.pairs, now), pieces[1..]);
      UnpackConcat(decode, u.rest + pieces[0], Flatten(pieces[1..]));
      assert u.rest + Flatten(pieces) == u.rest + pieces[0] + Flatten(pieces[1..]);
    }
  }

  // ---------------------------------------------------------------- packing and unpacking

  predicate Fits(p: (seq<byte>, seq<byte>)) { |p.0| + |p.1| < UINT32_RANGE }

  /** A codec reads back what it wrote. */
  ghost predicate RoundTrips<M(!new)>(encode: M -> seq<byte>, decode: seq<byte> -> Option<M>) {
    forall m :: decode(encode(m)) == Some(m)
  }

  predicate AllFit<M>(encode: M -> seq<byte>, ps: seq<(M, seq<byte>)>) {
    forall i :: 0 <= i < |ps| ==> Fits((encode(ps[i].0), ps[i].1))
  }

  /** The stream of a list of pairs. */
  function Stream<M>(encode: M -> seq<byte>, ps: seq<(M, seq<byte>)>): seq<byte> {
    if ps == [] then [] else Pack(encode(ps[0].0), ps[0].1) + Stream(encode, ps[1..])
  }

  lemma HeadOfPack(meta: seq<byte>, msg: seq<byte>, t: seq<byte>)
    requires Fits((meta, msg))
    ensures ReadHead(Pack(meta, msg) + t) == Frame(|meta| + |msg|, |meta|)
  {
    LengthsSurvive(|meta|, |msg|);
    var h, s := Header(|meta|, |msg|), Pack(meta, msg) + t;
    assert s[..4] == IDENTIFIER && s[4..8] == h[4..8] && s[8..12] == h[8..12];
  }

  lemma UnpackPack<M(!new)>(encode: M -> seq<byte>, decode: seq<byte> -> Option<M>, m: M, msg: seq<byte>, t: seq<byte>)
    requires RoundTrips(encode, decode) && Fits((encode(m), msg))
    ensures Unpack(decode, Pack(encode(m), msg) + t) == Behind([(m, msg)], Unpack(decode, t))
  {
    var meta, s := encode(m), Pack(encode(m), msg) + t;
    HeadOfPack(meta, msg, t);
    assert s[HEADER_LEN..HEADER_LEN + |meta|] == meta;
    assert s[HEADER_LEN + |meta|..HEADER_LEN + |meta| + |msg|] == msg;
    assert s[HEADER_LEN + |meta| + |msg|..] == t;
    hide ReadHead;
    assert TakeTurn(decode, s) == Takes((m, msg), HEADER_LEN + |meta| + |msg|);
  }

  /** A piece of a frame that is not the whole of it waits. */
  lemma PartWaits<M>(decode: seq<byte> -> Option<M>, meta: seq<byte>, msg: seq<byte>, q: seq<byte>)
    requires Fits((meta, msg)) && q < Pack(meta, msg)
    ensures Unpack(decode, q) == Unpacked([], q, Waits)
  {
    if |q| >= HEADER_LEN {
      LengthsSurvive(|meta|, |msg|);
      var h, s := Header(|meta|, |msg|), Pack(meta, msg);
      assert q == s[..|q|] && s[..HEADER_LEN] == h;
      assert q[..4] == h[..4] && q[4..8] == h[4..8] && q[8..12] == h[8..12];
    }
  }

  lemma EmptyWaits<M>(decode: seq<byte> -> Option<M>)
    ensures Unpack(decode, []) == Unpacked([], [], Waits)
  {
  }

  /** The first `k` pairs are out, and the rest is a strict part of the next frame. */
  ghost predicate HandedOver<M>(
    encode: M -> seq<byte>, ps: seq<(M, seq<byte>)>, arrived: seq<byte>, u: Unpacked<M>, k: nat)
  {
    && k <= |ps| && u.pairs == ps[..k] && u.end == Waits
    && arrived == Stream(encode, ps[..k]) + u.rest
    && (k < |ps| ==> u.rest < Pack(encode(ps[k].0), ps[k].1))
    && (k == |ps| ==> u.rest == [])
  }

  lemma {:induction false} UnpackPrefix<M(!new)>(
    encode: M -> seq<byte>, decode: seq<byte> -> Option<M>, ps: seq<(M, seq<byte>)>, arrived: seq<byte>)
    returns (k: nat)
    requires RoundTrips(encode, decode) && AllFit(encode, ps) && arrived <= Stream(encode, ps)
    ensures HandedOver(encode, ps, arrived, Unpack(decode, arrived), k)
    decreases |ps|
  {
    hide Unpack, Pack;
    k := 0;
    assert ps[..0] == [];
    assert Stream(encode, ps[..0]) + arrived == arrived;
    if ps == [] {
      EmptyWaits(decode);
    } else {
      var first := Pack(encode(ps[0].0), ps[0].1);
      assert Fits((encode(ps[0].0), ps[0].1));
      if |arrived| < |first| {
        assert arrived == first[..|arrived|];
        PartWaits(decode, encode(ps[0].0), ps[0].1, arrived);
      } else {
        var t := arrived[|first|..];
        assert arrived == first + t && t <= Stream(encode, ps[1..]);
        var j := UnpackPrefix(encode, decode, ps[1..], t);
        k := j + 1;
        UnpackPack(encode, decode, ps[0].0, ps[0].1, t);
        OneMore(encode, ps, t, Unpack(decode, t), j);
      }
    }
  }

  lemma OneMore<M>(encode: M -> seq<byte>, ps: seq<(M, seq<byte>)>, t: seq<byte>, u: Unpacked<M>, j: nat)
    requires ps != [] && HandedOver(encode, ps[1..], t, u, j)
    ensures HandedOver(encode, ps, Pack(encode(ps[0].0), ps[0].1) + t, Behind([ps[0]], u), j + 1)
  {
    hide Pack;
    var first := Pack(encode(ps[0].0), ps[0].1);
    assert ps[..j + 1] == [ps[0]] + ps[1..][..j] && ps[..j + 1][1..] == ps[1..][..j];
    assert Stream(encode, ps[..j + 1]) == first + Stream(encode, ps[1..][..j]);
    assert first + (Stream(encode, ps[1..][..j]) + u.rest) == first + Stream(encode, ps[1..][..j]) + u.rest;
  }

  /** The law of the framing: pack any pairs, cut what has arrived of the stream into any pieces, and the
      channel has handed over exactly the pairs whose frames are complete, once each and in order. */
  lemma AnyFragmentation<M(!new)>(
    encode: M -> seq<byte>, decode: seq<byte> -> Option<M>, ps: seq<(M, seq<byte>)>, pieces: seq<seq<byte>>)
    returns (k: nat)
    requires RoundTrips(encode, decode) && AllFit(encode, ps) && Flatten(pieces) <= Stream(encode, ps)
    ensures HandedOver(encode, ps, Flatten(pieces), Arrive(decode, Unpacked([], [], Waits), pieces), k)
    ensures Flatten(pieces) == Stream(encode, ps) ==> k == |ps|
  {
    k := UnpackPrefix(encode, decode, ps, Flatten(pieces));
    CuttingNeverMatters(decode, Unpacked([], [], Waits), pieces);
    assert [] + Flatten(pieces) == Flatten(pieces);
    if Flatten(pieces) == Stream(encode, ps) && k < |ps| {
      StreamSplit(encode, ps, k);
      assert |Pack(encode(ps[k].0), ps[k].1)| <= |Stream(encode, ps)| - |Stream(encode, ps[..k])|;
    }
  }

  lemma {:induction false} StreamSplit<M>(encode: M -> seq<byte>, ps: seq<(M, seq<byte>)>, k: nat)
    requires k < |ps|
    ensures |Stream(encode, ps)| >= |Stream(encode, ps[..k])| + |Pack(encode(ps[k].0), ps[k].1)|
    decreases |ps|
  {
    if k > 0 {
      StreamSplit(encode, ps[1..], k - 1);
      assert ps[..k][1..] == ps[1..][..k - 1];
    }
  }

  // ---------------------------------------------------------------- the bytes on the wire

  function Power256(k: nat): (p: nat)
    ensures p >= 1
  {
    if k == 0 then 1 else 256 * Power256(k - 1)
  }

  /** Four bytes are the number `n`, the most significant first. */
  predicate IsNumber(s: seq<byte>, n: nat) {
    |s| == 4 && n < Power256(4) && forall i :: 0 <= i < 4 ==> s[i] == n / Power256(3 - i) % 256
  }

  lemma Powers256()
    ensures Power256(0) == 1 && Power256(1) == 0x100 && Power256(2) == 0x1_0000 && Power256(3) == 0x100_0000
    ensures Power256(4) == UINT32_RANGE
  {
    assert Power256(2) == 0x1_0000;
  }

  lemma Be32IsNumber(n: nat)
    requires n < UINT32_RANGE
    ensures IsNumber(Be32(n), n)
  {
    Powers256();
    hide Power256;
    var s := Be32(n);
    assert s[0] == n / Power256(3) % 256 && s[1] == n / Power256(2) % 256;
    assert s[2] == n / Power256(1) % 256 && s[3] == n / Power256(0) % 256;
  }

  lemma NumberIsRead(s: seq<byte>, n: nat)
    requires IsNumber(s, n)
    ensures FromBe32(s) == n
  {
    Powers256();
    hide Power256;
    assert s == Be32(n) by {
      assert s[0] == n / Power256(3) % 256 && s[1] == n / Power256(2) % 256;
      assert s[2] == n / Power256(1) % 256 && s[3] == n / Power256(0) % 256;
    }
    Be32RoundTrip(n);
  }

  /** A head as it is on the wire: the letters ERPC, the length of meta and message together, the length of the meta. */
  predicate IsHead(s: seq<byte>, body: nat, meta: nat) {
    && |s| >= 12 && s[0] as int == 'E' as int && s[1] as int == 'R' as int && s[2] as int == 'P' as int
    && s[3] as int == 'C' as int && IsNumber(s[4..8], body) && IsNumber(s[8..12], meta)
  }

  /** A frame as it is on the wire. */
  predicate IsFrame(s: seq<byte>, meta: seq<byte>, msg: seq<byte>) {
    IsHead(s, |meta| + |msg|, |meta|) && s[12..] == meta + msg
  }

  /** What is packed is such a frame. */
  lemma PackIsFrame(meta: seq<byte>, msg: seq<byte>)
    requires Fits((meta, msg))
    ensures IsFrame(Pack(meta, msg), meta, msg)
  {
    hide IsNumber, Be32, BodyLength;
    BodyLengthIs(|meta|, |msg|);
    Be32IsNumber(|meta| + |msg|);
    Be32IsNumber(|meta|);
    var s := Pack(meta, msg);
    assert s[4..8] == Be32(|meta| + |msg|) && s[8..12] == Be32(|meta|);
    assert s[12..] == meta + msg && s[..4] == IDENTIFIER;
    assert s[0] == s[..4][0] && s[1] == s[..4][1] && s[2] == s[..4][2] && s[3] == s[..4][3];
  }

  /** How process reads a head: by its letters and its two numbers alone. */
  lemma HeadIsRead(s: seq<byte>, body: nat, meta: nat)
    requires IsHead(s, body, meta)
    ensures ReadHead(s) == if body < meta then Stop(BadLengths) else if |s| < 12 + body then Stop(Waits)
                           else Frame(body, meta)
  {
    hide IsNumber, FromBe32;
    NumberIsRead(s[4..8], body);
    NumberIsRead(s[8..12], meta);
    assert s[..4] == IDENTIFIER;
  }

  /** Such a frame, whatever comes behind it, is handed over as exactly its pair. */
  lemma FrameIsHandedOver<M>(
    decode: seq<byte> -> Option<M>, s: seq<byte>, meta: seq<byte>, msg: seq<byte>, t: seq<byte>)
    requires IsFrame(s, meta, msg) && decode(meta).Some?
    ensures Unpack(decode, s + t) == Behind([(decode(meta).value, msg)], Unpack(decode, t))
  {
    hide IsNumber;
    var all := s + t;
    assert all[4..8] == s[4..8] && all[8..12] == s[8..12];
    HeadIsRead(all, |meta| + |msg|, |meta|);
    hide ReadHead, IsHead;
    assert s[12..12 + |meta|] == meta && s[12 + |meta|..] == msg by {
      assert s[12..][..|meta|] == meta && s[12..][|meta|..] == msg;
    }
    assert all[12..12 + |meta|] == meta && all[12 + |meta|..12 + |meta| + |msg|] == msg;
    assert all[12 + |meta| + |msg|..] == t;
    UnpackTurn(decode, all);
  }

  /** Four bytes are some number. */
  lemma SomeNumber(s: seq<byte>)
    requires |s| == 4
    ensures IsNumber(s, FromBe32(s))
  {
    Powers256();
    hide Power256;
    var a: int, b: int, c: int, d: int := s[0], s[1], s[2], s[3];
    var n := FromBe32(s);
    assert n / 0x100_0000 == a && n / 0x1_0000 == a * 0x100 + b && n / 0x100 == a * 0x1_0000 + b * 0x100 + c;
    assert s[0] == n / Power256(3) % 256 && s[1] == n / Power256(2) % 256;
    assert s[2] == n / Power256(1) % 256 && s[3] == n / Power256(0) % 256;
  }

  /** Where process stops, and what it then leaves: at too few bytes for a head, or wrong letters. */
  lemma StopsAtHead<M>(decode: seq<byte> -> Option<M>, s: seq<byte>)
    ensures |s| < 12 ==> Unpack(decode, s) == Unpacked([], s, Waits)
    ensures |s| >= 12 && s[..4] != [69, 82, 80, 67] ==> Unpack(decode, s) == Unpacked([], s, BadIdentifier)
    ensures |s| >= 12 && s[..4] == [69, 82, 80, 67] ==> exists body: nat, meta: nat :: IsHead(s, body, meta)
  {
    hide FromBe32, IsHead;
    if |s| >= 12 && s[..4] == [69, 82, 80, 67] { HeadThere(s); }
  }

  /** And behind a head: at a meta that would be longer than the whole, at too few bytes for the frame, or at a meta
      that cannot be decoded. */
  lemma StopsBehindHead<M>(decode: seq<byte> -> Option<M>, s: seq<byte>, body: nat, meta: nat)
    requires IsHead(s, body, meta)
    ensures body < meta ==> Unpack(decode, s) == Unpacked([], s, BadLengths)
    ensures meta <= body && |s| < 12 + body ==> Unpack(decode, s) == Unpacked([], s, Waits)
    ensures meta <= body && 12 + body <= |s| ==>
              var m := decode(s[12..12 + meta]);
              Unpack(decode, s) == if m.None? then Unpacked([], s, SpinsOnMeta)
                                   else Behind([(m.value, s[12 + meta..12 + body])], Unpack(decode, s[12 + body..]))
  {
    hide ReadHead, IsHead, Unpack, Behind, TakeTurn;
    HeadTurn(decode, s, body, meta);
    UnpackTurn(decode, s);
  }

  lemma HeadTurn<M>(decode: seq<byte> -> Option<M>, s: seq<byte>, body: nat, meta: nat)
    requires IsHead(s, body, meta)
    ensures TakeTurn(decode, s) ==
            if body < meta then Ends(BadLengths)
            else if |s| < 12 + body then Ends(Waits)
            else var m := decode(s[12..12 + meta]);
                 if m.None? then Ends(SpinsOnMeta) else Takes((m.value, s[12 + meta..12 + body]), 12 + body)
  {
    HeadIsRead(s, body, meta);
    hide ReadHead, IsHead;
  }

  lemma HeadThere(s: seq<byte>)
    requires |s| >= 12 && s[..4] == IDENTIFIER
    ensures exists body, meta :: IsHead(s, body, meta)
  {
    SomeNumber(s[4..8]);
    SomeNumber(s[8..12]);
    hide IsNumber, FromBe32;
    assert s[0] == s[..4][0] && s[1] == s[..4][1] && s[2] == s[..4][2] && s[3] == s[..4][3];
    assert IsHead(s, FromBe32(s[4..8]), FromBe32(s[8..12]));
  }

  // ---------------------------------------------------------------- when the loop never returns

  /** The metas of the whole frames that a stream begins with, by their headers alone. */
  function Metas(s: seq<byte>): seq<seq<byte>>
    decreases |s|
  {
    match ReadHead(s)
    case Stop(_) => []
    case Frame(body, meta) => [s[HEADER_LEN..HEADER_LEN + meta]] + Metas(s[HEADER_LEN + body..])
  }

  predicate SomeUndecodable<M>(decode: seq<byte> -> Option<M>, metas: seq<seq<byte>>) {
    exists i :: 0 <= i < |metas| && decode(metas[i]).None?
  }

  lemma UndecodableCons<M>(decode: seq<byte> -> Option<M>, m: seq<byte>, ms: seq<seq<byte>>)
    ensures SomeUndecodable(decode, [m] + ms) <==> decode(m).None? || SomeUndecodable(decode, ms)
  {
    var all := [m] + ms;
    assert all[0] == m && forall i :: 0 <= i < |ms| ==> ms[i] == all[i + 1];
    if i :| 0 <= i < |ms| && decode(ms[i]).None? { assert decode(all[i + 1]).None?; }
    if i :| 0 <= i < |all| && decode(all[i]).None? { assert i > 0 ==> decode(ms[i - 1]).None?; }
  }

  /** Unpacking gets stuck exactly if the meta of some whole frame cannot be decoded. */
  lemma {:induction false} StuckExactlyWhen<M>(decode: seq<byte> -> Option<M>, s: seq<byte>)
    ensures Unpack(decode, s).end == SpinsOnMeta <==> SomeUndecodable(decode, Metas(s))
    decreases |s|
  {
    hide FromBe32;
    match ReadHead(s)
    case Stop(why) =>
    case Frame(body, meta) =>
      var m, rest := s[HEADER_LEN..HEADER_LEN + meta], s[HEADER_LEN + body..];
      UndecodableCons(decode, m, Metas(rest));
      if decode(m).Some? { StuckExactlyWhen(decode, rest); }
  }

  /** The loop of process as it runs: a meta that cannot be decoded leaves the buffer as it is and the loop going. */
  datatype Loop = Running(rest: seq<byte>) | Returned

  function OneTurn<M>(decode: seq<byte> -> Option<M>, l: Loop): Loop {
    match l
    case Returned => l
    case Running(s) =>
      match TakeTurn(decode, s)
      case Takes(_, used) => Running(s[used..])
      case Ends(why) => if why.SpinsOnMeta? then l else Returned
  }

  function Turns<M>(decode: seq<byte> -> Option<M>, l: Loop, n: nat): Loop
    decreases n
  {
    if n == 0 then l else Turns(decode, OneTurn(decode, l), n - 1)
  }

  lemma {:induction false} StuckStays<M>(decode: seq<byte> -> Option<M>, l: Loop, n: nat)
    requires OneTurn(decode, l) == l
    ensures Turns(decode, l, n) == l
  {
    hide OneTurn;
    if n > 0 { StuckStays(decode, l, n - 1); }
  }

  /** A loop that gets stuck is running after any number of turns; any other one has returned after one turn more
      than it has handed over frames. */
  lemma {:induction false} TurnsOfLoop<M>(decode: seq<byte> -> Option<M>, s: seq<byte>, n: nat)
    ensures var u := Unpack(decode, s);
            if u.end == SpinsOnMeta then Turns(decode, Running(s), n).Running?
            else n > |u.pairs| ==> Turns(decode, Running(s), n) == Returned
    decreases |s|, n
  {
    hide TakeTurn;
    UnpackTurn(decode, s);
    match TakeTurn(decode, s)
    case Ends(why) =>
      if why.SpinsOnMeta? {
        StuckStays(decode, Running(s), n);
      } else if n > 0 {
        StuckStays(decode, Returned, n - 1);
      }
    case Takes(_, used) => if n > 0 { TurnsOfLoop(decode, s[used..], n - 1); }
  }

  /** process never returns if and only if the meta of some whole frame cannot be decoded. */
  lemma NeverReturnsExactlyWhen<M>(decode: seq<byte> -> Option<M>, s: seq<byte>)
    ensures (forall n: nat :: Turns(decode, Running(s), n).Running?) <==> SomeUndecodable(decode, Metas(s))
  {
    hide Metas, Unpack, Turns;
    StuckExactlyWhen(decode, s);
    forall n: nat
      ensures Unpack(decode, s).end == SpinsOnMeta ==> Turns(decode, Running(s), n).Running?
    {
      TurnsOfLoop(decode, s, n);
    }
    TurnsOfLoop(decode, s, |Unpack(decode, s).pairs| + 1);
  }

  /** One packed pair whose meta cannot be decoded, whatever comes behind it: nothing is handed over, and the loop is
      never done. */
  lemma BadMetaSpins<M>(decode: seq<byte> -> Option<M>, meta: seq<byte>, msg: seq<byte>, t: seq<byte>, n: nat)
    requires Fits((meta, msg)) && decode(meta).None?
    ensures var s := Pack(meta, msg) + t;
            Unpack(decode, s) == Unpacked([], s, SpinsOnMeta) && Turns(decode, Running(s), n) == Running(s)
  {
    var s := Pack(meta, msg) + t;
    HeadOfPack(meta, msg, t);
    assert s[HEADER_LEN..HEADER_LEN + |meta|] == meta;
    hide ReadHead, Pack;
    assert TakeTurn(decode, s) == Ends(SpinsOnMeta);
    StuckStays(decode, Running(s), n);
  }

  // ---------------------------------------------------------------- the methods

  /** pack_send up to handing the buffer to the connection: the header is written, the two parts are
      serialized in place. */
  method PackSend(meta: seq<byte>, msg: seq<byte>) returns (b: Buffer)
    requires Fits((meta, msg))
    ensures fresh(b) && b.Valid() && b.Contents() == Pack(meta, msg) && IsFrame(b.Contents(), meta, msg)
  {
    hide Header, BodyLength, IsFrame;
    PackIsFrame(meta, msg);
    var bodyLen := BodyLength(|meta|, |msg|);
    BodyLengthIs(|meta|, |msg|);
    b := new Buffer(INITIAL_SIZE);
    b.EnsureWritable(bodyLen + HEADER_LEN);
    b.Write(Header(|meta|, |msg|));
    assert b.Contents() == Header(|meta|, |msg|);
    Serialize(b, meta);
    if |msg| > 0 { Serialize(b, msg); }
  }

  /** Serialization behind the written part of a buffer that has the room. */
  method Serialize(b: Buffer, data: seq<byte>)
    requires b.Valid() && |data| <= b.WritableBytes()
    modifies b, b.buff
    ensures b.Valid() && b.Contents() == old(b.Contents()) + data
    ensures b.buff == old(b.buff) && b.WritableBytes() == old(b.WritableBytes()) - |data|
  {
    b.Fill(data);
    b.HasWritten(|data|);
  }

  /** One turn, test by test. */
  lemma TurnTests<M>(decode: seq<byte> -> Option<M>, s: seq<byte>)
    requires |s| >= HEADER_LEN
    ensures s[..4] != IDENTIFIER ==> TakeTurn(decode, s) == Ends(BadIdentifier)
    ensures var body, meta := FromBe32(s[4..8]), FromBe32(s[8..12]);
            s[..4] == IDENTIFIER ==>
              if body < meta then TakeTurn(decode, s) == Ends(BadLengths)
              else if |s| < HEADER_LEN + body then TakeTurn(decode, s) == Ends(Waits)
              else
                var m := decode(s[HEADER_LEN..HEADER_LEN + meta]);
                if m.None? then TakeTurn(decode, s) == Ends(SpinsOnMeta)
                else TakeTurn(decode, s) ==
                     Takes((m.value, s[HEADER_LEN + meta..HEADER_LEN + body]), HEADER_LEN + body)
  {
    hide FromBe32;
  }

  /** process: hands over every complete frame and leaves the rest in the buffer. Every frame takes at least its
      header from the buffer. */
  method Process<M>(decode: seq<byte> -> Option<M>, buffer: Buffer) returns (pairs: seq<(M, seq<byte>)>, end: Outcome)
    requires buffer.Valid()
    modifies buffer
    ensures buffer.Valid() && buffer.written == old(buffer.written)
    ensures Unpacked(pairs, buffer.Contents(), end) == Unpack(decode, old(buffer.Contents()))
    ensures buffer.ReadableBytes() + HEADER_LEN * |pairs| <= old(buffer.ReadableBytes())
    ensures end == SpinsOnMeta <==> SomeUndecodable(decode, Metas(old(buffer.Contents())))
  {
    hide FromBe32, Unpack, TakeTurn, Behind, SomeUndecodable, Metas;
    StuckExactlyWhen(decode, buffer.Contents());
    ghost var all := Unpack(decode, buffer.Contents());
    pairs := [];
    BehindNothing(all);
    while buffer.ReadableBytes() >= HEADER_LEN
      invariant buffer.Valid() && buffer.written == old(buffer.written) && buffer.buff == old(buffer.buff)
      invariant all == Behind(pairs, Unpack(decode, buffer.Contents()))
      invariant buffer.ReadableBytes() + HEADER_LEN * |pairs| <= old(buffer.ReadableBytes())
      decreases buffer.ReadableBytes()
    {
      var data := buffer.buff[buffer.readIndex..buffer.writeIndex];
      TurnTests(decode, data);
      UnpackTurn(decode, data);
      BehindEnds(pairs, data);
      if data[..4] != IDENTIFIER { return pairs, BadIdentifier; }
      var bodyLen, metaLen := FromBe32(data[4..8]), FromBe32(data[8..12]);
      if bodyLen < metaLen { return pairs, BadLengths; }
      if buffer.ReadableBytes() < HEADER_LEN + bodyLen { return pairs, Waits; }
      match decode(data[HEADER_LEN..HEADER_LEN + metaLen])
      case None => return pairs, SpinsOnMeta;
      case Some(meta) =>
        var pair := (meta, data[HEADER_LEN + metaLen..HEADER_LEN + bodyLen]);
        BehindBehind(pairs, [pair], Unpack(decode, data[HEADER_LEN + bodyLen..]));
        pairs := pairs + [pair];
        buffer.HasReaded(HEADER_LEN + bodyLen);
    }
    ShortWaits(decode, buffer.Contents());
    BehindEnds(pairs, buffer.Contents());
    return pairs, Waits;
  }

  lemma ShortWaits<M>(decode: seq<byte> -> Option<M>, s: seq<byte>)
    requires |s| < HEADER_LEN
    ensures Unpack(decode, s) == Unpacked([], s, Waits)
  {
  }

  // ---------------------------------------------------------------- calls and responses

  /** The client's side: the calls that wait for a response, by correlation id. */
  class Calls<C> {
    var id: int
    var reqs: map<int, C>
    /** Every call ever made, and the ids of those that were completed. */
    ghost var made: map<int, C>
    ghost var completed: set<int>

    /** A call is either waiting or completed, never both, and ids are never used again. */
    ghost predicate Valid()
      reads this
    {
      && reqs.Keys !! completed && reqs.Keys + completed == made.Keys
      && (forall k :: k in reqs ==> reqs[k] == made[k])
      && (forall k :: k in made ==> k < id)
    }

    /** The first id is whatever the counter holds. */
    constructor (first: int)
      ensures Valid() && id == first && made == map[] && completed == {}
    {
      id, reqs, made, completed := first, map[], map[], {};
    }

    method CallMethod(ctrl: C) returns (call: int)
      requires Valid()
      modifies this
      ensures Valid() && call !in old(made) && made == old(made)[call := ctrl] && completed == old(completed)
    {
      call := id;
      id := id + 1;
      reqs := reqs[call := ctrl];
      made := made[call := ctrl];
    }

    /** The response branch of process_message: it completes the call it belongs to, the first time it comes;
        a second response, or one to a call never made, changes nothing. */
    method ProcessResponse(call: int) returns (ctrl: Option<C>)
      requires Valid()
      modifies this
      ensures Valid() && made == old(made)
      ensures call in made && call !in old(completed) ==>
                ctrl == Some(made[call]) && completed == old(completed) + {call}
      ensures call !in made || call in old(completed) ==>
                ctrl == None && completed == old(completed) && reqs == old(reqs)
    {
      ctrl := None;
      if call in reqs {
        ctrl := Some(reqs[call]);
        reqs := reqs - {call};
        completed := completed + {call};
      }
    }
  }
}
