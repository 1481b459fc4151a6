// A call over many bytes and single-byte calls deliver the same data: the simulation between the
// marks of http_parser_execute and the reference semantics.

module HttpMarks {
  import opened Words
  import opened HttpChars
  import opened HttpParser
  import opened HttpInvariant
  import opened HttpRun

  /** The bytes held back by a mark of kind `k`, delivered. */
  function Held(k: DataKind, marks: Marks, t: Trace, data: seq<Byte>, p: nat): Trace
    requires p <= |data|
  {
    if k in marks && marks[k] < p then Emit(t, Data(k, data[marks[k]..p])) else t
  }

  /** Between two bytes: trace `t` with the marks pending at `p` is what byte-wise calls delivered, `u`. */
  predicate Holds(pen: Pen, marks: Marks, t: Trace, data: seq<Byte>, p: nat, u: Trace)
    requires p <= |data|
  {
    match pen
    case Closed => marks == map[] && u == t
    case Open(k) => marks.Keys == {k} && (marks[k] < p || marks[k] == p == 0) && u == Held(k, marks, t, data, p)
    case Half(k) => marks.Keys <= {k} && (k in marks ==> marks[k] < p) && u == Held(k, marks, t, data, p)
  }

  /** Inside the turn for byte `p`: the same, with the marks `ones` and the trace `u` of the
      single-byte call. */
  predicate Agrees(pen: Pen, marks: Marks, t: Trace, data: seq<Byte>, p: nat, ones: Marks, u: Trace)
    requires p < |data|
  {
    match pen
    case Closed => marks == map[] && ones == map[] && u == t
    case Open(k) => marks.Keys == {k} && marks[k] <= p && ones == map[k := 0] && u == Held(k, marks, t, data, p)
    case Half(k) => Holds(pen, marks, t, data, p, u) && ones == map[]
  }

  lemma AgreesBounds(pen: Pen, marks: Marks, t: Trace, data: seq<Byte>, p: nat, ones: Marks, u: Trace)
    requires p < |data| && Agrees(pen, marks, t, data, p, ones, u)
    ensures (forall k <- marks :: marks[k] <= p) && (forall k <- ones :: ones[k] == 0)
  {
    if !pen.Closed? {
      assert forall k <- marks :: k in marks.Keys && k == pen.kind;
    }
  }

  lemma MarkAgrees(pen: Pen, k: DataKind, marks: Marks, t: Trace, data: seq<Byte>, p: nat, ones: Marks, u: Trace)
    requires p < |data| && Agrees(pen, marks, t, data, p, ones, u) && PenAfter(pen, Mark(k)).Some?
    ensures Agrees(PenAfter(pen, Mark(k)).value, if k in marks then marks else marks[k := p], t, data, p,
                   if k in ones then ones else ones[k := 0], u)
  {
    hide Emit;
    if !pen.Closed? { assert marks.Keys <= {k}; }
  }

  lemma FlushOneAgrees(pen: Pen, k: DataKind, marks: Marks, t: Trace, data: seq<Byte>, p: nat, ones: Marks, u: Trace)
    requires p < |data| && Agrees(pen, marks, t, data, p, ones, u) && PenAfter(pen, Flush(k)).Some?
    requires (forall j <- marks :: marks[j] <= p) && (forall j <- ones :: ones[j] == 0)
    ensures var (m, t') := PlayOne(Flush(k), marks, t, data, p);
            var (o, u') := PlayOne(Flush(k), ones, u, [data[p]], 0);
            Agrees(PenAfter(pen, Flush(k)).value, m, t', data, p, o, u')
  {
    hide Emit;
    var one := [data[p]];
    assert one[0..0] == [];
    if k in marks {
      EmitJoins(t, k, data[marks[k]..p], []);
      assert data[marks[k]..p] + [] == data[marks[k]..p];
      assert marks[k] == p ==> data[marks[k]..p] == [];
    }
    assert marks - {k} == map[];
    assert ones - {k} == map[];
  }

  lemma FlushThroughAgrees(pen: Pen, k: DataKind, marks: Marks, t: Trace, data: seq<Byte>, p: nat, ones: Marks,
                           u: Trace)
    requires p < |data| && Agrees(pen, marks, t, data, p, ones, u) && PenAfter(pen, FlushThrough(k)).Some?
    requires (forall j <- marks :: marks[j] <= p) && (forall j <- ones :: ones[j] == 0)
    ensures var (m, t') := PlayOne(FlushThrough(k), marks, t, data, p);
            var (o, u') := PlayOne(FlushThrough(k), ones, u, [data[p]], 0);
            Agrees(PenAfter(pen, FlushThrough(k)).value, m, t', data, p, o, u')
  {
    hide Emit;
    var one := [data[p]];
    assert one[0..1] == one;
    EmitJoins(t, k, data[marks[k]..p], one);
    assert data[marks[k]..p] + one == data[marks[k]..p + 1];
    assert marks[k] == p ==> data[marks[k]..p + 1] == one;
    assert marks - {k} == map[];
    assert ones - {k} == map[];
  }

  /** One action on the long input and on the single byte. */
  lemma PlayOneAgrees(pen: Pen, a: Act, marks: Marks, t: Trace, data: seq<Byte>, p: nat, ones: Marks, u: Trace)
    requires p < |data| && Agrees(pen, marks, t, data, p, ones, u) && PenAfter(pen, a).Some?
    requires (forall k <- marks :: marks[k] <= p) && (forall k <- ones :: ones[k] == 0)
    ensures var (m, t') := PlayOne(a, marks, t, data, p);
            var (o, u') := PlayOne(a, ones, u, [data[p]], 0);
            Agrees(PenAfter(pen, a).value, m, t', data, p, o, u')
  {
    match a
    case Mark(k) => MarkAgrees(pen, k, marks, t, data, p, ones, u);
    case Flush(k) => FlushOneAgrees(pen, k, marks, t, data, p, ones, u);
    case FlushThrough(k) => FlushThroughAgrees(pen, k, marks, t, data, p, ones, u);
    case Notify(e) =>
  }

  lemma {:induction false} PlayAgrees(pen: Pen, acts: seq<Act>, marks: Marks, t: Trace, data: seq<Byte>, p: nat,
                                      ones: Marks, u: Trace)
    requires p < |data| && Agrees(pen, marks, t, data, p, ones, u) && PenAfterAll(pen, acts).Some?
    requires (forall k <- marks :: marks[k] <= p) && (forall k <- ones :: ones[k] == 0)
    ensures var (m, t') := Play(acts, marks, t, data, p);
            var (o, u') := Play(acts, ones, u, [data[p]], 0);
            Agrees(PenAfterAll(pen, acts).value, m, t', data, p, o, u')
    decreases |acts|
  {
    hide Agrees, PenAfter, PlayOne;
    if acts != [] {
      var (m, t') := PlayOne(acts[0], marks, t, data, p);
      var (o, u') := PlayOne(acts[0], ones, u, [data[p]], 0);
      var q := PenAfter(pen, acts[0]).value;
      PlayOneAgrees(pen, acts[0], marks, t, data, p, ones, u);
      AgreesBounds(q, m, t', data, p, o, u');
      if |acts| == 1 { assert acts[1..] == []; }
      PlayAgrees(q, acts[1..], m, t', data, p, o, u');
    }
  }

  lemma EntryAgrees(s: State, marks: Marks, t: Trace, data: seq<Byte>, p: nat, u: Trace)
    requires p < |data| && Holds(PenOf(s), marks, t, data, p, u)
    ensures Agrees(PenOf(s), marks, t, data, p, EntryMarks(s), u)
    ensures forall k <- marks :: marks[k] <= p
    ensures forall k <- EntryMarks(s) :: EntryMarks(s)[k] == 0
  {
    AgreesBounds(PenOf(s), marks, t, data, p, EntryMarks(s), u);
  }

  lemma FlushAllOne(k: DataKind, u: Trace, ch: Byte)
    ensures FlushAll(map[], u, [ch]) == u
    ensures FlushAll(map[k := 0], u, [ch]) == Emit(u, Data(k, [ch]))
  {
    hide Emit;
    assert [ch][0..] == [ch];
  }

  lemma PlayNothing(t: Trace, ch: Byte)
    ensures Play([], map[], t, [ch], 0) == (map[], t)
  {
  }

  lemma PlayNotice(a: Act, t: Trace, ch: Byte)
    requires a.Notify?
    ensures Play([a], map[], t, [ch], 0) == (map[], Emit(t, a.event))
  {
    hide Emit;
    assert [a][1..] == [];
  }

  /** The end of the single-byte call delivers its byte; on the long input it stays behind the mark. */
  lemma FlushAgrees(pen: Pen, marks: Marks, t: Trace, data: seq<Byte>, p: nat, ones: Marks, u: Trace, next: Pen)
    requires p < |data| && Agrees(pen, marks, t, data, p, ones, u) && !pen.Half? && Fits(pen, next)
    requires forall k <- ones :: ones[k] == 0
    ensures Holds(next, marks, t, data, p + 1, FlushAll(ones, u, [data[p]]))
  {
    hide FlushAll, Emit;
    var one := [data[p]];
    FlushAllOne(BodyData, u, data[p]);
    if pen.Open? {
      var k := pen.kind;
      FlushAllOne(k, u, data[p]);
      EmitJoins(t, k, data[marks[k]..p], one);
      assert data[marks[k]..p] + one == data[marks[k]..p + 1];
      assert marks[k] == p ==> data[marks[k]..p + 1] == one;
    }
  }

  /** An error leaves a data callback unfinished: in `t` it has not been made, and in `u` with `y`. */
  predicate HeldBack(t: Trace, u: Trace, k: DataKind, y: seq<Byte>) { u == Emit(t, Data(k, y)) }

  /** Or it is a header's, and has been made with more bytes in `t` than in `u`. */
  predicate Longer(t: Trace, u: Trace, before: Trace, k: DataKind, x: seq<Byte>, y: seq<Byte>) {
    k != BodyData && y <= x && t == Emit(before, Data(k, x)) && u == Emit(before, Data(k, y))
  }

  /** Trace `t` of a call that ends in an error, against trace `u` of byte-wise calls: they agree but for
      the data callback the error cuts short. */
  ghost predicate Like(t: Trace, u: Trace) {
    || t == u
    || (exists k, y :: HeldBack(t, u, k, y))
    || (exists before, k, x, y :: Longer(t, u, before, k, x, y))
  }

  lemma AgreesLike(pen: Pen, marks: Marks, t: Trace, data: seq<Byte>, p: nat, ones: Marks, u: Trace)
    requires p < |data| && Agrees(pen, marks, t, data, p, ones, u)
    ensures Like(t, u)
  {
    hide Emit;
    if u != t {
      var k := pen.kind;
      assert HeldBack(t, u, k, data[marks[k]..p]);
    }
  }

  /** The turn for byte `p` of a long input, against the single-byte call `s`. */
  ghost predicate InStep(fed: Fed, marks: Marks, t: Trace, data: seq<Byte>, p: nat, s: Ran)
    requires p < |data| && forall k <- marks :: marks[k] <= p
  {
    var (m, t') := Play(fed.acts, marks, t, data, p);
    if fed.Refused? then s.outcome.Failed? && s.ps.errno == fed.errno && Like(t', s.trace)
    else
      && s.ps == fed.ps && Valid(fed.ps)
      && if fed.exit then s == Ran(fed.ps, t', 1, Upgraded)
         else s.outcome.Going? && s.used == 1 && Holds(PenOf(fed.ps.state), m, t', data, p + 1, s.trace)
  }

  /** One byte inside a long input: playing its actions keeps the marks in step with the byte-wise call. */
  lemma FeedAgrees(ps: Parser, marks: Marks, t: Trace, data: seq<Byte>, p: nat, u: Trace)
    requires Valid(ps) && p < |data| && Holds(PenOf(ps.state), marks, t, data, p, u)
    ensures forall k <- marks :: marks[k] <= p
    ensures InStep(Feed(ps, data[p]), marks, t, data, p, Step(ps, u, data[p]))
  {
    hide Feed, Valid, PenAfterAll, Agrees, Holds, FlushAll, Fits, Like;
    FeedOk(ps, data[p]);
    EntryAgrees(ps.state, marks, t, data, p, u);
    var fed := Feed(ps, data[p]);
    var (m, t') := Play(fed.acts, marks, t, data, p);
    var (o, u') := Play(fed.acts, EntryMarks(ps.state), u, [data[p]], 0);
    FeedDiscipline(ps, data[p]);
    PlayAgrees(PenOf(ps.state), fed.acts, marks, t, data, p, EntryMarks(ps.state), u);
    var q := PenAfterAll(PenOf(ps.state), fed.acts).value;
    AgreesBounds(q, m, t', data, p, o, u');
    if fed.Refused? {
      AgreesLike(q, m, t', data, p, o, u');
    } else if fed.exit {
      ClosedAgrees(m, t', data, p, o, u');
    } else {
      FitsClosedOrOpen(q, PenOf(fed.ps.state));
      FlushAgrees(q, m, t', data, p, o, u', PenOf(fed.ps.state));
    }
  }

  lemma ClosedAgrees(marks: Marks, t: Trace, data: seq<Byte>, p: nat, ones: Marks, u: Trace)
    requires p < |data| && Agrees(Closed, marks, t, data, p, ones, u)
    ensures t == u
  {
  }

  lemma FitsClosedOrOpen(q: Pen, r: Pen)
    requires Fits(q, r)
    ensures !q.Half?
  {
  }

  lemma FeedDiscipline(ps: Parser, ch: Byte)
    ensures match Feed(ps, ch)
            case Fed(next, acts, exit) =>
              var q := PenAfterAll(PenOf(ps.state), acts);
              q.Some? && if exit then q == Some(Closed) else Fits(q.value, PenOf(next.state))
            case Refused(_, acts) => PenAfterAll(PenOf(ps.state), acts).Some?
  {
    hide Chain, PenAfterAll, OpenKind, Fits;
    NoActs(PenOf(ps.state));
    ChainDiscipline(ps, ch);
    var n := CountHeader(ps.nread, 1);
    if n.Some? { ChainDiscipline(ps.(nread := n.value), ch); }
  }
}
