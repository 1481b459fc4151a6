// What one byte amounts to, turn by turn: how the turns of a byte make up its step, and what the step delivers.

module HttpSteps {
  import opened Words
  import opened HttpChars
  import opened HttpParser
  import opened HttpInvariant
  import opened HttpRun
  import opened HttpMarks

  // ---------------------------------------------------------------- the turns of a byte

  lemma ChainOnce(ps: Parser, ch: Byte, next: Parser, acts: seq<Act>)
    requires Dispatch(ps, ch) == Next(next, acts)
    ensures Chain(ps, ch) == Fed(next, acts, false)
  {
    hide Dispatch;
  }

  lemma ChainAgain(ps: Parser, ch: Byte, mid: Parser, acts: seq<Act>, next: Parser, more: seq<Act>, exit: bool)
    requires Dispatch(ps, ch) == Again(mid, acts) && Chain(mid, ch) == Fed(next, more, exit)
    ensures Chain(ps, ch) == Fed(next, acts + more, exit)
  {
    AgainLowersRank(ps, ch);
    hide Dispatch;
  }

  lemma ChainTwice(ps: Parser, ch: Byte, mid: Parser, acts: seq<Act>, next: Parser, more: seq<Act>)
    requires Dispatch(ps, ch) == Again(mid, acts) && Dispatch(mid, ch) == Next(next, more)
    ensures Chain(ps, ch) == Fed(next, acts + more, false)
  {
    hide Dispatch;
    ChainOnce(mid, ch, next, more);
    ChainAgain(ps, ch, mid, acts, next, more, false);
  }

  // ---------------------------------------------------------------- what a step delivers

  /** A header byte that all goes well with. */
  predicate Feeds(ps: Parser, ch: Byte, next: Parser, acts: seq<Act>) {
    && ParsingHeader(ps.state) && ps.nread < MAX_HEADER_SIZE
    && Chain(ps.(nread := ps.nread + 1), ch) == Fed(next, acts, false)
  }

  lemma FeedsFeed(ps: Parser, ch: Byte, next: Parser, acts: seq<Act>)
    requires Feeds(ps, ch, next, acts)
    ensures Feed(ps, ch) == Fed(next, acts, false)
  {
    hide Chain, ParsingHeader;
  }

  /** Outside all data a byte that does nothing but move the state. */
  lemma SilentStep(ps: Parser, t: Trace, ch: Byte, next: Parser)
    requires Feeds(ps, ch, next, []) && OpenKind(ps.state).None?
    ensures Step(ps, t, ch) == Ran(next, t, 1, Going)
  {
    FeedsFeed(ps, ch, next, []);
    hide Feeds, Feed, FlushAll, OpenKind;
    PlayNothing(t, ch);
    FlushAllOne(BodyData, t, ch);
  }

  /** The first byte of a piece of data. */
  lemma OpeningStep(ps: Parser, t: Trace, ch: Byte, next: Parser, k: DataKind)
    requires Feeds(ps, ch, next, [Mark(k)]) && OpenKind(ps.state).None?
    ensures Step(ps, t, ch) == Ran(next, Emit(t, Data(k, [ch])), 1, Going)
  {
    FeedsFeed(ps, ch, next, [Mark(k)]);
    hide Feeds, Feed, FlushAll, OpenKind, Emit;
    var none: seq<Act> := [];
    assert [Mark(k)][1..] == none;
    assert Play([Mark(k)], map[], t, [ch], 0) == (map[k := 0], t);
    FlushAllOne(k, t, ch);
  }

  /** A further byte of it. */
  lemma DataStep(ps: Parser, t: Trace, ch: Byte, next: Parser, k: DataKind)
    requires Feeds(ps, ch, next, []) && OpenKind(ps.state) == Some(k)
    ensures Step(ps, t, ch) == Ran(next, Emit(t, Data(k, [ch])), 1, Going)
  {
    FeedsFeed(ps, ch, next, []);
    hide Feeds, Feed, FlushAll, OpenKind, Emit;
    FlushAllOne(k, t, ch);
  }

  /** The byte behind it. */
  lemma ClosingStep(ps: Parser, t: Trace, ch: Byte, next: Parser, k: DataKind)
    requires Feeds(ps, ch, next, [Flush(k)]) && OpenKind(ps.state) == Some(k) && Joins(t, k)
    ensures Step(ps, t, ch) == Ran(next, t, 1, Going)
  {
    FeedsFeed(ps, ch, next, [Flush(k)]);
    hide Feeds, Feed, FlushAll, OpenKind;
    var none: seq<Act> := [];
    assert [Flush(k)][1..] == none && [ch][0..0] == [];
    EmptyJoin(t, k);
    hide Emit;
    assert map[k := 0] - {k} == map[];
    assert Play([Flush(k)], map[k := 0], t, [ch], 0) == (map[], Emit(t, Data(k, [])));
    FlushAllOne(k, t, ch);
  }

  lemma EmptyJoin(t: Trace, k: DataKind)
    requires Joins(t, k)
    ensures Emit(t, Data(k, [])) == t
  {
    var n := |t| - 1;
    assert t[n].bytes + [] == t[n].bytes;
    assert t == t[..n] + [t[n]];
  }

  /** A notification. */
  lemma NoticeStep(ps: Parser, t: Trace, ch: Byte, next: Parser, a: Act)
    requires Feeds(ps, ch, next, [a]) && a.Notify? && OpenKind(ps.state).None?
    ensures Step(ps, t, ch) == Ran(next, Emit(t, a.event), 1, Going)
  {
    FeedsFeed(ps, ch, next, [a]);
    hide Feeds, Feed, FlushAll, OpenKind, Emit;
    PlayNotice(a, t, ch);
    FlushAllOne(BodyData, Emit(t, a.event), ch);
  }

  /** Two of them. */
  lemma NoticesStep(ps: Parser, t: Trace, ch: Byte, next: Parser, a: Act, b: Act, exit: bool)
    requires Feed(ps, ch) == Fed(next, [a, b], exit) && a.Notify? && b.Notify? && OpenKind(ps.state).None?
    ensures Step(ps, t, ch)
         == Ran(next, Emit(Emit(t, a.event), b.event), 1, if exit then Upgraded else Going)
  {
    hide Feed, FlushAll, OpenKind, Emit;
    assert [a, b][1..] == [b];
    assert Play([a, b], map[], t, [ch], 0) == Play([b], map[], Emit(t, a.event), [ch], 0);
    PlayNotice(b, Emit(t, a.event), ch);
    FlushAllOne(BodyData, Emit(Emit(t, a.event), b.event), ch);
  }

  /** One step more of a run that goes on. */
  lemma RunSnoc(ps: Parser, t: Trace, data: seq<Byte>, ch: Byte, next: Parser, u: Trace)
    requires Valid(ps) && Run(ps, t, data).outcome.Going?
    requires Step(Run(ps, t, data).ps, Run(ps, t, data).trace, ch) == Ran(next, u, 1, Going)
    ensures Run(ps, t, data + [ch]) == Ran(next, u, |data| + 1, Going) && Valid(next)
  {
    hide Step, Valid;
    RunOk(ps, t, data);
    var r := Run(ps, t, data);
    RunConcat(ps, t, data, [ch]);
    RunOne(r.ps, r.trace, ch);
    RunUsed(ps, t, data);
    StepOk(r.ps, r.trace, ch);
  }

  /** One silent byte more. */
  lemma SilentSnoc(ps: Parser, t: Trace, data: seq<Byte>, ch: Byte, at: Parser, u: Trace, next: Parser)
    requires Valid(ps) && Run(ps, t, data) == Ran(at, u, |data|, Going)
    requires OpenKind(at.state).None? && ParsingHeader(at.state) && at.nread < MAX_HEADER_SIZE
    requires Dispatch(at.(nread := at.nread + 1), ch) == Next(next, [])
    ensures Run(ps, t, data + [ch]) == Ran(next, u, |data| + 1, Going) && Valid(next)
  {
    hide Run, Step, Valid, Chain, Dispatch;
    ChainOnce(at.(nread := at.nread + 1), ch, next, []);
    SilentStep(at, u, ch, next);
    RunSnoc(ps, t, data, ch, next, u);
  }

  lemma EmptyRun(ps: Parser, t: Trace)
    requires Valid(ps)
    ensures Run(ps, t, []) == Ran(ps, t, 0, Going)
  {
  }

  /** One byte of data more. */
  lemma DataSnoc(ps: Parser, t: Trace, u: seq<Byte>, c: Byte, q: Parser, r: Parser, k: DataKind)
    requires Valid(ps) && Run(ps, t, u) == Ran(q, t + [Data(k, u)], |u|, Going)
    requires Feeds(q, c, r, []) && OpenKind(q.state) == Some(k)
    ensures Run(ps, t, u + [c]) == Ran(r, t + [Data(k, u + [c])], |u| + 1, Going) && Valid(r)
  {
    hide Run, Step, Valid, Chain, Dispatch, Feeds, Emit, OpenKind;
    var w := t + [Data(k, u)];
    DataStep(q, w, c, r, k);
    EmitJoined(w, k, [c]);
    assert w[..|t|] == t;
    RunSnoc(ps, t, u, c, r, t + [Data(k, u + [c])]);
  }
}
