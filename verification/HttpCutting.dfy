// Where a request stream is cut into pieces makes no difference.

module HttpCutting {
  import opened Words
  import opened Seqs
  import opened HttpChars
  import opened HttpParser
  import opened HttpInvariant
  import opened HttpRun
  import opened HttpMarks
  import opened HttpFraming
  import opened HttpExecute

  /** Byte-wise runs of the pieces, one after the other, until one does not go on. */
  function Feeds(ps: Parser, t: Trace, pieces: seq<seq<Byte>>): Ran
    decreases |pieces|
  {
    if pieces == [] then Run(ps, t, [])
    else
      var r := Run(ps, t, pieces[0]);
      if r.outcome.Going? then
        var s := Feeds(r.ps, r.trace, pieces[1..]);
        s.(used := r.used + s.used)
      else r
  }

  lemma {:induction false} FeedsIsRun(ps: Parser, t: Trace, pieces: seq<seq<Byte>>)
    ensures Feeds(ps, t, pieces) == Run(ps, t, Flatten(pieces))
    decreases |pieces|
  {
    hide Run;
    if pieces != [] {
      FlattenFirst(pieces);
      RunConcat(ps, t, pieces[0], Flatten(pieces[1..]));
      var r := Run(ps, t, pieces[0]);
      if r.outcome.Going? { FeedsIsRun(r.ps, r.trace, pieces[1..]); }
    }
  }

  /** Two ways of cutting one stream end in the same parser, with the same callbacks in the same
      order carrying the same bytes, and with the same verdict. */
  lemma CuttingNeverMatters(ps: Parser, t: Trace, pieces: seq<seq<Byte>>, others: seq<seq<Byte>>)
    requires Flatten(pieces) == Flatten(others)
    ensures Feeds(ps, t, pieces) == Feeds(ps, t, others)
  {
    hide Run, Feeds;
    FeedsIsRun(ps, t, pieces);
    FeedsIsRun(ps, t, others);
  }

  /** Piece `i` of a stream can be counted in lumps: unless the stream has been refused before, it is short
      or its header lines are. */
  ghost predicate PieceFits(ps: Parser, t: Trace, pieces: seq<seq<Byte>>, i: nat)
    requires i < |pieces|
  {
    var r := Run(ps, t, Flatten(pieces[..i]));
    || r.outcome.Failed?
    || |pieces[i]| < LUMP_LIMIT
    || (r.outcome.Going? && LinesFit(Call(r.ps, r.trace, pieces[i])))
  }

  lemma NextFits(ps: Parser, t: Trace, pieces: seq<seq<Byte>>, i: nat, here: Parser, u: Trace)
    requires i < |pieces| && PieceFits(ps, t, pieces, i)
    requires var r := Run(ps, t, Flatten(pieces[..i]));
             !r.outcome.Failed? && (r.outcome.Going? ==> r.ps == here && r.trace == u)
    ensures LinesFit(Call(here, u, pieces[i]))
  {
    hide Run, LinesFit;
    if |pieces[i]| < LUMP_LIMIT { ShortFits(Call(here, u, pieces[i])); }
  }

  /** http_parser_execute on the pieces, as a connection delivers them, against a single run over the
      whole stream. A stream that is accepted without an upgrade is accepted in pieces, and the parser
      and the callbacks end up the same. A stream that is refused is refused in pieces, with the callbacks of the
      run but for the one that the error cuts short. Whatever happens, the callbacks stay well framed. */
  method FeedPieces(http: Http, pieces: seq<seq<Byte>>)
    requires Valid(http.Parser())
    requires forall i :: 0 <= i < |pieces| ==>
               pieces[i] != [] && PieceFits(http.Parser(), http.trace, pieces, i)
    modifies http
    ensures var r := Run(old(http.Parser()), old(http.trace), Flatten(pieces));
            && (r.outcome.Going? ==> http.Parser() == r.ps && Valid(r.ps) && http.trace == r.trace)
            && (r.outcome.Failed? ==> http.errno != Ok && SameFault(r, http.trace, http.errno))
    ensures old(http.WellFramed()) ==> http.WellFramed()
  {
    hide Run, Valid, PieceFits, LinesFit, SameFault, StageFits, StageOf;
    ghost var ps, t := http.Parser(), http.trace;
    ghost var r := Run(ps, t, []);
    RunEmpty(ps, t);
    for i := 0 to |pieces|
      invariant http.errno == Ok ==> Valid(http.Parser())
      invariant old(http.WellFramed()) ==> http.WellFramed()
      invariant r.outcome.Going? ==>
                  && r == Run(ps, t, Flatten(pieces[..i]))
                  && r.ps == http.Parser() && Valid(r.ps) && r.trace == http.trace
      invariant !r.outcome.Going? ==> r == Run(ps, t, Flatten(pieces)) && r == Run(ps, t, Flatten(pieces[..i]))
      invariant r.outcome.Failed? ==> http.errno != Ok && SameFault(r, http.trace, http.errno)
    {
      ghost var was := http.Parser();
      FailedStays(was, http.trace, pieces[i]);
      if !r.outcome.Failed? { NextFits(ps, t, pieces, i, was, http.trace); }
      FlattenNext(pieces, i);
      RunConcat(ps, t, Flatten(pieces[..i]), pieces[i]);
      var n := http.Execute(pieces[i]);
      if r.outcome.Going? {
        ValidErrno(was);
        ghost var s := Run(was, r.trace, pieces[i]);
        r := Run(ps, t, Flatten(pieces[..i + 1]));
        FaultIgnoresUsed(s, r.used, http.trace, http.errno);
        FlattenSplit(pieces, i + 1);
        RunConcat(ps, t, Flatten(pieces[..i + 1]), Flatten(pieces[i + 1..]));
      }
    }
    assert pieces[..|pieces|] == pieces;
  }

  lemma FaultIgnoresUsed(r: Ran, n: nat, t: Trace, e: Errno)
    ensures SameFault(r.(used := n), t, e) == SameFault(r, t, e)
  {
  }

  lemma FailedStays(ps: Parser, t: Trace, data: seq<Byte>)
    ensures ps.errno != Ok ==> Run(ps, t, data).outcome.Failed?
  {
  }

  lemma RunEmpty(ps: Parser, t: Trace)
    requires Valid(ps)
    ensures Run(ps, t, []) == Ran(ps, t, 0, Going)
  {
    hide StateInv;
  }

  lemma ValidErrno(ps: Parser)
    requires Valid(ps)
    ensures ps.errno == Ok
  {
    hide StateInv;
  }

  /** The exact reach of the lump counter: it agrees with counting byte by byte if and only if the lump
      stays within the limit or does not wrap round to it. */
  lemma LumpCountAgrees(nread: nat, v: nat)
    requires nread <= MAX_HEADER_SIZE
    ensures CountHeader(nread, v) == CountEach(nread, v)
            <==> nread + v <= MAX_HEADER_SIZE || (nread + v) % UINT32_RANGE > MAX_HEADER_SIZE
  {
    CountEachIs(nread, v);
  }

  function CountEach(nread: nat, v: nat): Option<nat>
    decreases v
  {
    if v == 0 then Some(nread)
    else match CountHeader(nread, 1)
         case None => None
         case Some(n) => CountEach(n, v - 1)
  }

  lemma {:induction false} CountEachIs(nread: nat, v: nat)
    requires nread <= MAX_HEADER_SIZE
    ensures CountEach(nread, v) == if nread + v <= MAX_HEADER_SIZE then Some(nread + v) else None
    decreases v
  {
    if v > 0 && nread + 1 <= MAX_HEADER_SIZE { CountEachIs(nread + 1, v - 1); }
  }

  /** One byte of a header value that nobody looks for. */
  lemma PlainByte(ps: Parser, t: Trace, ch: Byte)
    requires Valid(ps) && ps.state.HeaderValue? && ps.hstate.General? && IsHeaderChar(ch) && !EndsLine(ch)
    ensures var s := Step(ps, t, ch);
            if ps.nread < MAX_HEADER_SIZE then s.outcome.Going? && s.ps == ps.(nread := ps.nread + 1)
            else s.outcome.Failed? && s.ps.errno == HeaderOverflow
  {
    hide StateInv, FlushAll, Play, IsHeaderChar;
    GeneralValueStays(ps.(nread := ps.nread + 1), ch);
  }

  /** Single-byte calls count each of its bytes. */
  lemma {:induction false} PlainOverflows(ps: Parser, t: Trace, data: seq<Byte>)
    requires Valid(ps) && ps.state.HeaderValue? && ps.hstate.General? && RunsOn(data, 0)
    requires ps.nread + |data| > MAX_HEADER_SIZE
    ensures Run(ps, t, data).outcome.Failed? && Run(ps, t, data).ps.errno == HeaderOverflow
    decreases |data|
  {
    hide Step, StateInv, IsHeaderChar;
    assert data != [];
    PlainByte(ps, t, data[0]);
    StepOk(ps, t, data[0]);
    var s := Step(ps, t, data[0]);
    if s.outcome.Going? {
      assert forall i :: 0 <= i < |data| - 1 ==> data[1..][i] == data[i + 1];
      PlainOverflows(s.ps, s.trace, data[1..]);
    }
  }

  /** 2^32 bytes of a header value that nobody looks for, in one call: http_parser_execute takes them all, hands them
      on, and its header counter stands where it was; single-byte calls end in the overflow error. */
  method LumpCountWraps(http: Http, data: seq<Byte>) returns (n: nat)
    requires Valid(http.Parser()) && http.state.HeaderValue? && http.hstate.General? && http.nread < MAX_HEADER_SIZE
    requires |data| == UINT32_RANGE && RunsOn(data, 0)
    modifies http
    ensures http.Parser() == old(http.Parser()) && n == |data|
    ensures http.trace == Emit(old(http.trace), Data(ValueData, data))
    ensures var r := Run(old(http.Parser()), old(http.trace), data);
            r.outcome.Failed? && r.ps.errno == HeaderOverflow
  {
    hide Run, Valid, RunsOn, LinesFit, EndsAs, Emit;
    ValidErrno(http.Parser());
    PlainOverflows(http.Parser(), http.trace, data);
    n := http.Execute(data);
  }
}
