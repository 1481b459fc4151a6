// The send queue of a connection: the front buffer is being written while the queue is not empty. A write that
// has been started is completed, or fails, by a handler that runs later on the same loop.

module TcpConnection {

  /** The connection and what it has to do with the socket: the writes that are under way, the buffers that were
      accepted for sending, and those whose writes were completed, in order. */
  datatype State<B> = State(
    connected: bool,
    sendBuffer: seq<B>,
    writing: seq<B>,
    accepted: seq<B>,
    completed: seq<B>,
    failed: bool)

  function AsyncSend<B>(s: State<B>): State<B>
    requires s.sendBuffer != []
  {
    s.(writing := s.writing + [s.sendBuffer[0]])
  }

  function SendLoop<B>(s: State<B>, b: B): State<B> {
    if !s.connected then s
    else
      var queued := s.(sendBuffer := s.sendBuffer + [b], accepted := s.accepted + [b]);
      if s.sendBuffer == [] then AsyncSend(queued) else queued
  }

  /** What a callback can do to its connection. It runs on the loop, so that dispatched work is done at once. */
  datatype Action<B> = Send(b: B) | Close

  function Act<B>(s: State<B>, a: Action<B>): State<B> {
    match a
    case Send(b) => SendLoop(s, b)
    case Close => s.(connected := false)
  }

  function ActAll<B>(s: State<B>, acts: seq<Action<B>>): State<B>
    decreases |acts|
  {
    if acts == [] then s else ActAll(Act(s, acts[0]), acts[1..])
  }

  /** The buffers sent before the first close. */
  function SentBy<B>(acts: seq<Action<B>>): seq<B> {
    if acts == [] || acts[0].Close? then [] else [acts[0].b] + SentBy(acts[1..])
  }

  function Popped<B>(s: State<B>): State<B>
    requires s.writing != []
  {
    s.(completed := s.completed + [s.writing[0]], writing := s.writing[1..],
       sendBuffer := if s.sendBuffer == [] then [] else s.sendBuffer[1..])
  }

  /** The oldest write has ended well; `acts` is what the send-complete callback does. */
  function Completed<B>(s: State<B>, acts: seq<Action<B>>): State<B>
    requires s.writing != []
  {
    var sent := ActAll(Popped(s), acts);
    if sent.sendBuffer == [] then sent else AsyncSend(sent)
  }

  /** The oldest write has ended in an error: the connection is closed, the queue stays as it is. */
  function Failed<B>(s: State<B>): State<B>
    requires s.writing != []
  {
    s.(connected := false, writing := s.writing[1..], failed := true)
  }

  class Connection<B> {
    var connected: bool
    var sendBuffer: seq<B>
    ghost var writing: seq<B>
    ghost var accepted: seq<B>
    ghost var completed: seq<B>
    ghost var failed: bool

    ghost function Now(): State<B>
      reads this
    {
      State(connected, sendBuffer, writing, accepted, completed, failed)
    }

    constructor ()
      ensures Now() == State(false, [], [], [], [], false)
    {
      connected, sendBuffer := false, [];
      writing, accepted, completed, failed := [], [], [], false;
    }

    method HandleEstablish()
      modifies this
      ensures Now() == old(Now()).(connected := true)
    {
      connected := true;
    }

    /** Starts a write of the front buffer. */
    method StartWrite()
      requires sendBuffer != []
      modifies this`writing
      ensures Now() == AsyncSend(old(Now()))
    {
      writing := writing + [sendBuffer[0]];
    }

    method Send(b: B)
      modifies this
      ensures Now() == SendLoop(old(Now()), b)
    {
      if connected {
        var sending := sendBuffer != [];
        sendBuffer := sendBuffer + [b];
        accepted := accepted + [b];
        if !sending { StartWrite(); }
      }
    }

    /** handle_send without an error; the callback does `acts`. */
    method HandleSend(acts: seq<Action<B>>)
      requires writing != []
      modifies this
      ensures Now() == Completed(old(Now()), acts)
    {
      completed, writing := completed + [writing[0]], writing[1..];
      if sendBuffer != [] { sendBuffer := sendBuffer[1..]; }
      ghost var popped := Now();
      var i := 0;
      while i < |acts|
        invariant i <= |acts| && ActAll(popped, acts) == ActAll(Now(), acts[i..])
      {
        assert acts[i..][0] == acts[i] && acts[i..][1..] == acts[i + 1..];
        match acts[i] {
          case Send(b) => Send(b);
          case Close => CloseLoop();
        }
        i := i + 1;
      }
      assert acts[i..] == [];
      if sendBuffer != [] { StartWrite(); }
    }

    method HandleSendError()
      requires writing != []
      modifies this
      ensures Now() == Failed(old(Now()))
    {
      writing, failed := writing[1..], true;
      HandleClose();
    }

    method CloseLoop()
      modifies this
      ensures Now() == old(Now()).(connected := false)
    {
      if connected { connected := false; }
    }

    method HandleClose()
      modifies this
      ensures Now() == old(Now()).(connected := false)
    {
      if connected { connected := false; }
    }
  }

  // ---------------------------------------------------------------- one write under way

  /** A write is under way exactly while the queue is not empty, it is one of the front buffer, and the completed
      buffers and the queue make up the accepted ones; until a write fails. */
  ghost predicate OneWrite<B>(s: State<B>) {
    s.failed ||
    (s.writing == (if s.sendBuffer == [] then [] else [s.sendBuffer[0]]) && s.completed + s.sendBuffer == s.accepted)
  }

  lemma SendKeeps<B>(s: State<B>, b: B)
    requires OneWrite(s)
    ensures OneWrite(SendLoop(s, b)) && SendLoop(s, b).failed == s.failed
    ensures SendLoop(s, b).connected == s.connected
  {
    assert s.completed + (s.sendBuffer + [b]) == s.completed + s.sendBuffer + [b];
  }

  /** What a callback does to the queue while its front is not being written. */
  lemma {:induction false} ActAllQueues<B>(s: State<B>, acts: seq<Action<B>>)
    ensures var r, bs := ActAll(s, acts), if s.connected then SentBy(acts) else [];
            && r.completed == s.completed && r.failed == s.failed
            && r.sendBuffer == s.sendBuffer + bs && r.accepted == s.accepted + bs
            && r.writing == if s.sendBuffer == [] && bs != [] then s.writing + [bs[0]] else s.writing
    decreases |acts|
  {
    if acts != [] {
      ActAllQueues(Act(s, acts[0]), acts[1..]);
      if s.connected && acts[0].Send? {
        OneMore(s.sendBuffer, acts[0].b, SentBy(acts[1..]));
        OneMore(s.accepted, acts[0].b, SentBy(acts[1..]));
      }
    }
  }

  lemma OneMore<B>(q: seq<B>, b: B, rest: seq<B>)
    ensures q + [b] + rest == q + ([b] + rest)
  {
  }

  /** The callback may begin with a send unless the queue of an open connection has just become empty. */
  predicate Careful<B>(s: State<B>, acts: seq<Action<B>>) {
    |s.sendBuffer| != 1 || !s.connected || |acts| == 0 || acts[0].Close?
  }

  /** Exactly when a completion keeps one write under way. Otherwise the callback's first buffer is written twice
      at once. */
  lemma CompletionKeepsExactlyWhen<B>(s: State<B>, acts: seq<Action<B>>)
    requires OneWrite(s) && !s.failed && s.writing != []
    ensures OneWrite(Completed(s, acts)) <==> Careful(s, acts)
    ensures !Careful(s, acts) ==> Completed(s, acts).writing == [acts[0].b, acts[0].b]
  {
    var popped := Popped(s);
    var bs := if s.connected then SentBy(acts) else [];
    FrontMoves(s.completed, s.sendBuffer);
    ActAllQueues(popped, acts);
    Assoc(popped.completed, popped.sendBuffer, bs);
    hide ActAll;
    var r := Completed(s, acts);
    if !Careful(s, acts) {
      assert r.writing == [bs[0], bs[0]];
    } else if popped.sendBuffer != [] {
      assert r.sendBuffer[0] == popped.sendBuffer[0];
    }
  }

  lemma FrontMoves<B>(done: seq<B>, q: seq<B>)
    requires q != []
    ensures done + [q[0]] + q[1..] == done + q
  {
    assert [q[0]] + q[1..] == q;
  }

  lemma Assoc<B>(a: seq<B>, b: seq<B>, c: seq<B>)
    ensures a + b + c == a + (b + c)
  {
  }

  // ---------------------------------------------------------------- whole runs

  datatype Step<B> = Request(b: B) | Complete(acts: seq<Action<B>>) | Fail | LocalClose | PeerClosed

  predicate Enabled<B(==)>(s: State<B>, e: Step<B>) { e.Complete? || e.Fail? ==> s.writing != [] }

  function Next<B>(s: State<B>, e: Step<B>): State<B>
    requires Enabled(s, e)
  {
    match e
    case Request(b) => SendLoop(s, b)
    case Complete(acts) => Completed(s, acts)
    case Fail => Failed(s)
    case LocalClose => s.(connected := false)
    case PeerClosed => s.(connected := false)
  }

  predicate Possible<B(==)>(s: State<B>, es: seq<Step<B>>)
    decreases |es|
  {
    es == [] || (Enabled(s, es[0]) && Possible(Next(s, es[0]), es[1..]))
  }

  function Run<B>(s: State<B>, es: seq<Step<B>>): State<B>
    requires Possible(s, es)
    decreases |es|
  {
    if es == [] then s else Run(Next(s, es[0]), es[1..])
  }

  /** Every callback of the run is careful, until a write fails. */
  predicate CarefulRun<B(==)>(s: State<B>, es: seq<Step<B>>)
    requires Possible(s, es)
    decreases |es|
  {
    s.failed || es == [] || ((es[0].Complete? ==> Careful(s, es[0].acts)) && CarefulRun(Next(s, es[0]), es[1..]))
  }

  /** One write at most is under way after every step. */
  ghost predicate AlwaysOneWrite<B>(s: State<B>, es: seq<Step<B>>)
    requires Possible(s, es)
    decreases |es|
  {
    OneWrite(s) && (es == [] || AlwaysOneWrite(Next(s, es[0]), es[1..]))
  }

  lemma StepKeeps<B>(s: State<B>, e: Step<B>)
    requires OneWrite(s) && Enabled(s, e)
    ensures s.failed ==> Next(s, e).failed
    ensures !e.Complete? ==> OneWrite(Next(s, e))
    ensures e.Complete? && !s.failed ==> (OneWrite(Next(s, e)) <==> Careful(s, e.acts))
  {
    match e
    case Request(b) => SendKeeps(s, b);
    case Complete(acts) =>
      ActAllQueues(Popped(s), acts);
      if !s.failed { CompletionKeepsExactlyWhen(s, acts); }
    case _ =>
  }

  lemma {:induction false} FailedStays<B>(s: State<B>, es: seq<Step<B>>)
    requires Possible(s, es) && s.failed
    ensures AlwaysOneWrite(s, es)
    decreases |es|
  {
    if es != [] {
      StepKeeps(s, es[0]);
      FailedStays(Next(s, es[0]), es[1..]);
    }
  }

  /** Over every run there is never more than one write under way exactly if no callback begins by sending into
      the queue that has just become empty. */
  lemma {:induction false} OneWriteExactlyWhen<B>(s: State<B>, es: seq<Step<B>>)
    requires OneWrite(s) && Possible(s, es)
    ensures AlwaysOneWrite(s, es) <==> CarefulRun(s, es)
    decreases |es|
  {
    if s.failed {
      FailedStays(s, es);
    } else if es != [] {
      StepKeeps(s, es[0]);
      if OneWrite(Next(s, es[0])) { OneWriteExactlyWhen(Next(s, es[0]), es[1..]); }
    }
  }

  /** In such a run the completed writes are the accepted buffers in order, each once, and what is not completed
      is still queued. */
  lemma {:induction false} SentInOrder<B>(s: State<B>, es: seq<Step<B>>)
    requires OneWrite(s) && Possible(s, es) && CarefulRun(s, es)
    ensures var r := Run(s, es);
            !r.failed ==> r.completed + r.sendBuffer == r.accepted && |r.writing| <= 1
                          && (r.writing != [] <==> r.sendBuffer != [])
    decreases |es|
  {
    if es != [] {
      StepKeeps(s, es[0]);
      if s.failed {
        StaysFailed(s, es);
      } else {
        SentInOrder(Next(s, es[0]), es[1..]);
      }
    }
  }

  // ---------------------------------------------------------------- the end of a connection

  /** A connection that is closed, by either side, accepts nothing and stays closed, whatever happens. */
  lemma {:induction false} ClosedAcceptsNothing<B>(s: State<B>, es: seq<Step<B>>)
    requires !s.connected && Possible(s, es)
    ensures !Run(s, es).connected && Run(s, es).accepted == s.accepted
    decreases |es|
  {
    if es != [] {
      ClosedActs(s, es[0]);
      ClosedAcceptsNothing(Next(s, es[0]), es[1..]);
    }
  }

  lemma ClosedActs<B>(s: State<B>, e: Step<B>)
    requires !s.connected && Enabled(s, e)
    ensures !Next(s, e).connected && Next(s, e).accepted == s.accepted
  {
    if e.Complete? {
      ActAllQueues(Popped(s), e.acts);
      StaysClosed(Popped(s), e.acts);
    }
  }

  lemma {:induction false} StaysClosed<B>(s: State<B>, acts: seq<Action<B>>)
    requires !s.connected
    ensures !ActAll(s, acts).connected
    decreases |acts|
  {
    if acts != [] { StaysClosed(Act(s, acts[0]), acts[1..]); }
  }

  /** The writes that complete one behind the other, while the callback does nothing. */
  function Completions<B>(n: nat): seq<Step<B>> { seq(n, _ => Complete([])) }

  /** Also behind a close, everything that was accepted is written, in order, if the writes end well. */
  lemma {:induction false} QueueDrains<B>(s: State<B>)
    requires OneWrite(s) && !s.failed
    ensures var es := Completions<B>(|s.sendBuffer|);
            && Possible(s, es) && Run(s, es).completed == s.accepted && Run(s, es).sendBuffer == []
            && Run(s, es).writing == []
    decreases |s.sendBuffer|
  {
    var es := Completions<B>(|s.sendBuffer|);
    if s.sendBuffer != [] {
      CompletionKeepsExactlyWhen(s, []);
      var n := Completed(s, []);
      ActAllQueues(Popped(s), []);
      QueueDrains(n);
      assert es[1..] == Completions<B>(|n.sendBuffer|);
    }
  }

  /** A write that fails is the last one: the connection is closed, the queue stays as it is, and nothing is accepted,
      written or completed any more. */
  lemma FailureIsFinal<B>(s: State<B>, es: seq<Step<B>>)
    requires OneWrite(s) && !s.failed && s.writing != [] && Possible(Failed(s), es)
    ensures var r := Run(Failed(s), es);
            && !r.connected && r.writing == [] && r.accepted == s.accepted && r.completed == s.completed
            && r.sendBuffer == s.sendBuffer
  {
    QuietStays(Failed(s), es);
  }

  lemma {:induction false} QuietStays<B>(s: State<B>, es: seq<Step<B>>)
    requires !s.connected && s.writing == [] && Possible(s, es)
    ensures Run(s, es) == s
    decreases |es|
  {
    if es != [] { QuietStays(Next(s, es[0]), es[1..]); }
  }

  lemma {:induction false} StaysFailed<B>(s: State<B>, es: seq<Step<B>>)
    requires Possible(s, es) && s.failed
    ensures Run(s, es).failed
    decreases |es|
  {
    if es != [] {
      StepKeeps(s, es[0]);
      StaysFailed(Next(s, es[0]), es[1..]);
    }
  }
}
