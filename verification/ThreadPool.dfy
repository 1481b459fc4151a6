// The logging thread pool: clients post into the bounded queue, workers take from it until each has taken a
// terminate message, and the destructor posts one of those for every worker and joins them. One step is one
// critical section of the queue, or the end of a worker's handling of a message.

module ThreadPool {
  import opened CircularQ

  datatype Msg = Log(id: int) | Flush(id: int) | Terminate

  /** A worker handles a message by its place among the posted ones. */
  datatype Worker = Waiting | Handling(place: nat) | Exited

  datatype Fate = Taken(worker: nat) | Overrun

  /** The pool, with its history: the messages clients posted, what became of those that left the queue, and
      the places of those each worker has handled. */
  datatype Pool = Pool(
    capacity: nat,
    queue: seq<Msg>,
    overruns: nat,
    workers: seq<Worker>,
    closing: bool,
    toPost: nat,
    posted: seq<Msg>,
    fates: seq<Fate>,
    handled: seq<seq<nat>>)

  datatype Step =
    | Post(msg: Msg, block: bool)
    | Close
    | PostTerminate
    | Take(worker: nat)
    | Finish(worker: nat)

  datatype Started = Ok(pool: Pool) | InvalidThreads

  function Start(capacity: nat, threads: nat): Started {
    if threads == 0 || threads > 1000 then InvalidThreads
    else Ok(Pool(capacity, [], 0, seq(threads, _ => Waiting), false, 0, [], [], seq(threads, _ => [])))
  }

  /** Whether a thread can take the step now. No client uses the pool once its destructor runs. */
  predicate Enabled(p: Pool, s: Step) {
    match s
    case Post(m, block) => !p.closing && m != Terminate && (block ==> |p.queue| < p.capacity)
    case Close => !p.closing
    case PostTerminate => p.closing && p.toPost > 0 && |p.queue| < p.capacity
    case Take(w) => w < |p.workers| && p.workers[w].Waiting? && p.queue != []
    case Finish(w) => w < |p.workers| && w < |p.handled| && p.workers[w].Handling?
  }

  function Next(p: Pool, s: Step): Pool
    requires Enabled(p, s)
  {
    match s
    case Post(m, block) =>
      if |p.queue| < p.capacity then p.(queue := p.queue + [m], posted := p.posted + [m])
      else
        p.(queue := KeepLast(p.queue + [m], p.capacity), overruns := p.overruns + 1,
           posted := p.posted + [m], fates := p.fates + [Overrun])
    case Close => p.(closing := true, toPost := |p.workers|)
    case PostTerminate => p.(queue := p.queue + [Terminate], toPost := p.toPost - 1)
    case Take(w) =>
      if p.queue[0] == Terminate then p.(queue := p.queue[1..], workers := p.workers[w := Exited])
      else
        p.(queue := p.queue[1..], workers := p.workers[w := Handling(|p.fates|)], fates := p.fates + [Taken(w)])
    case Finish(w) =>
      p.(workers := p.workers[w := Waiting], handled := p.handled[w := p.handled[w] + [p.workers[w].place]])
  }

  // ---------------------------------------------------------------- the invariant

  function Live(workers: seq<Worker>): nat {
    if workers == [] then 0 else (if workers[|workers| - 1].Exited? then 0 else 1) + Live(workers[..|workers| - 1])
  }

  lemma {:induction false} LiveUpdate(workers: seq<Worker>, w: nat, x: Worker)
    requires w < |workers|
    ensures Live(workers[w := x]) ==
            Live(workers) - (if workers[w].Exited? then 0 else 1) + if x.Exited? then 0 else 1
    decreases |workers|
  {
    var n := |workers| - 1;
    if w < n {
      LiveUpdate(workers[..n], w, x);
      assert workers[w := x][..n] == workers[..n][w := x];
    } else {
      assert workers[w := x][..n] == workers[..n];
    }
  }

  lemma {:induction false} LiveBounds(workers: seq<Worker>)
    ensures Live(workers) <= |workers|
    ensures Live(workers) == |workers| <==> forall i :: 0 <= i < |workers| ==> !workers[i].Exited?
    ensures Live(workers) == 0 <==> forall i :: 0 <= i < |workers| ==> workers[i].Exited?
    decreases |workers|
  {
    if workers != [] {
      var rest := workers[..|workers| - 1];
      LiveBounds(rest);
      assert forall i :: 0 <= i < |rest| ==> workers[i] == rest[i];
    }
  }

  /** The places a worker has taken, in order. */
  function Share(fates: seq<Fate>, w: nat): seq<nat> {
    if fates == [] then []
    else
      var n := |fates| - 1;
      Share(fates[..n], w) + if fates[n] == Taken(w) then [n] else []
  }

  lemma {:induction false} ShareIs(fates: seq<Fate>, w: nat)
    ensures forall i: nat :: i in Share(fates, w) <==> i < |fates| && fates[i] == Taken(w)
    ensures forall j, k :: 0 <= j < k < |Share(fates, w)| ==> Share(fates, w)[j] < Share(fates, w)[k]
    decreases |fates|
  {
    if fates != [] {
      var n := |fates| - 1;
      ShareIs(fates[..n], w);
      var s := Share(fates[..n], w);
      forall j | 0 <= j < |s| ensures s[j] < n { assert s[j] in s; }
      assert forall i: nat :: i < n ==> fates[..n][i] == fates[i];
    }
  }

  lemma ShareSnoc(fates: seq<Fate>, f: Fate, w: nat)
    ensures Share(fates + [f], w) == Share(fates, w) + if f == Taken(w) then [|fates|] else []
  {
    assert (fates + [f])[..|fates|] == fates;
  }

  function Overruns(fates: seq<Fate>): nat {
    if fates == [] then 0 else Overruns(fates[..|fates| - 1]) + if fates[|fates| - 1].Overrun? then 1 else 0
  }

  /** `k` terminate messages. */
  function Terms(k: nat): (s: seq<Msg>)
    ensures |s| == k && forall i :: 0 <= i < k ==> s[i] == Terminate
  {
    seq(k, _ => Terminate)
  }

  function Terminates(p: Pool): int { |p.queue| - (|p.posted| - |p.fates|) }

  /** The queue is the messages `rest` and then `k` terminates. */
  predicate Split(queue: seq<Msg>, rest: seq<Msg>, k: nat) { queue == rest + Terms(k) }

  lemma SplitPost(queue: seq<Msg>, rest: seq<Msg>, m: Msg)
    requires Split(queue, rest, 0)
    ensures Split(queue + [m], rest + [m], 0)
  {
  }

  lemma SplitTerminate(queue: seq<Msg>, rest: seq<Msg>, k: nat)
    requires Split(queue, rest, k)
    ensures Split(queue + [Terminate], rest, k + 1)
  {
  }

  /** Messages leave first, and a terminate leaves only when none is left. */
  lemma SplitTake(queue: seq<Msg>, rest: seq<Msg>, k: nat)
    requires Split(queue, rest, k) && queue != [] && forall i :: 0 <= i < |rest| ==> rest[i] != Terminate
    ensures if queue[0] == Terminate then rest == [] && k > 0 && Split(queue[1..], [], k - 1)
            else rest != [] && Split(queue[1..], rest[1..], k)
  {
    if rest == [] {
      assert queue == Terms(k) && queue[1..] == Terms(k - 1);
    } else {
      assert queue[1..] == rest[1..] + Terms(k);
    }
  }

  /** The queue is what was posted and has not left, and then terminate messages: as many of them, with those
      the destructor still has to post, as there are live workers. */
  predicate QueueInv(p: Pool) {
    && |p.queue| <= p.capacity
    && (forall i :: 0 <= i < |p.posted| ==> p.posted[i] != Terminate)
    && |p.fates| <= |p.posted| && Terminates(p) >= 0
    && Split(p.queue, p.posted[|p.fates|..], Terminates(p))
    && p.overruns == Overruns(p.fates)
    && p.workers != []
    && (if p.closing then Terminates(p) + p.toPost == Live(p.workers)
        else Terminates(p) == 0 && p.toPost == 0 && Live(p.workers) == |p.workers|)
    && (Live(p.workers) < |p.workers| ==> |p.fates| == |p.posted|)
  }

  /** Every worker has handled what it took, but for the message in its hands. */
  predicate WorkersInv(fates: seq<Fate>, workers: seq<Worker>, handled: seq<seq<nat>>) {
    && |handled| == |workers|
    && (forall i :: 0 <= i < |fates| && fates[i].Taken? ==> fates[i].worker < |workers|)
    && forall w: nat :: w < |workers| ==>
         Share(fates, w) == handled[w] + if workers[w].Handling? then [workers[w].place] else []
  }

  predicate Inv(p: Pool) { QueueInv(p) && WorkersInv(p.fates, p.workers, p.handled) }

  /** A pool can be started with one to a thousand workers. */
  lemma StartInv(capacity: nat, threads: nat)
    ensures Start(capacity, threads).Ok? <==> 1 <= threads <= 1000
    ensures Start(capacity, threads).Ok? ==>
              var p := Start(capacity, threads).pool;
              Inv(p) && |p.workers| == threads && p.capacity == capacity && p.queue == [] && !p.closing
  {
    if Start(capacity, threads).Ok? { LiveBounds(Start(capacity, threads).pool.workers); }
  }

  lemma PostStep(p: Pool, m: Msg, block: bool)
    requires QueueInv(p) && Enabled(p, Post(m, block))
    ensures QueueInv(Next(p, Post(m, block)))
  {
    hide Split, Live;
    var n, rest := Next(p, Post(m, block)), p.posted[|p.fates|..];
    assert rest + [m] == n.posted[|p.fates|..];
    SplitPost(p.queue, rest, m);
    if n.fates != p.fates {
      assert n.fates[..|p.fates|] == p.fates;
      SplitTake(p.queue + [m], rest + [m], 0);
    }
  }

  /** While the pool is open a client can always post without waiting: that appends, and overruns the oldest message
      exactly if the queue is full. A client that waits posts exactly if it is not full. */
  lemma OpenPost(p: Pool, m: Msg, block: bool)
    requires Inv(p) && !p.closing && m != Terminate
    ensures Enabled(p, Close) && (Enabled(p, Post(m, block)) <==> !block || |p.queue| < p.capacity)
    ensures !block || |p.queue| < p.capacity ==>
              var n, full := Next(p, Post(m, block)), |p.queue| == p.capacity;
              && n.posted == p.posted + [m]
              && n.queue == (if full then (p.queue + [m])[1..] else p.queue + [m])
              && n.fates == (if full then p.fates + [Overrun] else p.fates)
              && n.overruns == Overruns(n.fates) && n.workers == p.workers && n.handled == p.handled
  {
    hide Split, Live;
    if !block || |p.queue| < p.capacity { PostStep(p, m, block); }
  }

  lemma TakeStep(p: Pool, w: nat)
    requires QueueInv(p) && Enabled(p, Take(w))
    ensures QueueInv(Next(p, Take(w)))
  {
    hide Live, Split;
    var n, rest := Next(p, Take(w)), p.posted[|p.fates|..];
    LiveBounds(p.workers);
    LiveUpdate(p.workers, w, n.workers[w]);
    SplitTake(p.queue, rest, Terminates(p));
    if n.fates != p.fates {
      assert n.fates[..|p.fates|] == p.fates;
      assert rest[1..] == n.posted[|n.fates|..];
    }
  }

  lemma QueueStep(p: Pool, s: Step)
    requires QueueInv(p) && Enabled(p, s)
    ensures QueueInv(Next(p, s))
  {
    match s
    case Post(m, block) => PostStep(p, m, block);
    case Take(w) => TakeStep(p, w);
    case Finish(w) => LiveUpdate(p.workers, w, Waiting);
    case Close => LiveBounds(p.workers);
    case PostTerminate => SplitTerminate(p.queue, p.posted[|p.fates|..], Terminates(p));
  }

  lemma WorkersStep(p: Pool, s: Step)
    requires WorkersInv(p.fates, p.workers, p.handled) && Enabled(p, s)
    ensures WorkersInv(Next(p, s).fates, Next(p, s).workers, Next(p, s).handled)
  {
    hide Share;
    var n := Next(p, s);
    match s
    case Take(w) =>
      if p.queue[0] != Terminate {
        forall x: nat | x < |p.workers|
          ensures Share(n.fates, x) == Share(p.fates, x) + if x == w then [|p.fates|] else []
        {
          ShareSnoc(p.fates, Taken(w), x);
        }
      }
    case Post(_, _) =>
      if n.fates != p.fates {
        forall x: nat | x < |p.workers| ensures Share(n.fates, x) == Share(p.fates, x) {
          ShareSnoc(p.fates, Overrun, x);
        }
      }
    case _ =>
  }

  predicate Possible(p: Pool, steps: seq<Step>)
    decreases |steps|
  {
    steps == [] || (Enabled(p, steps[0]) && Possible(Next(p, steps[0]), steps[1..]))
  }

  function Run(p: Pool, steps: seq<Step>): Pool
    requires Possible(p, steps)
    decreases |steps|
  {
    if steps == [] then p else Run(Next(p, steps[0]), steps[1..])
  }

  lemma {:induction false} RunKeeps(p: Pool, steps: seq<Step>)
    requires Inv(p) && Possible(p, steps)
    ensures Inv(Run(p, steps)) && Run(p, steps).capacity == p.capacity
    decreases |steps|
  {
    if steps != [] {
      QueueStep(p, steps[0]);
      WorkersStep(p, steps[0]);
      RunKeeps(Next(p, steps[0]), steps[1..]);
    }
  }

  /** Every worker handles its messages in the order in which they were posted. */
  lemma HandledInOrder(p: Pool, w: nat, j: nat, k: nat)
    requires Inv(p) && w < |p.handled| && j < k < |p.handled[w]|
    ensures p.handled[w][j] < p.handled[w][k] < |p.posted|
  {
    ShareIs(p.fates, w);
    var s := Share(p.fates, w);
    assert s[j] == p.handled[w][j] && s[k] == p.handled[w][k];
    assert s[k] in s;
  }

  // ---------------------------------------------------------------- shutting down

  /** The destructor has returned. */
  predicate Finished(p: Pool) {
    p.closing && p.toPost == 0 && forall i :: 0 <= i < |p.workers| ==> p.workers[i].Exited?
  }

  /** The step that is always there while the destructor runs. */
  lemma SomeStep(p: Pool) returns (s: Step)
    requires Inv(p) && p.closing && !Finished(p) && p.capacity >= 1
    ensures Enabled(p, s)
  {
    LiveBounds(p.workers);
    if w: nat :| w < |p.workers| && p.workers[w].Handling? {
      s := Finish(w);
    } else if p.queue == [] {
      s := PostTerminate;
    } else {
      var w: nat :| w < |p.workers| && !p.workers[w].Exited?;
      s := Take(w);
    }
  }

  /** What is still to do at most; every step of the shutdown lowers it. */
  function Work(p: Pool): nat { 3 * p.toPost + 2 * |p.queue| + Busy(p.workers) }

  function Busy(workers: seq<Worker>): nat {
    if workers == [] then 0 else (if workers[|workers| - 1].Handling? then 1 else 0) + Busy(workers[..|workers| - 1])
  }

  lemma {:induction false} BusyUpdate(workers: seq<Worker>, w: nat, x: Worker)
    requires w < |workers|
    ensures Busy(workers[w := x]) ==
            Busy(workers) - (if workers[w].Handling? then 1 else 0) + if x.Handling? then 1 else 0
    decreases |workers|
  {
    var n := |workers| - 1;
    if w < n {
      BusyUpdate(workers[..n], w, x);
      assert workers[w := x][..n] == workers[..n][w := x];
    } else {
      assert workers[w := x][..n] == workers[..n];
    }
  }

  lemma WorkFalls(p: Pool, s: Step)
    requires p.closing && Enabled(p, s)
    ensures Next(p, s).closing && Work(Next(p, s)) < Work(p)
  {
    match s
    case PostTerminate =>
    case Take(w) => BusyUpdate(p.workers, w, Next(p, s).workers[w]);
    case Finish(w) => BusyUpdate(p.workers, w, Waiting);
  }

  /** However the threads are scheduled, the shutdown takes no more steps than there is work. */
  lemma {:induction false} ShutdownIsShort(p: Pool, steps: seq<Step>)
    requires p.closing && Possible(p, steps)
    ensures |steps| <= Work(p)
    decreases |steps|
  {
    if steps != [] {
      WorkFalls(p, steps[0]);
      ShutdownIsShort(Next(p, steps[0]), steps[1..]);
    }
  }

  ghost predicate NeverStuck(capacity: nat, threads: nat)
    requires 1 <= threads <= 1000
  {
    forall steps ::
      Possible(Start(capacity, threads).pool, steps) ==>
        var p := Run(Start(capacity, threads).pool, steps);
        p.closing && !Finished(p) ==> exists s :: Enabled(p, s)
  }

  /** The destructor can always go on, in every schedule, exactly when the queue has room for one message. */
  lemma DestructorNeverStuck(capacity: nat, threads: nat)
    requires 1 <= threads <= 1000
    ensures NeverStuck(capacity, threads) <==> capacity >= 1
  {
    var p0 := Start(capacity, threads).pool;
    if capacity >= 1 {
      forall steps | Possible(p0, steps)
        ensures var p := Run(p0, steps); p.closing && !Finished(p) ==> exists s :: Enabled(p, s)
      {
        StartInv(capacity, threads);
        RunKeeps(p0, steps);
        var p := Run(p0, steps);
        if p.closing && !Finished(p) { var s := SomeStep(p); }
      }
    } else {
      var p := Run(p0, [Close]);
      assert p == Next(p0, Close) by { assert [Close][1..] == []; }
      assert Possible(p0, [Close]);
      assert p.closing && !Finished(p) && forall s :: !Enabled(p, s);
    }
  }

  /** Some worker has handled the message at `i` once, and no worker has handled it otherwise. */
  ghost predicate HandledOnce(handled: seq<seq<nat>>, i: nat) {
    exists w: nat, j: nat ::
      && w < |handled| && j < |handled[w]| && handled[w][j] == i
      && forall x: nat, k: nat :: x < |handled| && k < |handled[x]| && handled[x][k] == i ==> x == w && k == j
  }

  ghost predicate NeverHandled(handled: seq<seq<nat>>, i: nat) {
    forall w: nat :: w < |handled| ==> i !in handled[w]
  }

  lemma TakenOnce(fates: seq<Fate>, handled: seq<seq<nat>>, i: nat)
    requires i < |fates| && forall w: nat :: w < |handled| ==> handled[w] == Share(fates, w)
    ensures fates[i].Overrun? ==> NeverHandled(handled, i)
    ensures fates[i].Taken? && fates[i].worker < |handled| ==> HandledOnce(handled, i)
  {
    forall w: nat | w < |handled|
      ensures i in handled[w] <==> fates[i] == Taken(w)
      ensures forall j, k :: 0 <= j < k < |handled[w]| ==> handled[w][j] < handled[w][k]
    {
      ShareIs(fates, w);
    }
    if fates[i].Taken? && fates[i].worker < |handled| {
      var w := fates[i].worker;
      var j: nat :| j < |handled[w]| && handled[w][j] == i;
      forall x: nat, k: nat | x < |handled| && k < |handled[x]| && handled[x][k] == i ensures x == w && k == j {
        assert i in handled[x];
      }
    }
  }

  /** Every posted message was handled once, or overrun and never handled. */
  ghost predicate AllDealtWith(p: Pool) {
    && |p.fates| == |p.posted|
    && forall i: nat :: i < |p.posted| ==>
         if p.fates[i].Overrun? then NeverHandled(p.handled, i) else HandledOnce(p.handled, i)
  }

  /** Once the destructor has returned the queue is empty, and every posted message was handled by one worker
      once, unless a later post without waiting overran it. */
  lemma Drained(p: Pool)
    requires Inv(p) && Finished(p)
    ensures p.queue == [] && AllDealtWith(p) && p.overruns == Overruns(p.fates)
  {
    LiveBounds(p.workers);
    forall w: nat | w < |p.handled| ensures p.handled[w] == Share(p.fates, w) { }
    forall i: nat | i < |p.posted|
      ensures if p.fates[i].Overrun? then NeverHandled(p.handled, i) else HandledOnce(p.handled, i)
    {
      TakenOnce(p.fates, p.handled, i);
    }
  }

  // ---------------------------------------------------------------- the running pool

  /** The workers go on by themselves: a step of the pool that needs nobody else. */
  predicate WorkersOnly(steps: seq<Step>) { forall i :: 0 <= i < |steps| ==> steps[i].Take? || steps[i].Finish? }

  /** No worker has anything to do. */
  ghost predicate AtRest(p: Pool) { forall w: nat :: !Enabled(p, Take(w)) && !Enabled(p, Finish(w)) }

  /** While the pool is open its workers are at rest only when the queue is empty and every posted message was handled
      once, or overrun and never handled. */
  lemma RestIsDone(p: Pool)
    requires Inv(p) && !p.closing && AtRest(p)
    ensures p.queue == [] && AllDealtWith(p)
  {
    hide Split, Share;
    LiveBounds(p.workers);
    forall w: nat | w < |p.workers| ensures p.workers[w].Waiting? { assert !Enabled(p, Finish(w)); }
    assert !Enabled(p, Take(0));
    forall i: nat | i < |p.posted|
      ensures if p.fates[i].Overrun? then NeverHandled(p.handled, i) else HandledOnce(p.handled, i)
    {
      TakenOnce(p.fates, p.handled, i);
    }
  }

  /** What the workers can still do by themselves. */
  function Pending(p: Pool): nat { 2 * |p.queue| + Busy(p.workers) }

  lemma PendingFalls(p: Pool, s: Step)
    requires Enabled(p, s) && (s.Take? || s.Finish?)
    ensures var n := Next(p, s);
            Pending(n) < Pending(p) && n.closing == p.closing && n.posted == p.posted && n.capacity == p.capacity
  {
    BusyUpdate(p.workers, s.worker, Next(p, s).workers[s.worker]);
  }

  /** The workers are at rest after no more steps than that, however they are scheduled, if nobody posts. */
  lemma {:induction false} WorkersComeToRest(p: Pool, steps: seq<Step>)
    requires Possible(p, steps) && WorkersOnly(steps)
    ensures |steps| <= Pending(p)
    ensures var r := Run(p, steps); r.closing == p.closing && r.posted == p.posted && r.capacity == p.capacity
    decreases |steps|
  {
    hide Enabled, Next, Pending;
    if steps != [] {
      assert steps[0].Take? || steps[0].Finish?;
      assert forall i :: 0 <= i < |steps[1..]| ==> steps[1..][i] == steps[i + 1];
      PendingFalls(p, steps[0]);
      WorkersComeToRest(Next(p, steps[0]), steps[1..]);
    }
  }

  /** From every state they come to rest. */
  lemma {:induction false} SomeRest(p: Pool) returns (rest: seq<Step>)
    requires Inv(p)
    ensures Possible(p, rest) && WorkersOnly(rest) && AtRest(Run(p, rest))
    decreases Pending(p)
  {
    hide Enabled, Next, Pending, QueueInv, WorkersInv;
    if w: nat :| Enabled(p, Take(w)) || Enabled(p, Finish(w)) {
      var s := if Enabled(p, Take(w)) then Take(w) else Finish(w);
      PendingFalls(p, s);
      QueueStep(p, s);
      WorkersStep(p, s);
      var more := SomeRest(Next(p, s));
      rest := [s] + more;
      assert rest[1..] == more;
    } else {
      rest := [];
    }
  }

  /** So in an open pool, whatever has happened, the workers alone handle everything that was posted, each message once
      unless it was overrun; and then a post that had to wait can go on, exactly if the queue has room for a message at
      all. */
  lemma EveryPostGetsItsTurn(capacity: nat, threads: nat, steps: seq<Step>, rest: seq<Step>, m: Msg)
    requires 1 <= threads <= 1000 && m != Terminate && Possible(Start(capacity, threads).pool, steps)
    requires var p := Run(Start(capacity, threads).pool, steps);
             !p.closing && WorkersOnly(rest) && Possible(p, rest) && AtRest(Run(p, rest))
    ensures var p := Run(Start(capacity, threads).pool, steps);
            var r := Run(p, rest);
            && |rest| <= Pending(p) && r.posted == p.posted && r.queue == [] && AllDealtWith(r)
            && (Enabled(r, Post(m, true)) <==> capacity >= 1)
  {
    hide Pending, AllDealtWith;
    var p0 := Start(capacity, threads).pool;
    StartInv(capacity, threads);
    RunKeeps(p0, steps);
    RunKeeps(Run(p0, steps), rest);
    WorkersComeToRest(Run(p0, steps), rest);
    RestIsDone(Run(Run(p0, steps), rest));
  }

  // ---------------------------------------------------------------- blocking posts

  predicate BlockingPosts(steps: seq<Step>) {
    forall i :: 0 <= i < |steps| && steps[i].Post? ==> steps[i].block
  }

  lemma {:induction false} BlockingOverrunsNothing(p: Pool, steps: seq<Step>)
    requires Possible(p, steps) && BlockingPosts(steps)
    ensures Run(p, steps).overruns == p.overruns
    decreases |steps|
  {
    if steps != [] {
      assert forall i :: 0 <= i < |steps[1..]| ==> steps[1..][i] == steps[i + 1];
      BlockingOverrunsNothing(Next(p, steps[0]), steps[1..]);
    }
  }

  lemma {:induction false} NoOverruns(fates: seq<Fate>, i: nat)
    requires i < |fates| && Overruns(fates) == 0
    ensures fates[i].Taken?
    decreases |fates|
  {
    if i < |fates| - 1 { NoOverruns(fates[..|fates| - 1], i); }
  }

  /** With blocking posts nothing posted before the destructor is lost: when it has returned, each message was
      handled exactly once. */
  lemma ShutdownDrains(capacity: nat, threads: nat, steps: seq<Step>)
    requires 1 <= threads <= 1000 && Possible(Start(capacity, threads).pool, steps)
    requires BlockingPosts(steps) && Finished(Run(Start(capacity, threads).pool, steps))
    ensures var p := Run(Start(capacity, threads).pool, steps);
            p.queue == [] && forall i: nat :: i < |p.posted| ==> HandledOnce(p.handled, i)
  {
    var p0 := Start(capacity, threads).pool;
    StartInv(capacity, threads);
    RunKeeps(p0, steps);
    var p := Run(p0, steps);
    Drained(p);
    BlockingOverrunsNothing(p0, steps);
    forall i: nat | i < |p.posted| ensures HandledOnce(p.handled, i) { NoOverruns(p.fates, i); }
  }
}
