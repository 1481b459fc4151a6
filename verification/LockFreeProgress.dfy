// One thread of the lock-free queue alone: what a push and a pop do when no other thread moves, from every state
// that the threads can have left.

module LockFreeProgress {
  import opened Words
  import opened LockFreeQueue

  /** `n` steps of thread `t`, in which no compare-and-swap fails for no reason. */
  function Solo<T>(s: State<T>, t: nat, n: nat): State<T> {
    if n == 0 then s else Step(Solo(s, t, n - 1), t, Go(false))
  }

  lemma {:induction false} SoloMore<T>(s: State<T>, t: nat, m: nat, n: nat)
    ensures Solo(s, t, m + n) == Solo(Solo(s, t, m), t, n)
    decreases n
  {
    hide Step;
    if n > 0 { SoloMore(s, t, m, n - 1); }
  }

  lemma SoloUnfolds<T>(s: State<T>, t: nat)
    ensures Solo(s, t, 0) == s
    ensures forall n: nat :: Solo(s, t, n + 1) == Step(Solo(s, t, n), t, Go(false))
  {
    hide Step;
  }

  /** Moving a thread twice is moving it once. */
  lemma AtAt<T>(s: State<T>, t: nat, p: Pc<T>, q: Pc<T>)
    ensures At(At(s, t, p), t, q) == At(s, t, q)
  {
    assert s.threads[t := p][t := q] == s.threads[t := q];
  }

  lemma {:induction false} SoloKeeps<T>(s: State<T>, t: nat, n: nat)
    requires Inv(s) && t in s.threads
    ensures Inv(Solo(s, t, n)) && t in Solo(s, t, n).threads
    decreases n
  {
    hide Inv;
    if n > 0 {
      SoloKeeps(s, t, n - 1);
      StepKeeps(Solo(s, t, n - 1), t, Go(false));
      StepMoves(Solo(s, t, n - 1), t, Go(false));
    }
  }

  lemma SoloFour<T>(s: State<T>, t: nat, a: State<T>, b: State<T>, c: State<T>, d: State<T>)
    requires Step(s, t, Go(false)) == a && Step(a, t, Go(false)) == b
    requires Step(b, t, Go(false)) == c && Step(c, t, Go(false)) == d
    ensures Solo(s, t, 1) == a && Solo(s, t, 2) == b && Solo(s, t, 3) == c && Solo(s, t, 4) == d
  {
    hide Step;
    assert Solo(s, t, 0) == s;
  }

  // ---------------------------------------------------------------- pop

  function HeadRef<T>(s: State<T>): Ref { Ref(s.head, |s.taken|) }

  function TailRef<T>(s: State<T>): Ref { Ref(s.tail, s.tailPos) }

  /** Where a look at head_, tail_ and the node behind head_ leads. */
  function Look<T>(s: State<T>): Pc<T> {
    var next := NextOf(s, s.head);
    if s.head == s.tail && next.None? then Idle
    else if s.head == s.tail then PopHelp(HeadRef(s), TailRef(s), next.value)
    else PopRead(HeadRef(s), next)
  }

  lemma PopLooks<T>(s: State<T>, t: nat)
    requires t in s.threads && s.threads[t].PopLoadHead?
    ensures Solo(s, t, 4) == At(s, t, Look(s))
  {
    var h, l, next := HeadRef(s), TailRef(s), NextOf(s, s.head);
    var p, q, r := PopLoadTail(h), PopLoadNext(h, l), PopCheckHead(h, l, next);
    var a, b, c := At(s, t, p), At(s, t, q), At(s, t, r);
    AtAt(s, t, p, q);
    AtAt(s, t, q, r);
    AtAt(s, t, r, Look(s));
    GoPops(s, t, false);
    GoPops(a, t, false);
    GoPops(b, t, false);
    CheckIsLook(s, c, t);
    hide Solo, Step;
    SoloFour(s, t, a, b, c, At(s, t, Look(s)));
  }

  lemma GoPops<T>(s: State<T>, t: nat, spurious: bool)
    requires t in s.threads && !IsPush(s.threads[t])
    ensures Step(s, t, Go(spurious)) == StepPop(s, t, s.threads[t], spurious)
  {
    hide StepPop;
  }

  lemma CheckIsLook<T>(s: State<T>, c: State<T>, t: nat)
    requires t in s.threads && c == At(s, t, PopCheckHead(HeadRef(s), TailRef(s), NextOf(s, s.head)))
    ensures Step(c, t, Go(false)) == At(c, t, Look(s))
  {
    GoPops(c, t, false);
  }

  /** A queue is empty, or its first item is in the node behind the sentry. */
  lemma LookSees<T>(s: State<T>)
    requires Inv(s)
    ensures |s.taken| <= |s.linked| && (Contents(s) != [] ==> |s.taken| + 1 < |s.chain|)
    ensures Contents(s) == [] ==> Look(s).Idle?
    ensures Contents(s) != [] ==>
              var first := s.chain[|s.taken| + 1];
              && NextOf(s, s.head) == Some(first) && first in s.heap && s.heap[first].data == Contents(s)[0]
              && (if s.tailPos == |s.taken| then Look(s) == PopHelp(HeadRef(s), TailRef(s), first)
                  else Look(s) == PopRead(HeadRef(s), Some(first)))
  {
    hide LocalsOk, AllApart, FreedOk, CountOk;
    var h := |s.taken|;
    assert s.chain[h] in s.heap && s.heap[s.chain[h]].next == Link(s.chain, h);
    if Contents(s) != [] {
      assert Holds(s.heap, s.chain[h + 1], s.linked[h]);
      if s.tailPos != h { assert s.chain[h] != s.chain[s.tailPos]; }
    }
  }

  /** One less, in a machine word. */
  function CountDown(n: nat): nat { (n + UINT64_RANGE - 1) % UINT64_RANGE }

  /** The queue as it is once thread `t` has taken the first item. */
  function Popped<T>(s: State<T>, t: nat, first: nat, item: T): State<T> {
    At(s.(head := first, taken := s.taken + [item], freed := s.freed + {s.head}, count := CountDown(s.count)), t, Idle)
  }

  lemma PopTakes<T>(s: State<T>, t: nat, first: nat)
    requires t in s.threads && s.threads[t] == PopRead(HeadRef(s), Some(first)) && first in s.heap
    ensures Solo(s, t, 4) == Popped(s, t, first, s.heap[first].data)
  {
    var h, x := HeadRef(s), s.heap[first].data;
    var a := At(s, t, PopSwing(h, first, x));
    var b := At(s.(head := first, taken := s.taken + [x]), t, PopDelete(h, x));
    var c := At(s.(head := first, taken := s.taken + [x], freed := s.freed + {s.head}), t, PopCount(x));
    var d := Popped(s, t, first, x);
    Twice(s.threads, t, PopSwing(h, first, x), PopDelete(h, x));
    Twice(s.threads, t, PopDelete(h, x), PopCount(x));
    Twice(s.threads, t, PopCount(x), Idle);
    hide Solo, Step, StepPop, CountDown;
    ReadStep(s, t, first);
    SwingStep(a, t, first, x);
    LastSteps(b, t, h, x);
    SoloFour(s, t, a, b, c, d);
  }

  lemma ReadStep<T>(s: State<T>, t: nat, first: nat)
    requires t in s.threads && s.threads[t] == PopRead(HeadRef(s), Some(first)) && first in s.heap
    ensures Step(s, t, Go(false)) == At(s, t, PopSwing(HeadRef(s), first, s.heap[first].data))
  {
    GoPops(s, t, false);
  }

  lemma SwingStep<T>(s: State<T>, t: nat, first: nat, x: T)
    requires t in s.threads && s.threads[t] == PopSwing(HeadRef(s), first, x)
    ensures Step(s, t, Go(false)) == At(s.(head := first, taken := s.taken + [x]), t, PopDelete(HeadRef(s), x))
  {
    GoPops(s, t, false);
  }

  lemma LastSteps<T>(s: State<T>, t: nat, h: Ref, x: T)
    requires t in s.threads && s.threads[t] == PopDelete(h, x)
    ensures var c := At(s.(freed := s.freed + {h.node}), t, PopCount(x));
            && Step(s, t, Go(false)) == c
            && Step(c, t, Go(false)) == At(c.(count := CountDown(s.count)), t, Idle)
  {
    GoPops(s, t, false);
    GoPops(At(s.(freed := s.freed + {h.node}), t, PopCount(x)), t, false);
  }

  /** What a pop has done to the queue of `s`: it took the first item, or there is none. */
  ghost predicate PopDone<T>(s: State<T>, r: State<T>, t: nat) {
    && r.threads == s.threads[t := Idle] && r.linked == s.linked
    && r.taken == if Contents(s) == [] then s.taken else s.taken + [Contents(s)[0]]
  }

  /** From the head of its loop a pop is done after at most two rounds. */
  lemma PopLoop<T>(s: State<T>, t: nat) returns (n: nat)
    requires Inv(s) && t in s.threads && s.threads[t].PopLoadHead?
    ensures n <= 13 && PopDone(s, Solo(s, t, n), t)
  {
    hide Inv, Solo, Step;
    PopLooks(s, t);
    LookSees(s);
    SoloKeeps(s, t, 4);
    var r := At(s, t, Look(s));
    if Contents(s) == [] {
      n := 4;
    } else {
      var first := s.chain[|s.taken| + 1];
      if s.tailPos == |s.taken| {
        PopHelps(s, t, first);
        SoloMore(s, t, 4, 1);
        SoloKeeps(s, t, 5);
        var u := Solo(s, t, 5);
        HelpedPop(s, u, t, first);
        var m := PopFound(u, t, first);
        SoloMore(s, t, 5, m);
        n := 5 + m;
      } else {
        n := PopFound(s, t, first);
      }
    }
  }

  /** With tail_ behind head_'s successor, the pop takes it. */
  lemma PopFound<T>(s: State<T>, t: nat, first: nat) returns (n: nat)
    requires Inv(s) && t in s.threads && s.threads[t].PopLoadHead? && Contents(s) != [] && s.tailPos != |s.taken|
    requires |s.taken| + 1 < |s.chain| && first == s.chain[|s.taken| + 1]
    ensures n == 8 && PopDone(s, Solo(s, t, n), t)
  {
    hide Inv, Solo, Step;
    PopLooks(s, t);
    LookSees(s);
    var r := At(s, t, Look(s));
    PopTakes(r, t, first);
    SoloMore(s, t, 4, 4);
    assert r.threads[t := Idle] == s.threads[t := Idle];
    n := 8;
  }

  /** The state after a pop has helped to swing tail_. */
  function Helped<T>(s: State<T>, t: nat, next: nat, pc: Pc<T>): State<T> {
    At(s.(tail := next, tailPos := s.tailPos + 1), t, pc)
  }

  lemma PopHelps<T>(s: State<T>, t: nat, first: nat)
    requires t in s.threads
    ensures Solo(At(s, t, PopHelp(HeadRef(s), TailRef(s), first)), t, 1) == Helped(s, t, first, PopLoadHead)
  {
    var a := At(s, t, PopHelp(HeadRef(s), TailRef(s), first));
    assert a.threads[t := PopLoadHead] == s.threads[t := PopLoadHead];
    assert Solo(a, t, 0) == a;
    assert Step(a, t, Go(false)) == Helped(s, t, first, PopLoadHead);
  }

  lemma HelpedPop<T>(s: State<T>, u: State<T>, t: nat, first: nat)
    requires u == Helped(s, t, first, PopLoadHead) && t in s.threads && s.tailPos == |s.taken|
    ensures t in u.threads && u.threads[t].PopLoadHead? && Contents(u) == Contents(s) && u.tailPos != |u.taken|
    ensures u.chain == s.chain && u.taken == s.taken && u.linked == s.linked
    ensures u.threads[t := Idle] == s.threads[t := Idle]
  {
  }

  // ---------------------------------------------------------------- push

  lemma GoPushes<T>(s: State<T>, t: nat, spurious: bool)
    requires t in s.threads && IsPush(s.threads[t])
    ensures Step(s, t, Go(spurious)) == StepPush(s, t, s.threads[t], spurious)
  {
    hide StepPush;
  }

  /** Where a look at tail_ and the node behind it leads. */
  function Target<T>(s: State<T>, node: nat): Pc<T> {
    var next := NextOf(s, s.tail);
    if next.Some? then PushHelp(node, TailRef(s), next.value) else PushLink(node, TailRef(s))
  }

  lemma PushLooks<T>(s: State<T>, t: nat, node: nat)
    requires t in s.threads && s.threads[t] == PushLoadTail(node)
    ensures Solo(s, t, 3) == At(s, t, Target(s, node))
  {
    var l, next := TailRef(s), NextOf(s, s.tail);
    var p, q := PushLoadNext(node, l), PushCheckTail(node, l, next);
    var a, b, c := At(s, t, p), At(s, t, q), At(s, t, Target(s, node));
    AtAt(s, t, p, q);
    AtAt(s, t, q, Target(s, node));
    GoPushes(s, t, false);
    GoPushes(a, t, false);
    GoPushes(b, t, false);
    hide Solo, Step;
    SoloFour(s, t, a, b, c, Step(c, t, Go(false)));
  }

  /** tail_ is at the last node, or one before it. */
  lemma TargetIs<T>(s: State<T>, node: nat)
    requires Inv(s)
    ensures s.tailPos + 1 == |s.chain| ==> Target(s, node) == PushLink(node, TailRef(s))
    ensures s.tailPos + 1 < |s.chain| ==>
              && s.tailPos + 2 == |s.chain|
              && Target(s, node) == PushHelp(node, TailRef(s), s.chain[s.tailPos + 1])
  {
    hide LocalsOk, AllApart, FreedOk, CountOk;
    assert s.chain[s.tailPos] in s.heap && s.heap[s.chain[s.tailPos]].next == Link(s.chain, s.tailPos);
  }

  /** What a push has done to the queue of `s`: it linked its item behind the last one. */
  ghost predicate PushDone<T>(s: State<T>, r: State<T>, t: nat, item: T) {
    r.threads == s.threads[t := Idle] && r.linked == s.linked + [item] && r.taken == s.taken
  }

  /** With tail_ at the last node the push links there. */
  lemma PushLinks<T>(s: State<T>, t: nat, node: nat)
    requires Inv(s) && t in s.threads && s.threads[t] == PushLink(node, TailRef(s)) && s.tailPos + 1 == |s.chain|
    ensures node in s.heap && PushDone(s, Solo(s, t, 3), t, s.heap[node].data)
  {
    LinkReady(s, t, node);
    hide Inv, Solo, Step, NextOf, SwingTail, StepPush, IsPush;
    var a := Step(s, t, Go(false));
    LinkStep(s, t, node);
    var b := Step(a, t, Go(false));
    SwingCount(a, t, node, TailRef(s));
    var c := Step(b, t, Go(false));
    SoloFour(s, t, a, b, c, Step(c, t, Go(false)));
    Twice(s.threads, t, PushSwing(node, TailRef(s)), Idle);
  }

  lemma Twice<T>(m: map<nat, Pc<T>>, t: nat, p: Pc<T>, q: Pc<T>)
    ensures m[t := p][t := q] == m[t := q]
  {
  }

  lemma LinkStep<T>(s: State<T>, t: nat, node: nat)
    requires t in s.threads && s.threads[t] == PushLink(node, TailRef(s))
    requires node in s.heap && s.tail in s.heap && NextOf(s, s.tail).None?
    ensures var a := Step(s, t, Go(false));
            && a.threads == s.threads[t := PushSwing(node, TailRef(s))] && a.linked == s.linked + [s.heap[node].data]
            && a.taken == s.taken
  {
    GoPushes(s, t, false);
  }

  lemma SwingCount<T>(a: State<T>, t: nat, node: nat, l: Ref)
    requires t in a.threads && a.threads[t] == PushSwing(node, l)
    ensures var b := Step(a, t, Go(false));
            var c := Step(b, t, Go(false));
            c.threads == a.threads[t := Idle] && c.linked == a.linked && c.taken == a.taken
  {
    GoPushes(a, t, false);
    var b := SwingTail(a, l, node, false);
    assert Step(a, t, Go(false)) == At(b, t, PushCount);
    GoPushes(At(b, t, PushCount), t, false);
    hide SwingTail;
    assert b.threads == a.threads && b.linked == a.linked && b.taken == a.taken by { SwingsOnly(a, l, node); }
    assert b.threads[t := PushCount][t := Idle] == b.threads[t := Idle];
  }

  lemma SwingsOnly<T>(s: State<T>, l: Ref, wanted: nat)
    ensures var b := SwingTail(s, l, wanted, false);
            b.threads == s.threads && b.linked == s.linked && b.taken == s.taken
  {
  }

  lemma LinkReady<T>(s: State<T>, t: nat, node: nat)
    requires Inv(s) && t in s.threads && s.threads[t] == PushLink(node, TailRef(s)) && s.tailPos + 1 == |s.chain|
    ensures node in s.heap && s.tail in s.heap && NextOf(s, s.tail).None?
  {
    hide AllApart, FreedOk, CountOk, LocalOk;
    assert PrivateOk(s, s.threads[t]);
    assert s.chain[s.tailPos] in s.heap && s.heap[s.chain[s.tailPos]].next == Link(s.chain, s.tailPos);
  }

  lemma PushHelps<T>(s: State<T>, t: nat, node: nat, next: nat)
    requires t in s.threads
    ensures Solo(At(s, t, PushHelp(node, TailRef(s), next)), t, 1) == Helped(s, t, next, PushLoadTail(node))
  {
    var a := At(s, t, PushHelp(node, TailRef(s), next));
    assert a.threads[t := PushLoadTail(node)] == s.threads[t := PushLoadTail(node)];
    assert Solo(a, t, 0) == a;
    GoPushes(a, t, false);
  }

  lemma PushFound<T>(s: State<T>, t: nat, node: nat)
    requires Inv(s) && t in s.threads && s.threads[t] == PushLoadTail(node) && s.tailPos + 1 == |s.chain|
    ensures node in s.heap && PushDone(s, Solo(s, t, 6), t, s.heap[node].data)
  {
    hide Inv, Solo, Step;
    PushLooks(s, t, node);
    TargetIs(s, node);
    SoloKeeps(s, t, 3);
    var r := At(s, t, Target(s, node));
    PushLinks(r, t, node);
    SoloMore(s, t, 3, 3);
    assert r.threads[t := Idle] == s.threads[t := Idle];
  }

  /** From the head of its loop a push is done after at most two rounds. */
  lemma PushLoop<T>(s: State<T>, t: nat, node: nat) returns (n: nat)
    requires Inv(s) && t in s.threads && s.threads[t] == PushLoadTail(node)
    ensures n <= 10 && node in s.heap && PushDone(s, Solo(s, t, n), t, s.heap[node].data)
  {
    hide Inv, Solo, Step;
    TargetIs(s, node);
    TailBound(s);
    if s.tailPos + 1 == |s.chain| {
      PushFound(s, t, node);
      n := 6;
    } else {
      var next := s.chain[s.tailPos + 1];
      PushLooks(s, t, node);
      PushHelps(s, t, node, next);
      SoloMore(s, t, 3, 1);
      SoloKeeps(s, t, 4);
      var u := Solo(s, t, 4);
      assert u == Helped(s, t, next, PushLoadTail(node));
      PushFound(u, t, node);
      SoloMore(s, t, 4, 6);
      assert u.threads[t := Idle] == s.threads[t := Idle];
      n := 10;
    }
  }

  lemma TailBound<T>(s: State<T>)
    requires Inv(s)
    ensures s.tailPos < |s.chain|
  {
    hide LocalsOk, AllApart, FreedOk, CountOk;
  }

  // ---------------------------------------------------------------- whole operations

  /** A call of thread `t` and `n` steps of it, with no other thread in between. */
  function Alone<T>(t: nat, call: Move<T>, n: nat): seq<(nat, Move<T>)> {
    if n == 0 then [(t, call)] else Alone(t, call, n - 1) + [(t, Go(false))]
  }

  lemma {:induction false} AloneIsSolo<T>(s: State<T>, t: nat, call: Move<T>, n: nat)
    ensures Run(s, Alone(t, call, n)) == Solo(Step(s, t, call), t, n)
    decreases n
  {
    hide Step;
    var moves := Alone(t, call, n);
    if n == 0 {
      assert moves[..0] == [] && Run(s, []) == s;
    } else {
      AloneIsSolo(s, t, call, n - 1);
      assert moves[..|moves| - 1] == Alone(t, call, n - 1);
    }
  }

  lemma Called<T>(s: State<T>, t: nat, call: Move<T>)
    requires Inv(s) && t in s.threads && s.threads[t].Idle? && !call.Go?
    ensures var pc := if call.CallPop? then PopEmpty else PushFull(call.item);
            Step(s, t, call) == At(s, t, pc) && Inv(At(s, t, pc))
  {
    StepKeeps(s, t, call);
    hide Inv;
  }

  lemma PopStarts<T>(s: State<T>, t: nat)
    requires t in s.threads && s.threads[t].PopEmpty?
    ensures Solo(s, t, 1) == At(s, t, if s.count == 0 then Idle else PopLoadHead)
  {
    assert Solo(s, t, 0) == s;
    GoPops(s, t, false);
  }

  /** A pop that nobody disturbs, whatever the other threads are in the middle of: it comes back, with the first item
      exactly if there is one and the counter has not fallen to 0. */
  lemma PopAlone<T>(s: State<T>, t: nat) returns (n: nat)
    requires Inv(s) && t in s.threads && s.threads[t].Idle?
    ensures n <= 14
    ensures var r := Run(s, Alone(t, CallPop, n));
            && r.threads == s.threads && r.linked == s.linked
            && r.taken == if Contents(s) != [] && s.count != 0 then s.taken + [Contents(s)[0]] else s.taken
  {
    hide Inv, Solo, Step, Run, Alone;
    Called(s, t, CallPop);
    var a := At(s, t, PopEmpty);
    PopStarts(a, t);
    SoloKeeps(a, t, 1);
    Twice(s.threads, t, PopEmpty, Idle);
    Twice(s.threads, t, PopEmpty, PopLoadHead);
    Twice(s.threads, t, PopLoadHead, Idle);
    assert s.threads[t := Idle] == s.threads;
    if s.count == 0 {
      n := 1;
    } else {
      var m := PopLoop(At(a, t, PopLoadHead), t);
      SoloMore(a, t, 1, m);
      n := 1 + m;
    }
    AloneIsSolo(s, t, CallPop, n);
  }

  lemma PushStarts<T>(s: State<T>, t: nat, item: T)
    requires t in s.threads && s.threads[t] == PushFull(item)
    ensures var r := Solo(s, t, 1);
            if s.maxCount > 0 && s.maxCount <= s.count then r == At(s, t, Idle)
            else
              && r.threads == s.threads[t := PushLoadTail(s.nextId)] && r.linked == s.linked && r.taken == s.taken
              && r.heap == s.heap[s.nextId := Node(item, None)]
  {
    assert Solo(s, t, 0) == s;
    GoPushes(s, t, false);
  }

  /** A push that nobody disturbs: it comes back, with its item linked behind the last one exactly if the counter has
      not reached the limit. */
  lemma PushAlone<T>(s: State<T>, t: nat, item: T) returns (n: nat)
    requires Inv(s) && t in s.threads && s.threads[t].Idle?
    ensures n <= 11
    ensures var r := Run(s, Alone(t, CallPush(item), n));
            && r.threads == s.threads && r.taken == s.taken
            && r.linked == if s.maxCount > 0 && s.maxCount <= s.count then s.linked else s.linked + [item]
  {
    hide Inv, Solo, Step, Run, Alone;
    Called(s, t, CallPush(item));
    var a := At(s, t, PushFull(item));
    PushStarts(a, t, item);
    SoloKeeps(a, t, 1);
    Twice(s.threads, t, PushFull(item), Idle);
    assert s.threads[t := Idle] == s.threads;
    if s.maxCount > 0 && s.maxCount <= s.count {
      n := 1;
    } else {
      var b := Solo(a, t, 1);
      Twice(s.threads, t, PushFull(item), PushLoadTail(s.nextId));
      Twice(s.threads, t, PushLoadTail(s.nextId), Idle);
      var m := PushLoop(b, t, s.nextId);
      SoloMore(a, t, 1, m);
      n := 1 + m;
    }
    AloneIsSolo(s, t, CallPush(item), n);
  }

  /** No operation is pending. */
  predicate Quiet<T>(s: State<T>) { forall t <- s.threads :: s.threads[t].Idle? }

  lemma QuietCount<T>(s: State<T>)
    requires Inv(s) && Quiet(s)
    ensures s.count == |Contents(s)| % UINT64_RANGE && |s.taken| <= |s.linked|
  {
    hide LocalsOk, AllApart, FreedOk;
    assert Adders(s) == {} && Subbers(s) == {};
    Congruent(s.count, |s.linked| - |s.taken|);
  }

  lemma Congruent(a: nat, b: nat)
    requires a < UINT64_RANGE && (a - b) % UINT64_RANGE == 0
    ensures a == b % UINT64_RANGE
  {
  }

  lemma Reached<T>(sentry: T, maxCount: nat, threads: set<nat>, moves: seq<(nat, Move<T>)>)
    ensures var s := Run(Init(sentry, maxCount, threads), moves);
            Inv(s) && s.threads.Keys == threads && s.maxCount == maxCount
  {
    hide Inv, Run;
    InitInv(sentry, maxCount, threads);
    RunKeeps(Init(sentry, maxCount, threads), moves);
    RunThreads(Init(sentry, maxCount, threads), moves);
    RunLimit(Init(sentry, maxCount, threads), moves);
  }

  lemma {:induction false} RunLimit<T>(s: State<T>, moves: seq<(nat, Move<T>)>)
    ensures Run(s, moves).maxCount == s.maxCount
    decreases |moves|
  {
    hide Step;
    if moves != [] {
      var last := moves[|moves| - 1];
      RunLimit(s, moves[..|moves| - 1]);
      StepLimit(Run(s, moves[..|moves| - 1]), last.0, last.1);
    }
  }

  lemma StepLimit<T>(s: State<T>, t: nat, m: Move<T>)
    ensures Step(s, t, m).maxCount == s.maxCount
  {
  }

  /** The queue as its user knows it. Whenever no operation is pending, a pop takes the first item if and only if the
      queue is not empty: that is, holds no multiple of 2^64 items. */
  lemma PopTakesExactlyWhen<T>(sentry: T, maxCount: nat, threads: set<nat>, moves: seq<(nat, Move<T>)>, t: nat)
    returns (n: nat)
    requires t in threads && Quiet(Run(Init(sentry, maxCount, threads), moves))
    ensures var s := Run(Init(sentry, maxCount, threads), moves);
            var r := Run(s, Alone(t, CallPop, n));
            && Quiet(r) && r.linked == s.linked
            && (if |Contents(s)| % UINT64_RANGE != 0
                then |r.taken| == |s.taken| + 1 && Contents(s) == [r.taken[|s.taken|]] + Contents(r)
                else Contents(r) == Contents(s) && r.taken == s.taken)
            && (|Contents(s)| < UINT64_RANGE ==> (|r.taken| == |s.taken| + 1 <==> Contents(s) != []))
  {
    Reached(sentry, maxCount, threads, moves);
    var s := Run(Init(sentry, maxCount, threads), moves);
    hide Inv, Run, Alone;
    QuietCount(s);
    n := PopAlone(s, t);
    if Contents(s) != [] { assert s.linked[|s.taken|..] == [s.linked[|s.taken|]] + s.linked[|s.taken| + 1..]; }
  }

  /** And a push links its item behind the last one if and only if the queue has no limit or is below it. */
  lemma PushLinksExactlyWhen<T>(
    sentry: T, maxCount: nat, threads: set<nat>, moves: seq<(nat, Move<T>)>, t: nat, item: T)
    returns (n: nat)
    requires t in threads && Quiet(Run(Init(sentry, maxCount, threads), moves))
    ensures var s := Run(Init(sentry, maxCount, threads), moves);
            var r := Run(s, Alone(t, CallPush(item), n));
            && Quiet(r) && r.taken == s.taken
            && Contents(r) == (if maxCount == 0 || |Contents(s)| % UINT64_RANGE < maxCount then Contents(s) + [item]
                               else Contents(s))
            && (|Contents(s)| < UINT64_RANGE ==>
                  (Contents(r) == Contents(s) + [item] <==> maxCount == 0 || |Contents(s)| < maxCount))
  {
    Reached(sentry, maxCount, threads, moves);
    var s := Run(Init(sentry, maxCount, threads), moves);
    hide Inv, Run, Alone;
    QuietCount(s);
    n := PushAlone(s, t, item);
    assert (s.linked + [item])[|s.taken|..] == s.linked[|s.taken|..] + [item];
  }

  // ---------------------------------------------------------------- from anywhere

  /** How far a thread is, at most, from the head of its loop or the end of its operation. */
  function Distance<T>(pc: Pc<T>): nat {
    match pc
    case PushFull(_) => 1
    case PushLoadNext(_, _) => 6
    case PushCheckTail(_, _, _) => 5
    case PushHelp(_, _, _) => 1
    case PushLink(_, _) => 4
    case PushSwing(_, _) => 2
    case PushCount => 1
    case PopEmpty => 1
    case PopLoadTail(_) => 7
    case PopLoadNext(_, _) => 6
    case PopCheckHead(_, _, _) => 5
    case PopHelp(_, _, _) => 1
    case PopRead(_, _) => 4
    case PopSwing(_, _, _) => 3
    case PopDelete(_, _) => 2
    case PopCount(_) => 1
    case _ => 0
  }

  lemma PushNearer<T>(s: State<T>, t: nat)
    requires Inv(s) && t in s.threads && Distance(s.threads[t]) > 0 && IsPush(s.threads[t])
    ensures var r := StepPush(s, t, s.threads[t], false);
            t in r.threads && Distance(r.threads[t]) < Distance(s.threads[t])
  {
    hide Inv;
  }

  lemma PopNearer<T>(s: State<T>, t: nat)
    requires Inv(s) && t in s.threads && Distance(s.threads[t]) > 0 && !IsPush(s.threads[t])
    ensures var r := StepPop(s, t, s.threads[t], false);
            t in r.threads && Distance(r.threads[t]) < Distance(s.threads[t])
  {
    hide Inv, SwingTail;
    if s.threads[t].PopRead? {
      ReadValue(s, t, s.threads[t].oldHead, s.threads[t].next);
    } else {
      SwingKeepsThreads(s);
    }
  }

  lemma SwingKeepsThreads<T>(s: State<T>)
    ensures forall l, wanted, spurious :: SwingTail(s, l, wanted, spurious).threads == s.threads
  {
  }

  lemma {:induction false} ComesToHead<T>(s: State<T>, t: nat) returns (n: nat)
    requires Inv(s) && t in s.threads
    ensures n <= Distance(s.threads[t])
    ensures var r := Solo(s, t, n); Inv(r) && t in r.threads && Distance(r.threads[t]) == 0
    decreases Distance(s.threads[t])
  {
    hide Inv, StepPush, StepPop;
    if Distance(s.threads[t]) == 0 {
      n := 0;
    } else {
      if IsPush(s.threads[t]) { PushNearer(s, t); } else { PopNearer(s, t); }
      var r := Step(s, t, Go(false));
      StepKeeps(s, t, Go(false));
      var m := ComesToHead(r, t);
      assert Solo(s, t, 1) == r by { assert Solo(s, t, 0) == s; }
      SoloMore(s, t, 1, m);
      n := 1 + m;
    }
  }

  /** From every reachable state every thread ends its operation within 20 steps of its own, wherever it and the others
      are, if the others stand still meanwhile. */
  lemma EndsAlone<T>(sentry: T, maxCount: nat, threads: set<nat>, moves: seq<(nat, Move<T>)>, t: nat) returns (n: nat)
    requires t in threads
    ensures n <= 20
    ensures var r := Solo(Run(Init(sentry, maxCount, threads), moves), t, n); t in r.threads && r.threads[t].Idle?
  {
    Reached(sentry, maxCount, threads, moves);
    var s := Run(Init(sentry, maxCount, threads), moves);
    hide Inv, Solo, Run, Init;
    var m := ComesToHead(s, t);
    DistanceBound(s.threads[t]);
    var r := Solo(s, t, m);
    var k := 0;
    if r.threads[t].PushLoadTail? {
      k := PushLoop(r, t, r.threads[t].node);
    } else if r.threads[t].PopLoadHead? {
      k := PopLoop(r, t);
    } else {
      SoloUnfolds(r, t);
    }
    SoloMore(s, t, m, k);
    n := m + k;
  }

  lemma DistanceBound<T>(pc: Pc<T>)
    ensures Distance(pc) <= 7
  {
  }
}
