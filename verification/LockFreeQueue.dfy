// The Michael-Scott queue as a transition system: any number of threads, one atomic load,
// compare-and-swap or counter update per step, sequentially consistent memory, and node
// identities that are never used again.

module LockFreeQueue {
  import opened Words

  datatype Node<T> = Node(data: T, next: Option<nat>)

  /** A pointer a thread has loaded, with the place it had in the chain of linked nodes. */
  datatype Ref = Ref(node: nat, pos: nat)

  /** Where a thread is in push or pop; each constructor is about to make one access to shared memory. */
  datatype Pc<T> =
    | Idle
    | PushFull(item: T)
    | PushLoadTail(node: nat)
    | PushLoadNext(node: nat, oldTail: Ref)
    | PushCheckTail(node: nat, oldTail: Ref, next: Option<nat>)
    | PushHelp(node: nat, oldTail: Ref, nextNode: nat)
    | PushLink(node: nat, oldTail: Ref)
    | PushSwing(node: nat, oldTail: Ref)
    | PushCount
    | PopEmpty
    | PopLoadHead
    | PopLoadTail(oldHead: Ref)
    | PopLoadNext(oldHead: Ref, oldTail: Ref)
    | PopCheckHead(oldHead: Ref, oldTail: Ref, next: Option<nat>)
    | PopHelp(oldHead: Ref, oldTail: Ref, nextNode: nat)
    | PopRead(oldHead: Ref, next: Option<nat>)
    | PopSwing(oldHead: Ref, nextNode: nat, item: T)
    | PopDelete(oldHead: Ref, item: T)
    | PopCount(item: T)

  /** The queue's memory and the threads. The last four fields only record what has happened: the nodes in
      the order they were linked, the place of tail_ among them, and the values linked and taken. */
  datatype State<T> = State(
    heap: map<nat, Node<T>>,
    nextId: nat,
    freed: set<nat>,
    head: nat,
    tail: nat,
    count: nat,
    maxCount: nat,
    threads: map<nat, Pc<T>>,
    chain: seq<nat>,
    tailPos: nat,
    linked: seq<T>,
    taken: seq<T>)

  /** init: one sentry node. */
  function Init<T>(sentry: T, maxCount: nat, threads: set<nat>): State<T> {
    State(map[0 := Node(sentry, None)], 1, {}, 0, 0, 0, maxCount, map t | t in threads :: Idle, [0], 0, [], [])
  }

  /** What happens next in one thread: a call, or its next step, in which a weak compare-and-swap may fail for
      no reason. */
  datatype Move<T> = CallPush(item: T) | CallPop | Go(spurious: bool)

  function At<T>(s: State<T>, t: nat, pc: Pc<T>): State<T> { s.(threads := s.threads[t := pc]) }

  function NextOf<T>(s: State<T>, n: nat): Option<nat> { if n in s.heap then s.heap[n].next else None }

  /** tail_.compare_exchange_weak(expected, wanted). */
  function SwingTail<T>(s: State<T>, expected: Ref, wanted: nat, spurious: bool): State<T> {
    if s.tail == expected.node && !spurious then s.(tail := wanted, tailPos := expected.pos + 1) else s
  }

  function StepPush<T>(s: State<T>, t: nat, pc: Pc<T>, spurious: bool): State<T> {
    match pc
    case PushFull(item) =>
      if s.maxCount > 0 && s.maxCount <= s.count then At(s, t, Idle)
      else At(s.(heap := s.heap[s.nextId := Node(item, None)], nextId := s.nextId + 1), t, PushLoadTail(s.nextId))
    case PushLoadTail(node) => At(s, t, PushLoadNext(node, Ref(s.tail, s.tailPos)))
    case PushLoadNext(node, oldTail) => At(s, t, PushCheckTail(node, oldTail, NextOf(s, oldTail.node)))
    case PushCheckTail(node, oldTail, next) =>
      if oldTail.node != s.tail then At(s, t, PushLoadTail(node))
      else if next.Some? then At(s, t, PushHelp(node, oldTail, next.value))
      else At(s, t, PushLink(node, oldTail))
    case PushHelp(node, oldTail, nextNode) => At(SwingTail(s, oldTail, nextNode, spurious), t, PushLoadTail(node))
    case PushLink(node, oldTail) =>
      if NextOf(s, oldTail.node).None? && !spurious && oldTail.node in s.heap && node in s.heap then
        At(s.(heap := s.heap[oldTail.node := s.heap[oldTail.node].(next := Some(node))],
              chain := s.chain + [node], linked := s.linked + [s.heap[node].data]), t, PushSwing(node, oldTail))
      else At(s, t, PushLoadTail(node))
    case PushSwing(node, oldTail) => At(SwingTail(s, oldTail, node, spurious), t, PushCount)
    case PushCount => At(s.(count := (s.count + 1) % UINT64_RANGE), t, Idle)
    case _ => s
  }

  function StepPop<T>(s: State<T>, t: nat, pc: Pc<T>, spurious: bool): State<T> {
    match pc
    case PopEmpty => At(s, t, if s.count == 0 then Idle else PopLoadHead)
    case PopLoadHead => At(s, t, PopLoadTail(Ref(s.head, |s.taken|)))
    case PopLoadTail(oldHead) => At(s, t, PopLoadNext(oldHead, Ref(s.tail, s.tailPos)))
    case PopLoadNext(oldHead, oldTail) => At(s, t, PopCheckHead(oldHead, oldTail, NextOf(s, oldHead.node)))
    case PopCheckHead(oldHead, oldTail, next) =>
      if oldHead.node != s.head then At(s, t, PopLoadHead)
      else if oldHead.node == oldTail.node && next.None? then At(s, t, Idle)
      else if oldHead.node == oldTail.node then At(s, t, PopHelp(oldHead, oldTail, next.value))
      else At(s, t, PopRead(oldHead, next))
    case PopHelp(oldHead, oldTail, nextNode) => At(SwingTail(s, oldTail, nextNode, spurious), t, PopLoadHead)
    case PopRead(oldHead, next) =>
      // a null next_node would be dereferenced here: the thread would get stuck
      if next.Some? && next.value in s.heap then At(s, t, PopSwing(oldHead, next.value, s.heap[next.value].data)) else s
    case PopSwing(oldHead, nextNode, item) =>
      if s.head == oldHead.node && !spurious then
        At(s.(head := nextNode, taken := s.taken + [item]), t, PopDelete(oldHead, item))
      else At(s, t, PopLoadHead)
    case PopDelete(oldHead, item) => At(s.(freed := s.freed + {oldHead.node}), t, PopCount(item))
    case PopCount(_) => At(s.(count := (s.count + UINT64_RANGE - 1) % UINT64_RANGE), t, Idle)
    case _ => s
  }

  function Step<T>(s: State<T>, t: nat, m: Move<T>): State<T> {
    if t !in s.threads then s
    else
      var pc := s.threads[t];
      match m
      case CallPush(item) => if pc.Idle? then At(s, t, PushFull(item)) else s
      case CallPop => if pc.Idle? then At(s, t, PopEmpty) else s
      case Go(spurious) => if IsPush(pc) then StepPush(s, t, pc, spurious) else StepPop(s, t, pc, spurious)
  }

  predicate IsPush<T>(pc: Pc<T>) {
    pc.PushFull? || pc.PushLoadTail? || pc.PushLoadNext? || pc.PushCheckTail? || pc.PushHelp? || pc.PushLink?
    || pc.PushSwing? || pc.PushCount?
  }

  function Run<T>(s: State<T>, moves: seq<(nat, Move<T>)>): State<T> {
    if moves == [] then s
    else
      var last := moves[|moves| - 1];
      Step(Run(s, moves[..|moves| - 1]), last.0, last.1)
  }

  // ---------------------------------------------------------------- the invariant

  /** The next pointer of the node at place `i`. */
  function Link(chain: seq<nat>, i: nat): Option<nat> { if i + 1 < |chain| then Some(chain[i + 1]) else None }

  predicate Distinct(chain: seq<nat>) { forall i, j :: 0 <= i < j < |chain| ==> chain[i] != chain[j] }

  /** Every node of the chain points to the next one, and the last one to nothing. */
  predicate Threaded<T>(heap: map<nat, Node<T>>, chain: seq<nat>) {
    forall i :: 0 <= i < |chain| ==> chain[i] in heap && heap[chain[i]].next == Link(chain, i)
  }

  /** The nodes behind the sentry hold the linked values. */
  ghost predicate Holding<T>(heap: map<nat, Node<T>>, chain: seq<nat>, linked: seq<T>) {
    |chain| == |linked| + 1 && forall i :: 0 <= i < |linked| ==> Holds(heap, chain[i + 1], linked[i])
  }

  ghost predicate Holds<T>(heap: map<nat, Node<T>>, n: nat, value: T) { n in heap && heap[n].data == value }

  /** The linked nodes are one finite chain without repetition; head_ is not past tail_ and tail_ is at most
      one link from the end. */
  ghost predicate ChainOk<T>(s: State<T>) {
    && |s.chain| == |s.linked| + 1
    && |s.taken| <= s.tailPos < |s.chain| <= s.tailPos + 2
    && s.head == s.chain[|s.taken|] && s.tail == s.chain[s.tailPos]
    && Distinct(s.chain) && Threaded(s.heap, s.chain) && Holding(s.heap, s.chain, s.linked)
    && (forall n <- s.heap :: n < s.nextId)
  }

  /** What was taken is, in order, the beginning of what was linked. */
  ghost predicate FifoOk<T>(s: State<T>) { s.taken <= s.linked }

  predicate RefOk<T>(s: State<T>, r: Ref) { r.pos < |s.chain| && s.chain[r.pos] == r.node }

  /** The node a push has allocated and not linked yet. */
  function Private<T>(pc: Pc<T>): Option<nat> {
    match pc
    case PushLoadTail(node) => Some(node)
    case PushLoadNext(node, _) => Some(node)
    case PushCheckTail(node, _, _) => Some(node)
    case PushHelp(node, _, _) => Some(node)
    case PushLink(node, _) => Some(node)
    case _ => None
  }

  ghost predicate PrivateOk<T>(s: State<T>, pc: Pc<T>) {
    Private(pc).Some? ==>
      var n := Private(pc).value;
      n in s.heap && s.heap[n].next.None? && n !in s.chain
  }

  /** The next pointer that was loaded from the node at `r` is null or leads to the node after it. */
  ghost predicate NextOk<T>(s: State<T>, r: Ref, next: Option<nat>) {
    next.Some? ==> r.pos + 1 < |s.chain| && s.chain[r.pos + 1] == next.value
  }

  /** What a thread's local variables say about the chain. */
  ghost predicate LocalOk<T>(s: State<T>, pc: Pc<T>) {
    match pc
    case PushLoadNext(_, oldTail) => RefOk(s, oldTail) && oldTail.pos <= s.tailPos
    case PushCheckTail(_, oldTail, next) => RefOk(s, oldTail) && oldTail.pos <= s.tailPos && NextOk(s, oldTail, next)
    case PushHelp(_, oldTail, nextNode) =>
      RefOk(s, oldTail) && oldTail.pos <= s.tailPos && NextOk(s, oldTail, Some(nextNode))
    case PushLink(_, oldTail) => RefOk(s, oldTail) && oldTail.pos <= s.tailPos
    case PushSwing(node, oldTail) => RefOk(s, oldTail) && oldTail.pos <= s.tailPos && NextOk(s, oldTail, Some(node))
    case PopLoadTail(oldHead) => RefOk(s, oldHead) && oldHead.pos <= |s.taken|
    case PopLoadNext(oldHead, oldTail) =>
      RefOk(s, oldHead) && RefOk(s, oldTail) && oldHead.pos <= |s.taken| && oldHead.pos <= oldTail.pos <= s.tailPos
    case PopCheckHead(oldHead, oldTail, next) =>
      && RefOk(s, oldHead) && RefOk(s, oldTail) && oldHead.pos <= |s.taken| && oldHead.pos <= oldTail.pos <= s.tailPos
      && NextOk(s, oldHead, next) && (next.None? ==> oldHead.pos == oldTail.pos)
    case PopHelp(oldHead, oldTail, nextNode) =>
      RefOk(s, oldTail) && oldTail.pos <= s.tailPos && NextOk(s, oldTail, Some(nextNode))
    case PopRead(oldHead, next) =>
      RefOk(s, oldHead) && oldHead.pos < s.tailPos && next.Some? && NextOk(s, oldHead, next)
    case PopSwing(oldHead, nextNode, item) =>
      && RefOk(s, oldHead) && oldHead.pos < s.tailPos && NextOk(s, oldHead, Some(nextNode))
      && oldHead.pos < |s.linked| && item == s.linked[oldHead.pos]
    case PopDelete(oldHead, item) =>
      && RefOk(s, oldHead) && oldHead.pos < |s.taken| && item == s.taken[oldHead.pos]
      && oldHead.node !in s.freed
    case _ => true
  }

  ghost predicate LocalsOk<T>(s: State<T>) {
    forall t <- s.threads :: LocalOk(s, s.threads[t]) && PrivateOk(s, s.threads[t])
  }

  /** No two threads hold the same unlinked node or are about to delete the same one. */
  predicate Apart<T>(p: Pc<T>, q: Pc<T>) {
    && (Private(p).Some? ==> Private(p) != Private(q))
    && (p.PopDelete? && q.PopDelete? ==> p.oldHead.node != q.oldHead.node)
  }

  ghost predicate AllApart<T>(s: State<T>) {
    forall t, u :: t in s.threads && u in s.threads && t != u ==> Apart(s.threads[t], s.threads[u])
  }

  /** The nodes that head_ has passed are freed, or one thread is about to free them: nothing is freed that
      head_ or tail_ still reaches, nothing twice, and nothing is forgotten. */
  ghost predicate FreedOk<T>(s: State<T>) {
    && (forall n <- s.freed :: exists i :: 0 <= i < |s.taken| && i < |s.chain| && s.chain[i] == n)
    && (forall i :: 0 <= i < |s.taken| && i < |s.chain| ==>
                      s.chain[i] in s.freed
                      || exists t :: t in s.threads && s.threads[t].PopDelete?
                                     && s.threads[t].oldHead.node == s.chain[i])
  }

  /** Threads that have linked a node and not counted it. */
  predicate Adding<T>(pc: Pc<T>) { pc.PushSwing? || pc.PushCount? }

  /** Threads that have taken a node and not counted it off. */
  predicate Subbing<T>(pc: Pc<T>) { pc.PopDelete? || pc.PopCount? }

  function Adders<T>(s: State<T>): set<nat> { set t | t in s.threads && Adding(s.threads[t]) }
  function Subbers<T>(s: State<T>): set<nat> { set t | t in s.threads && Subbing(s.threads[t]) }

  /** The counter, up to the updates that are still to come, and wrapping as a size_t does. */
  ghost predicate CountOk<T>(s: State<T>) {
    && s.count < UINT64_RANGE
    && (s.count - (|s.linked| - |s.taken| - |Adders(s)| + |Subbers(s)|)) % UINT64_RANGE == 0
  }

  ghost predicate Inv<T>(s: State<T>) {
    ChainOk(s) && FifoOk(s) && LocalsOk(s) && AllApart(s) && FreedOk(s) && CountOk(s)
  }

  lemma InitInv<T>(sentry: T, maxCount: nat, threads: set<nat>)
    ensures Inv(Init(sentry, maxCount, threads))
  {
    var s := Init(sentry, maxCount, threads);
    assert Adders(s) == {} && Subbers(s) == {};
  }

  // ---------------------------------------------------------------- what a step of one thread leaves alone

  /** Thread `t` has moved from `s` to `r`; the others are where they were. */
  ghost predicate Moves<T>(s: State<T>, r: State<T>, t: nat) {
    && t in s.threads && r.threads.Keys == s.threads.Keys
    && forall u <- s.threads :: u != t ==> r.threads[u] == s.threads[u]
  }

  /** The chain and the history only grow, and what is freed is no other thread's to free. */
  ghost predicate Grows<T>(s: State<T>, r: State<T>, t: nat)
    requires Moves(s, r, t)
  {
    && s.chain <= r.chain && s.linked <= r.linked && s.taken <= r.taken && s.tailPos <= r.tailPos
    && forall u <- s.threads :: u != t && s.threads[u].PopDelete? && s.threads[u].oldHead.node in r.freed ==>
                                  s.threads[u].oldHead.node in s.freed
  }

  lemma LocalGrows<T>(s: State<T>, r: State<T>, pc: Pc<T>)
    requires s.chain <= r.chain && s.linked <= r.linked && s.taken <= r.taken && s.tailPos <= r.tailPos
    requires LocalOk(s, pc) && (pc.PopDelete? ==> pc.oldHead.node !in r.freed)
    ensures LocalOk(r, pc)
  {
  }

  lemma LocalsGrow<T>(s: State<T>, r: State<T>, t: nat)
    requires LocalsOk(s) && Moves(s, r, t) && Grows(s, r, t) && LocalOk(r, r.threads[t]) && PrivateOk(r, r.threads[t])
    requires forall u <- s.threads :: u != t ==> PrivateOk(r, s.threads[u])
    ensures LocalsOk(r)
  {
    hide PrivateOk, LocalOk;
    forall u | u in r.threads ensures LocalOk(r, r.threads[u]) && PrivateOk(r, r.threads[u]) {
      if u != t {
        assert LocalOk(s, s.threads[u]);
        if s.threads[u].PopDelete? { PendingNotFreed(s, s.threads[u]); }
        LocalGrows(s, r, s.threads[u]);
      }
    }
  }

  lemma PendingNotFreed<T>(s: State<T>, pc: Pc<T>)
    requires LocalOk(s, pc) && pc.PopDelete?
    ensures pc.oldHead.node !in s.freed && pc.oldHead.pos < |s.taken| && RefOk(s, pc.oldHead)
  {
  }

  lemma ApartMoves<T>(s: State<T>, r: State<T>, t: nat)
    requires AllApart(s) && Moves(s, r, t)
    requires forall u <- s.threads :: u != t ==> Apart(r.threads[t], s.threads[u]) && Apart(s.threads[u], r.threads[t])
    ensures AllApart(r)
  {
    hide Apart;
    forall u, v | u in r.threads && v in r.threads && u != v ensures Apart(r.threads[u], r.threads[v]) {
      if u != t && v != t { assert Apart(s.threads[u], s.threads[v]); }
    }
  }

  lemma CountMove<T>(s: State<T>, r: State<T>, t: nat)
    requires Moves(s, r, t)
    ensures |Adders(r)| - |Adders(s)|
         == (if Adding(r.threads[t]) then 1 else 0) - (if Adding(s.threads[t]) then 1 else 0)
    ensures |Subbers(r)| - |Subbers(s)|
         == (if Subbing(r.threads[t]) then 1 else 0) - (if Subbing(s.threads[t]) then 1 else 0)
  {
    hide Adding, Subbing;
    var p, q := s.threads[t], r.threads[t];
    assert Adders(r) - {t} == Adders(s) - {t};
    assert Subbers(r) - {t} == Subbers(s) - {t};
    SetWithout(Adders(s), t);
    SetWithout(Adders(r), t);
    SetWithout(Subbers(s), t);
    SetWithout(Subbers(r), t);
  }

  lemma SetWithout(a: set<nat>, t: nat)
    ensures |a| == |a - {t}| + if t in a then 1 else 0
  {
    if t in a { assert a == (a - {t}) + {t}; } else { assert a - {t} == a; }
  }

  lemma CountKeeps<T>(s: State<T>, r: State<T>, t: nat, change: int)
    requires CountOk(s) && Moves(s, r, t) && r.count < UINT64_RANGE
    requires (r.count - s.count - change) % UINT64_RANGE == 0
    requires change == (|r.linked| - |s.linked|) - (|r.taken| - |s.taken|)
                       - ((if Adding(r.threads[t]) then 1 else 0) - (if Adding(s.threads[t]) then 1 else 0))
                       + ((if Subbing(r.threads[t]) then 1 else 0) - (if Subbing(s.threads[t]) then 1 else 0))
    ensures CountOk(r)
  {
    hide Adding, Subbing, Adders, Subbers;
    CountMove(s, r, t);
    var x := s.count - (|s.linked| - |s.taken| - |Adders(s)| + |Subbers(s)|);
    var y := r.count - (|r.linked| - |r.taken| - |Adders(r)| + |Subbers(r)|);
    var z := r.count - s.count - change;
    assert y == x + z;
    ModSum(x, z);
  }

  lemma ModSum(x: int, z: int)
    requires x % UINT64_RANGE == 0 && z % UINT64_RANGE == 0
    ensures (x + z) % UINT64_RANGE == 0
  {
  }

  // ---------------------------------------------------------------- steps that only move a thread

  lemma FreedSame<T>(s: State<T>, r: State<T>, t: nat)
    requires FreedOk(s) && Moves(s, r, t) && !s.threads[t].PopDelete?
    requires r.freed == s.freed && s.chain <= r.chain && r.taken == s.taken && |s.taken| <= |s.chain|
    ensures FreedOk(r)
  {
    forall n | n in r.freed ensures exists i :: 0 <= i < |r.taken| && i < |r.chain| && r.chain[i] == n {
      var i :| 0 <= i < |s.taken| && i < |s.chain| && s.chain[i] == n;
      assert r.chain[i] == n;
    }
    forall i | 0 <= i < |r.taken| && i < |r.chain| && r.chain[i] !in r.freed
      ensures exists u :: u in r.threads && r.threads[u].PopDelete? && r.threads[u].oldHead.node == r.chain[i]
    {
      assert r.chain[i] == s.chain[i];
      var u :| u in s.threads && s.threads[u].PopDelete? && s.threads[u].oldHead.node == s.chain[i];
      assert r.threads[u] == s.threads[u];
    }
  }

  lemma PrivateSame<T>(s: State<T>, r: State<T>, pc: Pc<T>)
    requires PrivateOk(s, pc) && r.heap == s.heap && r.chain == s.chain
    ensures PrivateOk(r, pc)
  {
  }

  lemma ChainSame<T>(s: State<T>, t: nat, pc: Pc<T>)
    requires ChainOk(s) && FifoOk(s)
    ensures ChainOk(At(s, t, pc)) && FifoOk(At(s, t, pc))
  {
  }

  /** A step that changes nothing shared. */
  lemma MoveKeeps<T>(s: State<T>, t: nat, pc: Pc<T>)
    requires Inv(s) && t in s.threads && LocalOk(s, pc) && PrivateOk(s, pc)
    requires Private(pc) == Private(s.threads[t]) || Private(pc).None?
    requires Adding(pc) == Adding(s.threads[t]) && Subbing(pc) == Subbing(s.threads[t])
    requires !pc.PopDelete? && !s.threads[t].PopDelete?
    ensures Inv(At(s, t, pc))
  {
    hide LocalOk, PrivateOk, FreedOk, CountOk, Adding, Subbing, Private, ChainOk;
    var r := At(s, t, pc);
    ChainSame(s, t, pc);
    LocalGrows(s, r, pc);
    PrivateSame(s, r, pc);
    forall u | u in s.threads && u != t ensures PrivateOk(r, s.threads[u]) { PrivateSame(s, r, s.threads[u]); }
    LocalsGrow(s, r, t);
    forall u | u in s.threads && u != t ensures Apart(pc, s.threads[u]) && Apart(s.threads[u], pc) {
      assert Apart(s.threads[t], s.threads[u]) && Apart(s.threads[u], s.threads[t]);
    }
    ApartMoves(s, r, t);
    FreedSame(s, r, t);
    CountBound(s);
    CountKeeps(s, r, t, 0);
  }

  lemma CountBound<T>(s: State<T>)
    requires CountOk(s)
    ensures s.count < UINT64_RANGE
  {
  }

  lemma ThreadFacts<T>(s: State<T>, t: nat)
    requires Inv(s) && t in s.threads
    ensures LocalOk(s, s.threads[t]) && PrivateOk(s, s.threads[t])
    ensures |s.taken| <= s.tailPos < |s.chain| && s.head == s.chain[|s.taken|] && s.tail == s.chain[s.tailPos]
    ensures RefOk(s, Ref(s.head, |s.taken|)) && RefOk(s, Ref(s.tail, s.tailPos))
  {
    hide LocalOk, PrivateOk;
  }

  /** A load of the next pointer of a linked node. */
  lemma LoadNext<T>(s: State<T>, ref: Ref)
    requires ChainOk(s) && RefOk(s, ref)
    ensures NextOk(s, ref, NextOf(s, ref.node))
    ensures ref.pos + 1 < |s.chain| ==> NextOf(s, ref.node).Some?
  {
    hide Distinct, Holding;
    assert s.chain[ref.pos] in s.heap && s.heap[s.chain[ref.pos]].next == Link(s.chain, ref.pos);
  }

  // ---------------------------------------------------------------- tail_

  lemma SwingChain<T>(s: State<T>, expected: Ref, wanted: nat, spurious: bool)
    requires ChainOk(s) && FifoOk(s) && RefOk(s, expected) && expected.pos <= s.tailPos
    requires NextOk(s, expected, Some(wanted))
    ensures var r := SwingTail(s, expected, wanted, spurious);
            ChainOk(r) && FifoOk(r) && s.tailPos <= r.tailPos && r == s.(tail := r.tail, tailPos := r.tailPos)
  {
    var r := SwingTail(s, expected, wanted, spurious);
    if r != s {
      assert s.chain[s.tailPos] == s.chain[expected.pos];
      assert s.tailPos == expected.pos;
    }
  }

  /** A thread's compare-and-swap on tail_, successful or not. */
  lemma SwingKeeps<T>(s: State<T>, t: nat, expected: Ref, wanted: nat, spurious: bool, pc: Pc<T>)
    requires Inv(s) && t in s.threads && RefOk(s, expected) && expected.pos <= s.tailPos
    requires NextOk(s, expected, Some(wanted)) && LocalOk(s, pc) && PrivateOk(s, pc)
    requires Private(pc) == Private(s.threads[t]) || Private(pc).None?
    requires Adding(pc) == Adding(s.threads[t]) && Subbing(pc) == Subbing(s.threads[t])
    requires !pc.PopDelete? && !s.threads[t].PopDelete?
    ensures Inv(At(SwingTail(s, expected, wanted, spurious), t, pc))
  {
    hide LocalOk, PrivateOk, FreedOk, Adding, Subbing, Private, ChainOk, NextOk, RefOk, SwingTail;
    SwingChain(s, expected, wanted, spurious);
    var q := SwingTail(s, expected, wanted, spurious);
    forall u | u in q.threads ensures LocalOk(q, q.threads[u]) && PrivateOk(q, q.threads[u]) {
      assert LocalOk(s, s.threads[u]) && PrivateOk(s, s.threads[u]);
      if s.threads[u].PopDelete? { PendingNotFreed(s, s.threads[u]); }
      LocalGrows(s, q, s.threads[u]);
      PrivateSame(s, q, s.threads[u]);
    }
    assert LocalsOk(q);
    FreedTail(s, q);
    assert Adders(q) == Adders(s) && Subbers(q) == Subbers(s);
    LocalGrows(s, q, pc);
    PrivateSame(s, q, pc);
    MoveKeeps(q, t, pc);
  }

  lemma FreedTail<T>(s: State<T>, r: State<T>)
    requires FreedOk(s) && r == s.(tail := r.tail, tailPos := r.tailPos)
    ensures FreedOk(r)
  {
  }

  // ---------------------------------------------------------------- push

  /** The allocation of a node. */
  lemma AllocKeeps<T>(s: State<T>, t: nat, item: T)
    requires Inv(s) && t in s.threads && s.threads[t].PushFull?
    ensures Inv(At(s.(heap := s.heap[s.nextId := Node(item, None)], nextId := s.nextId + 1), t, PushLoadTail(s.nextId)))
  {
    hide LocalOk, PrivateOk, FreedOk, CountOk, ChainOk, Private;
    var r := At(s.(heap := s.heap[s.nextId := Node(item, None)], nextId := s.nextId + 1), t, PushLoadTail(s.nextId));
    AllocChain(s, t, item);
    forall u | u in s.threads && u != t
      ensures PrivateOk(r, s.threads[u]) && Apart(r.threads[t], s.threads[u]) && Apart(s.threads[u], r.threads[t])
    {
      assert PrivateOk(s, s.threads[u]);
      AllocPrivate(s, r, s.threads[u]);
    }
    AllocOwn(s, r);
    LocalsGrow(s, r, t);
    ApartMoves(s, r, t);
    ThreadFacts(s, t);
    FreedSame(s, r, t);
    CountBound(s);
    CountKeeps(s, r, t, 0);
  }

  lemma AllocChain<T>(s: State<T>, t: nat, item: T)
    requires ChainOk(s) && FifoOk(s) && t in s.threads
    ensures var r := At(s.(heap := s.heap[s.nextId := Node(item, None)], nextId := s.nextId + 1), t,
                        PushLoadTail(s.nextId));
            ChainOk(r) && FifoOk(r)
    ensures s.nextId !in s.heap && s.nextId !in s.chain
  {
  }

  lemma AllocPrivate<T>(s: State<T>, r: State<T>, pc: Pc<T>)
    requires PrivateOk(s, pc) && s.nextId !in s.heap && r.chain == s.chain
    requires exists item :: r.heap == s.heap[s.nextId := Node(item, None)]
    ensures PrivateOk(r, pc) && (Private(pc).Some? ==> Private(pc).value != s.nextId)
    ensures Apart(PushLoadTail(s.nextId), pc) && Apart(pc, PushLoadTail(s.nextId))
  {
  }

  lemma AllocOwn<T>(s: State<T>, r: State<T>)
    requires s.nextId !in s.chain && r.chain == s.chain
    requires exists item :: r.heap == s.heap[s.nextId := Node(item, None)]
    ensures PrivateOk(r, PushLoadTail(s.nextId)) && LocalOk(r, PushLoadTail(s.nextId))
  {
  }

  function Linked<T>(s: State<T>, t: nat, node: nat, oldTail: Ref): State<T>
    requires oldTail.node in s.heap && node in s.heap
  {
    At(s.(heap := s.heap[oldTail.node := s.heap[oldTail.node].(next := Some(node))],
          chain := s.chain + [node], linked := s.linked + [s.heap[node].data]), t, PushSwing(node, oldTail))
  }

  /** Linking a node behind the last one of a chain. */
  lemma LinkedNodes<T>(heap: map<nat, Node<T>>, chain: seq<nat>, node: nat)
    requires chain != [] && Distinct(chain) && Threaded(heap, chain)
    requires node in heap && heap[node].next.None? && node !in chain
    ensures var last := chain[|chain| - 1];
            && last in heap && Distinct(chain + [node])
            && Threaded(heap[last := heap[last].(next := Some(node))], chain + [node])
  {
    var n, r := |chain| - 1, chain + [node];
    var last := chain[n];
    assert last in heap;
    var after := heap[last := heap[last].(next := Some(node))];
    forall i, j | 0 <= i < j < |r| ensures r[i] != r[j] {
      if j == |chain| { assert chain[i] in chain; }
    }
    forall i | 0 <= i < |r| ensures r[i] in after && after[r[i]].next == Link(r, i) {
      if i < n { assert chain[i] != last && chain[i] in heap && heap[chain[i]].next == Link(chain, i); }
    }
  }

  lemma HeldAt<T>(heap: map<nat, Node<T>>, chain: seq<nat>, linked: seq<T>, i: nat)
    requires Holding(heap, chain, linked) && i < |linked|
    ensures |chain| == |linked| + 1 && chain[i + 1] in heap && heap[chain[i + 1]].data == linked[i]
  {
    assert Holds(heap, chain[i + 1], linked[i]);
  }

  lemma LinkedValues<T>(heap: map<nat, Node<T>>, chain: seq<nat>, linked: seq<T>, node: nat)
    requires |chain| == |linked| + 1 && Holding(heap, chain, linked) && node in heap && chain[|chain| - 1] in heap
    ensures var last := chain[|chain| - 1];
            Holding(heap[last := heap[last].(next := Some(node))], chain + [node], linked + [heap[node].data])
  {
    var last, r, values := chain[|chain| - 1], chain + [node], linked + [heap[node].data];
    var after := heap[last := heap[last].(next := Some(node))];
    forall i | 0 <= i < |values| ensures Holds(after, r[i + 1], values[i]) {
      if i < |linked| { HeldAt(heap, chain, linked, i); }
    }
  }

  lemma LinkChain<T>(s: State<T>, t: nat, node: nat, oldTail: Ref)
    requires ChainOk(s) && FifoOk(s) && RefOk(s, oldTail) && oldTail.pos <= s.tailPos
    requires node in s.heap && s.heap[node].next.None? && node !in s.chain && NextOf(s, oldTail.node).None?
    ensures oldTail.node in s.heap && oldTail.pos == s.tailPos == |s.chain| - 1
    ensures ChainOk(Linked(s, t, node, oldTail)) && FifoOk(Linked(s, t, node, oldTail))
  {
    LoadNext(s, oldTail);
    hide Distinct, Threaded, Holding, NextOf;
    LinkedNodes(s.heap, s.chain, node);
    LinkedValues(s.heap, s.chain, s.linked, node);
  }

  /** The compare-and-swap that links a node: the moment a push takes effect. */
  lemma LinkKeeps<T>(s: State<T>, t: nat, node: nat, oldTail: Ref)
    requires Inv(s) && t in s.threads && s.threads[t] == PushLink(node, oldTail) && NextOf(s, oldTail.node).None?
    ensures oldTail.node in s.heap && node in s.heap && Inv(Linked(s, t, node, oldTail))
  {
    hide FreedOk, CountOk, ChainOk, Adders, Subbers;
    ThreadFacts(s, t);
    LinkChain(s, t, node, oldTail);
    var r := Linked(s, t, node, oldTail);
    forall u | u in s.threads && u != t
      ensures PrivateOk(r, s.threads[u]) && Apart(r.threads[t], s.threads[u]) && Apart(s.threads[u], r.threads[t])
    {
      assert PrivateOk(s, s.threads[u]) && Apart(s.threads[t], s.threads[u]);
      LinkPrivate(s, r, node, oldTail, s.threads[u]);
    }
    LinkLocal(s, r, node, oldTail);
    LinkOthers(s, r, t);
    ApartMoves(s, r, t);
    FreedSame(s, r, t);
    CountBound(s);
    CountKeeps(s, r, t, 0);
  }

  lemma LinkPrivate<T>(s: State<T>, r: State<T>, node: nat, oldTail: Ref, pc: Pc<T>)
    requires PrivateOk(s, pc) && RefOk(s, oldTail) && Private(pc) != Some(node)
    requires r.chain == s.chain + [node] && r.heap.Keys == s.heap.Keys
    requires forall n <- s.heap :: n != oldTail.node ==> r.heap[n] == s.heap[n]
    ensures PrivateOk(r, pc)
  {
  }

  lemma LinkLocal<T>(s: State<T>, r: State<T>, node: nat, oldTail: Ref)
    requires RefOk(s, oldTail) && oldTail.pos == s.tailPos == |s.chain| - 1
    requires r.chain == s.chain + [node] && r.tailPos == s.tailPos
    ensures LocalOk(r, PushSwing(node, oldTail)) && PrivateOk(r, PushSwing(node, oldTail))
  {
  }

  lemma LinkOthers<T>(s: State<T>, r: State<T>, t: nat)
    requires LocalsOk(s) && Moves(s, r, t) && LocalOk(r, r.threads[t]) && PrivateOk(r, r.threads[t])
    requires s.chain <= r.chain && s.linked <= r.linked && s.taken == r.taken
    requires s.tailPos == r.tailPos && s.freed == r.freed
    requires forall u <- s.threads :: u != t ==> PrivateOk(r, s.threads[u])
    ensures LocalsOk(r)
  {
    hide LocalOk, PrivateOk;
    LocalsGrow(s, r, t);
  }

  /** The update of count_ that ends an operation: `up` for push. */
  function Counted<T>(s: State<T>, t: nat, up: bool): State<T> {
    At(s.(count := if up then (s.count + 1) % UINT64_RANGE else (s.count + UINT64_RANGE - 1) % UINT64_RANGE), t, Idle)
  }

  lemma CounterKeeps<T>(s: State<T>, t: nat, up: bool)
    requires Inv(s) && t in s.threads && (if up then s.threads[t].PushCount? else s.threads[t].PopCount?)
    ensures Inv(Counted(s, t, up))
  {
    hide LocalOk, PrivateOk, FreedOk, ChainOk, Adders, Subbers;
    var r := Counted(s, t, up);
    CounterChain(s, t, up);
    ThreadFacts(s, t);
    forall u | u in s.threads && u != t
      ensures PrivateOk(r, s.threads[u]) && Apart(r.threads[t], s.threads[u]) && Apart(s.threads[u], r.threads[t])
    {
      PrivateSame(s, r, s.threads[u]);
    }
    IdleOk(r);
    LocalsGrow(s, r, t);
    ApartMoves(s, r, t);
    FreedSame(s, r, t);
    CountBound(s);
    ModStep(s.count, if up then 1 else -1);
    CountKeeps(s, r, t, if up then 1 else -1);
  }

  lemma CounterChain<T>(s: State<T>, t: nat, up: bool)
    requires ChainOk(s) && FifoOk(s)
    ensures ChainOk(Counted(s, t, up)) && FifoOk(Counted(s, t, up))
  {
  }

  lemma IdleOk<T>(s: State<T>)
    ensures LocalOk(s, Idle) && PrivateOk(s, Idle)
  {
  }

  lemma ModStep(c: nat, d: int)
    requires c < UINT64_RANGE && (d == 1 || d == -1)
    ensures ((c + UINT64_RANGE + d) % UINT64_RANGE - c - d) % UINT64_RANGE == 0
    ensures d == 1 ==> (c + 1) % UINT64_RANGE == (c + UINT64_RANGE + d) % UINT64_RANGE
  {
    if d == 1 {
      if c + 1 == UINT64_RANGE {
        assert (c + 1) % UINT64_RANGE == 0 && (c + UINT64_RANGE + 1) % UINT64_RANGE == 0;
        assert (0 - UINT64_RANGE) % UINT64_RANGE == 0;
      } else {
        assert (c + UINT64_RANGE + 1) % UINT64_RANGE == c + 1;
      }
    } else if c == 0 {
      assert (UINT64_RANGE - 1) % UINT64_RANGE == UINT64_RANGE - 1;
    } else {
      assert (c + UINT64_RANGE - 1) % UINT64_RANGE == c - 1;
    }
  }

  // ---------------------------------------------------------------- pop

  function Taken<T>(s: State<T>, t: nat, oldHead: Ref, nextNode: nat, item: T): State<T> {
    At(s.(head := nextNode, taken := s.taken + [item]), t, PopDelete(oldHead, item))
  }

  lemma TakeChain<T>(s: State<T>, t: nat, oldHead: Ref, nextNode: nat, item: T)
    requires ChainOk(s) && FifoOk(s) && LocalOk(s, PopSwing(oldHead, nextNode, item)) && s.head == oldHead.node
    ensures oldHead.pos == |s.taken|
    ensures ChainOk(Taken(s, t, oldHead, nextNode, item)) && FifoOk(Taken(s, t, oldHead, nextNode, item))
  {
    TakePlace(s, oldHead);
    hide Distinct, Threaded, Holding;
  }

  lemma TakePlace<T>(s: State<T>, oldHead: Ref)
    requires ChainOk(s) && RefOk(s, oldHead) && s.head == oldHead.node
    ensures oldHead.pos == |s.taken|
  {
    hide Threaded, Holding;
    assert s.chain[oldHead.pos] == s.chain[|s.taken|];
  }

  lemma TakeFreed<T>(s: State<T>, t: nat, oldHead: Ref, nextNode: nat, item: T)
    requires FreedOk(s) && |s.taken| < |s.chain| && s.chain[|s.taken|] == oldHead.node && t in s.threads
    requires !s.threads[t].PopDelete?
    ensures FreedOk(Taken(s, t, oldHead, nextNode, item))
  {
    var r := Taken(s, t, oldHead, nextNode, item);
    forall n | n in r.freed ensures exists i :: 0 <= i < |r.taken| && i < |r.chain| && r.chain[i] == n {
      var i :| 0 <= i < |s.taken| && i < |s.chain| && s.chain[i] == n;
      assert r.chain[i] == n;
    }
    forall i | 0 <= i < |r.taken| && i < |r.chain| && r.chain[i] !in r.freed
      ensures exists u :: u in r.threads && r.threads[u].PopDelete? && r.threads[u].oldHead.node == r.chain[i]
    {
      if i == |s.taken| {
        assert t in r.threads && r.threads[t].PopDelete? && r.threads[t].oldHead.node == r.chain[i];
      } else {
        assert r.chain[i] == s.chain[i];
        var u :| u in s.threads && s.threads[u].PopDelete? && s.threads[u].oldHead.node == s.chain[i];
        assert r.threads[u] == s.threads[u];
      }
    }
  }

  /** The node at head_ is not freed, and no thread is about to free it. */
  lemma HeadIsLive<T>(s: State<T>, t: nat)
    requires ChainOk(s) && FreedOk(s) && LocalsOk(s)
    ensures s.head !in s.freed
    ensures t in s.threads && s.threads[t].PopDelete? ==> s.threads[t].oldHead.node != s.head
  {
    assert forall i :: 0 <= i < |s.taken| && i < |s.chain| ==> s.chain[i] != s.chain[|s.taken|];
    if t in s.threads && s.threads[t].PopDelete? { PendingNotFreed(s, s.threads[t]); }
  }

  /** The compare-and-swap on head_ that succeeds: the moment a pop takes effect. */
  lemma TakeKeeps<T>(s: State<T>, t: nat, oldHead: Ref, nextNode: nat, item: T)
    requires Inv(s) && t in s.threads && s.threads[t] == PopSwing(oldHead, nextNode, item) && s.head == oldHead.node
    ensures Inv(Taken(s, t, oldHead, nextNode, item))
  {
    hide PrivateOk, CountOk, ChainOk, FreedOk, Adders, Subbers;
    var r := Taken(s, t, oldHead, nextNode, item);
    ThreadFacts(s, t);
    TakeChain(s, t, oldHead, nextNode, item);
    TakeFreed(s, t, oldHead, nextNode, item);
    HeadIsLive(s, t);
    forall u | u in s.threads && u != t
      ensures PrivateOk(r, s.threads[u]) && Apart(r.threads[t], s.threads[u]) && Apart(s.threads[u], r.threads[t])
    {
      PrivateSame(s, r, s.threads[u]);
      HeadIsLive(s, u);
    }
    NoPrivate(r, PopDelete(oldHead, item));
    assert LocalOk(r, PopDelete(oldHead, item));
    TakeOthers(s, r, t);
    ApartMoves(s, r, t);
    CountBound(s);
    CountKeeps(s, r, t, 0);
  }

  lemma NoPrivate<T>(s: State<T>, pc: Pc<T>)
    requires Private(pc).None?
    ensures PrivateOk(s, pc)
  {
  }

  lemma TakeOthers<T>(s: State<T>, r: State<T>, t: nat)
    requires LocalsOk(s) && Moves(s, r, t) && LocalOk(r, r.threads[t]) && PrivateOk(r, r.threads[t])
    requires s.chain == r.chain && s.linked == r.linked && s.taken <= r.taken
    requires s.tailPos == r.tailPos && s.freed == r.freed
    requires forall u <- s.threads :: u != t ==> PrivateOk(r, s.threads[u])
    ensures LocalsOk(r)
  {
    hide LocalOk, PrivateOk;
    LocalsGrow(s, r, t);
  }

  function Freed<T>(s: State<T>, t: nat, oldHead: Ref, item: T): State<T> {
    At(s.(freed := s.freed + {oldHead.node}), t, PopCount(item))
  }

  lemma FreeFreed<T>(s: State<T>, t: nat, oldHead: Ref, item: T)
    requires FreedOk(s) && RefOk(s, oldHead) && oldHead.pos < |s.taken| && t in s.threads
    requires s.threads[t] == PopDelete(oldHead, item)
    ensures FreedOk(Freed(s, t, oldHead, item))
  {
    var r := Freed(s, t, oldHead, item);
    forall n | n in r.freed ensures exists i :: 0 <= i < |r.taken| && i < |r.chain| && r.chain[i] == n {
      if n in s.freed {
        var i :| 0 <= i < |s.taken| && i < |s.chain| && s.chain[i] == n;
        assert r.chain[i] == n;
      } else {
        assert r.chain[oldHead.pos] == n;
      }
    }
    forall i | 0 <= i < |r.taken| && i < |r.chain| && r.chain[i] !in r.freed
      ensures exists u :: u in r.threads && r.threads[u].PopDelete? && r.threads[u].oldHead.node == r.chain[i]
    {
      assert r.chain[i] == s.chain[i];
      var u :| u in s.threads && s.threads[u].PopDelete? && s.threads[u].oldHead.node == s.chain[i];
      assert u != t;
      assert r.threads[u] == s.threads[u];
    }
  }

  /** delete old_head: the node was linked, head_ and tail_ have passed it, and it has not been deleted before. */
  lemma FreeKeeps<T>(s: State<T>, t: nat, oldHead: Ref, item: T)
    requires Inv(s) && t in s.threads && s.threads[t] == PopDelete(oldHead, item)
    ensures Inv(Freed(s, t, oldHead, item))
    ensures oldHead.node !in s.freed && forall i :: |s.taken| <= i < |s.chain| ==> s.chain[i] != oldHead.node
  {
    hide PrivateOk, CountOk, ChainOk, FreedOk, Adders, Subbers;
    var r := Freed(s, t, oldHead, item);
    ThreadFacts(s, t);
    FreeFreed(s, t, oldHead, item);
    FreeChain(s, t, oldHead, item);
    forall u | u in s.threads && u != t
      ensures PrivateOk(r, s.threads[u]) && Apart(r.threads[t], s.threads[u]) && Apart(s.threads[u], r.threads[t])
    {
      PrivateSame(s, r, s.threads[u]);
    }
    NoPrivate(r, PopCount(item));
    assert LocalOk(r, PopCount(item));
    FreeOthers(s, r, t, oldHead.node);
    ApartMoves(s, r, t);
    CountBound(s);
    CountKeeps(s, r, t, 0);
  }

  lemma FreeChain<T>(s: State<T>, t: nat, oldHead: Ref, item: T)
    requires ChainOk(s) && FifoOk(s) && RefOk(s, oldHead) && oldHead.pos < |s.taken|
    ensures ChainOk(Freed(s, t, oldHead, item)) && FifoOk(Freed(s, t, oldHead, item))
    ensures forall i :: |s.taken| <= i < |s.chain| ==> s.chain[i] != oldHead.node
  {
  }

  lemma FreeOthers<T>(s: State<T>, r: State<T>, t: nat, node: nat)
    requires LocalsOk(s) && AllApart(s) && Moves(s, r, t) && LocalOk(r, r.threads[t]) && PrivateOk(r, r.threads[t])
    requires s.chain == r.chain && s.linked == r.linked && s.taken == r.taken && s.tailPos == r.tailPos
    requires r.freed == s.freed + {node} && s.threads[t].PopDelete? && s.threads[t].oldHead.node == node
    requires forall u <- s.threads :: u != t ==> PrivateOk(r, s.threads[u])
    ensures LocalsOk(r)
  {
    hide LocalOk, PrivateOk;
    assert forall u <- s.threads :: u != t ==> Apart(s.threads[t], s.threads[u]);
    LocalsGrow(s, r, t);
  }

  // ---------------------------------------------------------------- every step, every run

  /** Places in the code where the local variables say nothing about the chain. */
  lemma FreeLocal<T>(s: State<T>, pc: Pc<T>)
    requires pc.Idle? || pc.PushFull? || pc.PushLoadTail? || pc.PushCount? || pc.PopEmpty? || pc.PopLoadHead?
             || pc.PopCount?
    ensures LocalOk(s, pc)
  {
  }

  lemma TailLocal<T>(s: State<T>, node: nat, oldTail: Ref, next: Option<nat>)
    requires RefOk(s, oldTail) && oldTail.pos <= s.tailPos && NextOk(s, oldTail, next)
    ensures LocalOk(s, PushLoadNext(node, oldTail)) && LocalOk(s, PushCheckTail(node, oldTail, next))
    ensures LocalOk(s, PushLink(node, oldTail))
    ensures next.Some? ==>
              LocalOk(s, PushHelp(node, oldTail, next.value)) && LocalOk(s, PopHelp(oldTail, oldTail, next.value))
  {
  }

  lemma PushKeeps<T>(s: State<T>, t: nat, spurious: bool)
    requires Inv(s) && t in s.threads && IsPush(s.threads[t])
    ensures Inv(StepPush(s, t, s.threads[t], spurious))
  {
    hide Inv, LocalOk, PrivateOk, NextOf, NextOk;
    var pc := s.threads[t];
    ThreadFacts(s, t);
    match pc {
      case PushFull(item) =>
        if s.maxCount > 0 && s.maxCount <= s.count {
          FreeLocal(s, Idle);
          PushMoves(s, t, Idle);
        } else {
          AllocKeeps(s, t, item);
        }
      case PushLoadTail(node) =>
        NullNext(s, Ref(s.tail, s.tailPos));
        TailLocal(s, node, Ref(s.tail, s.tailPos), None);
        PushMoves(s, t, PushLoadNext(node, Ref(s.tail, s.tailPos)));
      case PushLoadNext(node, oldTail) =>
        PushLocal(s, pc);
        InvChain(s);
        LoadNext(s, oldTail);
        TailLocal(s, node, oldTail, NextOf(s, oldTail.node));
        PushMoves(s, t, PushCheckTail(node, oldTail, NextOf(s, oldTail.node)));
      case PushCheckTail(node, oldTail, next) =>
        PushLocal(s, pc);
        FreeLocal(s, PushLoadTail(node));
        TailLocal(s, node, oldTail, next);
        PushMoves(s, t, if oldTail.node != s.tail then PushLoadTail(node)
                        else if next.Some? then PushHelp(node, oldTail, next.value)
                        else PushLink(node, oldTail));
      case PushHelp(node, oldTail, nextNode) =>
        PushLocal(s, pc);
        PushPcOk(s, t, PushLoadTail(node));
        SwingKeeps(s, t, oldTail, nextNode, spurious, PushLoadTail(node));
      case PushLink(node, oldTail) =>
        if NextOf(s, oldTail.node).None? && !spurious {
          LinkKeeps(s, t, node, oldTail);
        } else {
          LinkTarget(s, t, node, oldTail);
          FreeLocal(s, PushLoadTail(node));
          PushMoves(s, t, PushLoadTail(node));
        }
      case PushSwing(node, oldTail) =>
        PushLocal(s, pc);
        PushPcOk(s, t, PushCount);
        SwingKeeps(s, t, oldTail, node, spurious, PushCount);
      case PushCount => CounterKeeps(s, t, true);
    }
  }

  lemma NullNext<T>(s: State<T>, ref: Ref)
    ensures NextOk(s, ref, None)
  {
  }

  lemma LinkTarget<T>(s: State<T>, t: nat, node: nat, oldTail: Ref)
    requires Inv(s) && t in s.threads && s.threads[t] == PushLink(node, oldTail)
    ensures oldTail.node in s.heap && node in s.heap
  {
    ThreadFacts(s, t);
  }

  /** What the reference in a push's local variables is good for. */
  lemma PushLocal<T>(s: State<T>, pc: Pc<T>)
    requires LocalOk(s, pc)
    requires pc.PushLoadNext? || pc.PushCheckTail? || pc.PushHelp? || pc.PushSwing?
    ensures RefOk(s, pc.oldTail) && pc.oldTail.pos <= s.tailPos
    ensures pc.PushCheckTail? ==> NextOk(s, pc.oldTail, pc.next)
    ensures pc.PushHelp? ==> NextOk(s, pc.oldTail, Some(pc.nextNode))
    ensures pc.PushSwing? ==> NextOk(s, pc.oldTail, Some(pc.node))
  {
  }

  lemma InvChain<T>(s: State<T>)
    requires Inv(s)
    ensures ChainOk(s)
  {
  }

  lemma PushPcOk<T>(s: State<T>, t: nat, pc: Pc<T>)
    requires t in s.threads && PrivateOk(s, s.threads[t]) && (Private(pc) == Private(s.threads[t]) || Private(pc).None?)
    requires pc.PushLoadTail? || pc.PushCount?
    ensures LocalOk(s, pc) && PrivateOk(s, pc)
  {
  }

  /** A step of push that only changes its local variables. */
  lemma PushMoves<T>(s: State<T>, t: nat, pc: Pc<T>)
    requires Inv(s) && t in s.threads && PrivateOk(s, s.threads[t])
    requires !Adding(pc) && !Subbing(pc) && !Adding(s.threads[t]) && !Subbing(s.threads[t])
    requires Private(pc) == Private(s.threads[t]) || Private(pc).None?
    requires LocalOk(s, pc)
    ensures Inv(At(s, t, pc))
  {
    hide Inv, LocalOk;
    MoveKeeps(s, t, pc);
  }

  lemma PopMoves<T>(s: State<T>, t: nat, pc: Pc<T>)
    requires Inv(s) && t in s.threads
    requires !Adding(pc) && !Subbing(pc) && !Adding(s.threads[t]) && !Subbing(s.threads[t])
    requires Private(pc).None? && LocalOk(s, pc)
    ensures Inv(At(s, t, pc))
  {
    hide Inv, LocalOk;
    NoPrivate(s, pc);
    MoveKeeps(s, t, pc);
  }

  lemma LoadNextKeeps<T>(s: State<T>, t: nat, oldHead: Ref, oldTail: Ref)
    requires Inv(s) && t in s.threads && s.threads[t] == PopLoadNext(oldHead, oldTail)
    ensures Inv(StepPop(s, t, s.threads[t], false))
  {
    hide Inv, PrivateOk, NextOf, Distinct, Threaded, Holding;
    ThreadFacts(s, t);
    InvChain(s);
    LoadNext(s, oldHead);
    PopMoves(s, t, PopCheckHead(oldHead, oldTail, NextOf(s, oldHead.node)));
  }

  lemma LoadHeadKeeps<T>(s: State<T>, t: nat)
    requires Inv(s) && t in s.threads
    requires s.threads[t].PopLoadHead? || s.threads[t].PopLoadTail? || s.threads[t].PopLoadNext?
    ensures Inv(StepPop(s, t, s.threads[t], false))
  {
    hide Inv, PrivateOk, NextOf;
    var pc := s.threads[t];
    if pc.PopLoadNext? {
      LoadNextKeeps(s, t, pc.oldHead, pc.oldTail);
    } else {
      ThreadFacts(s, t);
      hide ChainOk;
      if pc.PopLoadHead? {
        PopMoves(s, t, PopLoadTail(Ref(s.head, |s.taken|)));
      } else {
        PopMoves(s, t, PopLoadNext(pc.oldHead, Ref(s.tail, s.tailPos)));
      }
    }
  }

  lemma SameNodeSamePlace<T>(s: State<T>, a: Ref, b: Ref)
    requires ChainOk(s) && RefOk(s, a) && RefOk(s, b)
    ensures a.node == b.node <==> a.pos == b.pos
  {
  }

  lemma CheckHeadKeeps<T>(s: State<T>, t: nat, oldHead: Ref, oldTail: Ref, next: Option<nat>, spurious: bool)
    requires Inv(s) && t in s.threads && s.threads[t] == PopCheckHead(oldHead, oldTail, next)
    ensures Inv(StepPop(s, t, s.threads[t], spurious))
  {
    hide Inv, PrivateOk, ChainOk, LocalOk;
    ThreadFacts(s, t);
    InvChain(s);
    CheckHeadLocal(s, oldHead, oldTail, next);
    SameNodeSamePlace(s, oldHead, oldTail);
    FreeLocal(s, PopLoadHead);
    FreeLocal(s, Idle);
    if oldHead.node == oldTail.node && next.Some? { HelpLocal(s, oldHead, oldTail, next.value); }
    if oldHead.node != oldTail.node { ReadLocal(s, oldHead, next); }
    PopMoves(s, t, if oldHead.node != s.head then PopLoadHead
                   else if oldHead.node == oldTail.node && next.None? then Idle
                   else if oldHead.node == oldTail.node then PopHelp(oldHead, oldTail, next.value)
                   else PopRead(oldHead, next));
  }

  lemma CheckHeadLocal<T>(s: State<T>, oldHead: Ref, oldTail: Ref, next: Option<nat>)
    requires LocalOk(s, PopCheckHead(oldHead, oldTail, next))
    ensures RefOk(s, oldHead) && RefOk(s, oldTail)
    ensures oldHead.pos <= oldTail.pos <= s.tailPos && NextOk(s, oldHead, next)
    ensures next.None? ==> oldHead.pos == oldTail.pos
  {
  }

  lemma HelpLocal<T>(s: State<T>, oldHead: Ref, oldTail: Ref, nextNode: nat)
    requires RefOk(s, oldTail) && oldTail.pos == oldHead.pos
    requires oldTail.pos <= s.tailPos && NextOk(s, oldHead, Some(nextNode))
    ensures LocalOk(s, PopHelp(oldHead, oldTail, nextNode))
  {
  }

  lemma ReadLocal<T>(s: State<T>, oldHead: Ref, next: Option<nat>)
    requires RefOk(s, oldHead) && oldHead.pos < s.tailPos && next.Some? && NextOk(s, oldHead, next)
    ensures LocalOk(s, PopRead(oldHead, next))
  {
  }

  /** next_node is not null where its item is read, and the item is the value that was linked there. */
  lemma ReadValue<T>(s: State<T>, t: nat, oldHead: Ref, next: Option<nat>)
    requires Inv(s) && t in s.threads && s.threads[t] == PopRead(oldHead, next)
    ensures next.Some? && next.value in s.heap && oldHead.pos < |s.linked|
    ensures LocalOk(s, PopSwing(oldHead, next.value, s.heap[next.value].data))
  {
    hide Inv, PrivateOk, Distinct, Threaded, Holding;
    ThreadFacts(s, t);
    InvChain(s);
    HeldAt(s.heap, s.chain, s.linked, oldHead.pos);
  }

  lemma ReadKeeps<T>(s: State<T>, t: nat, oldHead: Ref, next: Option<nat>, spurious: bool)
    requires Inv(s) && t in s.threads && s.threads[t] == PopRead(oldHead, next)
    ensures next.Some? && next.value in s.heap
    ensures Inv(StepPop(s, t, s.threads[t], spurious))
  {
    ReadValue(s, t, oldHead, next);
    var pc := PopSwing(oldHead, next.value, s.heap[next.value].data);
    assert StepPop(s, t, s.threads[t], spurious) == At(s, t, pc) by { hide Inv, LocalOk, At; }
    hide *;
    ReadMoves(s, t, pc);
  }

  lemma ReadMoves<T>(s: State<T>, t: nat, pc: Pc<T>)
    requires Inv(s) && t in s.threads && s.threads[t].PopRead? && pc.PopSwing? && LocalOk(s, pc)
    ensures Inv(At(s, t, pc))
  {
    hide Inv, LocalOk, At;
    PopMoves(s, t, pc);
  }

  lemma PopHelpKeeps<T>(s: State<T>, t: nat, spurious: bool)
    requires Inv(s) && t in s.threads && s.threads[t].PopHelp?
    ensures Inv(StepPop(s, t, s.threads[t], spurious))
  {
    hide Inv, PrivateOk;
    ThreadFacts(s, t);
    var pc := s.threads[t];
    NoPrivate(s, PopLoadHead);
    SwingKeeps(s, t, pc.oldTail, pc.nextNode, spurious, PopLoadHead);
  }

  lemma PopKeeps<T>(s: State<T>, t: nat, spurious: bool)
    requires Inv(s) && t in s.threads && !IsPush(s.threads[t])
    ensures Inv(StepPop(s, t, s.threads[t], spurious))
  {
    hide Inv, LocalOk, NextOf;
    var pc := s.threads[t];
    match pc {
      case PopEmpty =>
        FreeLocal(s, Idle);
        FreeLocal(s, PopLoadHead);
        PopMoves(s, t, if s.count == 0 then Idle else PopLoadHead);
      case PopLoadHead | PopLoadTail(_) | PopLoadNext(_, _) => LoadHeadKeeps(s, t);
      case PopCheckHead(oldHead, oldTail, next) => CheckHeadKeeps(s, t, oldHead, oldTail, next, spurious);
      case PopHelp(_, _, _) => PopHelpKeeps(s, t, spurious);
      case PopRead(oldHead, next) => ReadKeeps(s, t, oldHead, next, spurious);
      case PopSwing(oldHead, nextNode, item) =>
        FreeLocal(s, PopLoadHead);
        if s.head == oldHead.node && !spurious { TakeKeeps(s, t, oldHead, nextNode, item); }
        else { PopMoves(s, t, PopLoadHead); }
      case PopDelete(oldHead, item) => FreeKeeps(s, t, oldHead, item);
      case PopCount(_) => CounterKeeps(s, t, false);
      case Idle =>
    }
  }

  lemma StepKeeps<T>(s: State<T>, t: nat, m: Move<T>)
    requires Inv(s)
    ensures Inv(Step(s, t, m))
  {
    hide Inv, StepPush, StepPop;
    if t in s.threads {
      match m
      case CallPush(item) => if s.threads[t].Idle? { CallKeeps(s, t, PushFull(item)); }
      case CallPop => if s.threads[t].Idle? { CallKeeps(s, t, PopEmpty); }
      case Go(spurious) => if IsPush(s.threads[t]) { PushKeeps(s, t, spurious); } else { PopKeeps(s, t, spurious); }
    }
  }

  lemma CallKeeps<T>(s: State<T>, t: nat, pc: Pc<T>)
    requires Inv(s) && t in s.threads && s.threads[t].Idle? && (pc.PushFull? || pc.PopEmpty?)
    ensures Inv(At(s, t, pc))
  {
    hide Inv;
    PopMoves(s, t, pc);
  }

  /** In every interleaving of any number of threads the queue stays sound. */
  lemma {:induction false} RunKeeps<T>(s: State<T>, moves: seq<(nat, Move<T>)>)
    requires Inv(s)
    ensures Inv(Run(s, moves))
    decreases |moves|
  {
    hide Inv, Step;
    if moves != [] {
      var last := moves[|moves| - 1];
      RunKeeps(s, moves[..|moves| - 1]);
      StepKeeps(Run(s, moves[..|moves| - 1]), last.0, last.1);
    }
  }

  // ---------------------------------------------------------------- what the invariant says

  /** The queue's contents: what has been linked and not taken. */
  function Contents<T>(s: State<T>): seq<T> {
    if |s.taken| <= |s.linked| then s.linked[|s.taken|..] else []
  }

  /** Whether the thread's next step is the compare-and-swap that links its node, and succeeds. */
  predicate Links<T>(s: State<T>, t: nat, m: Move<T>) {
    && t in s.threads && m == Go(false) && s.threads[t].PushLink? && NextOf(s, s.threads[t].oldTail.node).None?
  }

  /** Whether the thread's next step is the compare-and-swap that takes the front, and succeeds. */
  predicate Takes<T>(s: State<T>, t: nat, m: Move<T>) {
    && t in s.threads && m == Go(false) && s.threads[t].PopSwing? && s.head == s.threads[t].oldHead.node
  }

  /** The contents grow by the value in the node of thread `t`. */
  predicate Appends<T(==)>(s: State<T>, r: State<T>, t: nat) {
    && t in s.threads && s.threads[t].PushLink? && s.threads[t].node in s.heap
    && Contents(r) == Contents(s) + [s.heap[s.threads[t].node].data]
  }

  /** The front leaves the contents, and thread `t` has it. */
  predicate HandsOut<T(==)>(s: State<T>, r: State<T>, t: nat) {
    && Contents(s) != [] && Contents(r) == Contents(s)[1..]
    && t in r.threads && r.threads[t].PopDelete? && r.threads[t].item == Contents(s)[0]
  }

  /** Each step is a step of a sequential queue: a linking step appends the pushed value, a taking step removes
      the front and hands that value to its thread, and no other step changes the contents. */
  lemma StepRefines<T>(s: State<T>, t: nat, m: Move<T>)
    requires Inv(s)
    ensures var r := Step(s, t, m);
            && Inv(r)
            && (Links(s, t, m) ==> Appends(s, r, t))
            && (Takes(s, t, m) ==> HandsOut(s, r, t))
            && (!Links(s, t, m) && !Takes(s, t, m) ==> Contents(r) == Contents(s))
  {
    hide ChainOk, FreedOk, CountOk, LocalsOk, AllApart, LocalOk, PrivateOk;
    StepKeeps(s, t, m);
    var r := Step(s, t, m);
    if Links(s, t, m) {
      LinkTarget(s, t, s.threads[t].node, s.threads[t].oldTail);
      DropSnoc(s.linked, |s.taken|, s.heap[s.threads[t].node].data);
    } else if Takes(s, t, m) {
      TakesFront(s, t);
      DropMore(s.linked, |s.taken|);
    } else {
      OthersKeepHistory(s, t, m);
    }
  }

  lemma DropSnoc<T>(q: seq<T>, n: nat, x: T)
    requires n <= |q|
    ensures (q + [x])[n..] == q[n..] + [x]
  {
  }

  lemma DropMore<T>(q: seq<T>, n: nat)
    requires n < |q|
    ensures q[n..] != [] && q[n..][0] == q[n] && q[n..][1..] == q[n + 1..]
  {
  }

  lemma TakesFront<T>(s: State<T>, t: nat)
    requires Inv(s) && t in s.threads && s.threads[t].PopSwing? && s.head == s.threads[t].oldHead.node
    ensures |s.taken| < |s.linked| && s.threads[t].item == s.linked[|s.taken|]
  {
    hide FreedOk, CountOk, PrivateOk;
    var pc := s.threads[t];
    ThreadFacts(s, t);
    SameNodeSamePlace(s, pc.oldHead, Ref(s.head, |s.taken|));
  }

  /** A swing of tail_ changes neither threads nor nodes. */
  lemma SwingsOnly<T>(s: State<T>, spurious: bool)
    ensures forall r, n :: var u := SwingTail(s, r, n, spurious);
                           u.threads == s.threads && u.heap == s.heap && u.chain == s.chain
  {
  }

  lemma PushKeepsHistory<T>(s: State<T>, t: nat, pc: Pc<T>, spurious: bool)
    requires pc.PushLink? ==> spurious || NextOf(s, pc.oldTail.node).Some?
    ensures var r := StepPush(s, t, pc, spurious); r.linked == s.linked && r.taken == s.taken
  {
    hide NextOf;
  }

  lemma PopKeepsHistory<T>(s: State<T>, t: nat, pc: Pc<T>, spurious: bool)
    requires pc.PopSwing? ==> spurious || s.head != pc.oldHead.node
    ensures var r := StepPop(s, t, pc, spurious); r.linked == s.linked && r.taken == s.taken
  {
    hide NextOf;
  }

  lemma OthersKeepHistory<T>(s: State<T>, t: nat, m: Move<T>)
    requires !Links(s, t, m) && !Takes(s, t, m)
    ensures Step(s, t, m).linked == s.linked && Step(s, t, m).taken == s.taken
  {
    hide StepPush, StepPop;
    if t in s.threads && m.Go? {
      if IsPush(s.threads[t]) {
        PushKeepsHistory(s, t, s.threads[t], m.spurious);
      } else {
        PopKeepsHistory(s, t, s.threads[t], m.spurious);
      }
    }
  }

  lemma PushKeepsData<T>(s: State<T>, t: nat, pc: Pc<T>, spurious: bool, n: nat)
    requires n in s.heap && n < s.nextId
    ensures n in StepPush(s, t, pc, spurious).heap && StepPush(s, t, pc, spurious).heap[n].data == s.heap[n].data
  {
    hide NextOf;
  }

  lemma PopKeepsData<T>(s: State<T>, t: nat, pc: Pc<T>, spurious: bool)
    ensures StepPop(s, t, pc, spurious).heap == s.heap
  {
    hide NextOf;
  }

  /** The value in a node never changes: what a push links is what it was called with. */
  lemma StepKeepsData<T>(s: State<T>, t: nat, m: Move<T>, n: nat)
    requires ChainOk(s) && n in s.heap
    ensures n in Step(s, t, m).heap && Step(s, t, m).heap[n].data == s.heap[n].data
  {
    assert n < s.nextId;
    hide ChainOk, StepPush, StepPop;
    if t in s.threads && m.Go? {
      PushKeepsData(s, t, s.threads[t], m.spurious, n);
      PopKeepsData(s, t, s.threads[t], m.spurious);
    }
  }

  lemma {:induction false} RunFrom<T>(sentry: T, maxCount: nat, threads: set<nat>, moves: seq<(nat, Move<T>)>)
    ensures Inv(Run(Init(sentry, maxCount, threads), moves))
  {
    hide Inv, Run;
    InitInv(sentry, maxCount, threads);
    RunKeeps(Init(sentry, maxCount, threads), moves);
  }

  /** The argument of the push that thread `t` began last. */
  function Argument<T>(s: State<T>, moves: seq<(nat, Move<T>)>, t: nat): Option<T>
    decreases |moves|
  {
    if moves == [] then None
    else
      var before, last := moves[..|moves| - 1], moves[|moves| - 1];
      var r := Run(s, before);
      if last.0 == t && last.1.CallPush? && t in r.threads && r.threads[t].Idle? then Some(last.1.item)
      else Argument(s, before, t)
  }

  /** A push that has not linked its node yet has its argument, or has it in its node. */
  ghost predicate Carries<T>(s: State<T>, pc: Pc<T>, x: Option<T>) {
    && (pc.PushFull? ==> x == Some(pc.item))
    && (Private(pc).Some? ==> x.Some? && Holds(s.heap, Private(pc).value, x.value))
  }

  lemma PushCarries<T>(s: State<T>, t: nat, spurious: bool, x: Option<T>)
    requires t in s.threads && IsPush(s.threads[t]) && Carries(s, s.threads[t], x)
    ensures var r := StepPush(s, t, s.threads[t], spurious); t in r.threads && Carries(r, r.threads[t], x)
  {
    hide NextOf;
  }

  lemma PopCarries<T>(s: State<T>, t: nat, spurious: bool, x: Option<T>)
    requires t in s.threads && !IsPush(s.threads[t])
    ensures var r := StepPop(s, t, s.threads[t], spurious); t in r.threads && Carries(r, r.threads[t], x)
  {
    hide NextOf, Carries, SwingTail;
    SwingsOnly(s, spurious);
    var r := StepPop(s, t, s.threads[t], spurious);
    CarriesNothing(r, r.threads[t], x);
  }

  lemma CarriesNothing<T>(s: State<T>, pc: Pc<T>, x: Option<T>)
    requires !IsPush(pc) || pc.PushSwing? || pc.PushCount?
    ensures Carries(s, pc, x)
  {
  }

  lemma StepMoves<T>(s: State<T>, t: nat, m: Move<T>)
    requires Inv(s)
    ensures t in s.threads ==> Moves(s, Step(s, t, m), t)
    ensures t !in s.threads ==> Step(s, t, m) == s
  {
    hide ChainOk, LocalsOk, AllApart, FreedOk, CountOk, StepPush, StepPop;
    if t in s.threads {
      var p := s.threads[t];
      if p.PushLink? { LinkTarget(s, t, p.node, p.oldTail); }
      StepPrivate(s, t, m);
    }
  }

  lemma {:induction false} PushCarriesArgument<T>(sentry: T, maxCount: nat, threads: set<nat>,
                                                  moves: seq<(nat, Move<T>)>, t: nat)
    requires t in threads
    ensures var s0 := Init(sentry, maxCount, threads);
            var s := Run(s0, moves);
            t in s.threads && Carries(s, s.threads[t], Argument(s0, moves, t))
    decreases |moves|
  {
    hide Inv, Holds, StepPush, StepPop;
    if moves != [] {
      var s0 := Init(sentry, maxCount, threads);
      var before, last := moves[..|moves| - 1], moves[|moves| - 1];
      var s := Run(s0, before);
      hide Run;
      PushCarriesArgument(sentry, maxCount, threads, before, t);
      if last.0 != t {
        RunFrom(sentry, maxCount, threads, before);
        StepMoves(s, last.0, last.1);
        InvChain(s);
        var x := Argument(s0, before, t);
        if Private(s.threads[t]).Some? {
          NodeKeeps(s, last.0, last.1, Private(s.threads[t]).value, x.value);
        }
      } else if last.1.Go? {
        if IsPush(s.threads[t]) {
          PushCarries(s, t, last.1.spurious, Argument(s0, before, t));
        } else {
          PopCarries(s, t, last.1.spurious, Argument(s0, before, t));
        }
      }
    }
  }

  lemma NodeKeeps<T>(s: State<T>, t: nat, m: Move<T>, n: nat, x: T)
    requires ChainOk(s) && Holds(s.heap, n, x)
    ensures Holds(Step(s, t, m).heap, n, x)
  {
    hide ChainOk, Step;
    StepKeepsData(s, t, m, n);
  }

  /** In every interleaving, what a successful link appends to the queue is the argument of the call to push that
      its thread is in. */
  lemma LinksItsArgument<T>(sentry: T, maxCount: nat, threads: set<nat>, moves: seq<(nat, Move<T>)>, t: nat, m: Move<T>)
    requires var s := Run(Init(sentry, maxCount, threads), moves); Links(s, t, m)
    ensures var s0 := Init(sentry, maxCount, threads);
            var s := Run(s0, moves);
            && Argument(s0, moves, t).Some?
            && Contents(Step(s, t, m)) == Contents(s) + [Argument(s0, moves, t).value]
  {
    hide Inv, Run, Step, Argument, Contents;
    var s := Run(Init(sentry, maxCount, threads), moves);
    RunFrom(sentry, maxCount, threads, moves);
    InitInv(sentry, maxCount, threads);
    RunThreads(Init(sentry, maxCount, threads), moves);
    PushCarriesArgument(sentry, maxCount, threads, moves, t);
    StepRefines(s, t, m);
  }

  lemma {:induction false} RunThreads<T>(s: State<T>, moves: seq<(nat, Move<T>)>)
    requires Inv(s)
    ensures Run(s, moves).threads.Keys == s.threads.Keys
    decreases |moves|
  {
    hide Inv, Step;
    if moves != [] {
      var last := moves[|moves| - 1];
      RunThreads(s, moves[..|moves| - 1]);
      RunKeeps(s, moves[..|moves| - 1]);
      StepMoves(Run(s, moves[..|moves| - 1]), last.0, last.1);
    }
  }

  /** First in, first out, in every interleaving: the values taken are, in order, a prefix of the values linked. */
  lemma TakenIsPrefixOfLinked<T>(sentry: T, maxCount: nat, threads: set<nat>, moves: seq<(nat, Move<T>)>)
    ensures var s := Run(Init(sentry, maxCount, threads), moves); s.taken <= s.linked
  {
    hide Run, ChainOk, LocalsOk, AllApart, FreedOk, CountOk;
    RunFrom(sentry, maxCount, threads, moves);
  }

  /** One finite chain in every reachable state, head_ at or before tail_, tail_ at most one link from the end. */
  lemma OneChain<T>(sentry: T, maxCount: nat, threads: set<nat>, moves: seq<(nat, Move<T>)>)
    ensures var s := Run(Init(sentry, maxCount, threads), moves);
            && ChainOk(s) && NextOf(s, s.chain[|s.chain| - 1]).None?
            && exists h, l :: 0 <= h <= l < |s.chain| <= l + 2 && s.head == s.chain[h] && s.tail == s.chain[l]
  {
    hide Run, LocalsOk, AllApart, FreedOk, CountOk;
    RunFrom(sentry, maxCount, threads, moves);
    var s := Run(Init(sentry, maxCount, threads), moves);
    assert 0 <= |s.taken| <= s.tailPos < |s.chain| <= s.tailPos + 2
        && s.head == s.chain[|s.taken|] && s.tail == s.chain[s.tailPos];
  }

  /** When no thread is between its compare-and-swap and its counter update, count_ is the queue's length. */
  lemma CountIsLength<T>(s: State<T>)
    requires Inv(s) && forall t <- s.threads :: !Adding(s.threads[t]) && !Subbing(s.threads[t])
    requires |Contents(s)| < UINT64_RANGE
    ensures s.count == |Contents(s)|
  {
    hide ChainOk, LocalsOk, AllApart, FreedOk, Adding, Subbing;
    assert Adders(s) == {} && Subbers(s) == {};
    var n := |s.linked| - |s.taken|;
    assert (s.count - n) % UINT64_RANGE == 0;
    ModZero(s.count - n);
  }

  lemma ModZero(x: int)
    requires x % UINT64_RANGE == 0 && 0 - UINT64_RANGE < x < UINT64_RANGE
    ensures x == 0
  {
  }

  /** No node that head_ or tail_ can still reach has been deleted. */
  lemma ReachableNotFreed<T>(s: State<T>, i: nat)
    requires Inv(s) && |s.taken| <= i < |s.chain|
    ensures s.chain[i] !in s.freed
  {
    hide LocalsOk, AllApart, CountOk;
    assert forall j :: 0 <= j < |s.taken| && j < |s.chain| ==> s.chain[j] != s.chain[i];
  }

  /** The next_node that pop is about to dereference is never null: it is an allocated node. */
  lemma NextNodeNeverNull<T>(s: State<T>, t: nat)
    requires Inv(s) && t in s.threads && s.threads[t].PopRead?
    ensures s.threads[t].next.Some? && s.threads[t].next.value in s.heap
  {
    hide FreedOk, CountOk, AllApart;
    assert LocalOk(s, s.threads[t]);
  }

  // ---------------------------------------------------------------- clear

  /** Every allocated node is linked, or some push holds it. */
  ghost predicate HeapOk<T>(s: State<T>) {
    forall n <- s.heap :: n in s.chain || exists t :: t in s.threads && Private(s.threads[t]) == Some(n)
  }

  lemma StepHeap<T>(s: State<T>, t: nat, m: Move<T>)
    requires Inv(s) && HeapOk(s)
    ensures HeapOk(Step(s, t, m))
  {
    hide ChainOk, LocalsOk, AllApart, FreedOk, CountOk, HeapOk;
    if t in s.threads {
      var r := Step(s, t, m);
      var p := s.threads[t];
      if p.PushLink? { LinkTarget(s, t, p.node, p.oldTail); }
      StepPrivate(s, t, m);
      HeapMoves(s, r, t);
    }
  }

  /** What a step does to the heap: at most the thread's own new node, and its old one gets linked. */
  ghost predicate OwnHeap<T>(s: State<T>, r: State<T>, t: nat) {
    && Moves(s, r, t) && s.chain <= r.chain
    && (forall n <- r.heap :: n in s.heap || Private(r.threads[t]) == Some(n))
    && (Private(s.threads[t]).Some? ==>
          Private(r.threads[t]) == Private(s.threads[t]) || Private(s.threads[t]).value in r.chain)
  }

  lemma PushOwnHeap<T>(s: State<T>, t: nat, spurious: bool)
    requires t in s.threads && IsPush(s.threads[t])
    requires !s.threads[t].PushFull? && !s.threads[t].PushLink?
    ensures OwnHeap(s, StepPush(s, t, s.threads[t], spurious), t)
  {
    hide NextOf;
  }

  lemma LinkOwnHeap<T>(s: State<T>, t: nat, spurious: bool)
    requires t in s.threads && (s.threads[t].PushLink? || s.threads[t].PushFull?)
    requires s.threads[t].PushLink? ==> s.threads[t].oldTail.node in s.heap && s.threads[t].node in s.heap
    ensures OwnHeap(s, StepPush(s, t, s.threads[t], spurious), t)
  {
    hide NextOf;
  }

  lemma PopOwnHeap<T>(s: State<T>, t: nat, spurious: bool)
    requires t in s.threads && !IsPush(s.threads[t])
    ensures OwnHeap(s, StepPop(s, t, s.threads[t], spurious), t)
  {
    hide StepPop;
    PopKeepsNodes(s, t, spurious);
    PopKeepsThreads(s, t, spurious);
  }

  lemma PopKeepsNodes<T>(s: State<T>, t: nat, spurious: bool)
    requires t in s.threads
    ensures var r := StepPop(s, t, s.threads[t], spurious); r.heap == s.heap && r.chain == s.chain
  {
    hide NextOf, SwingTail;
    SwingsOnly(s, spurious);
  }

  lemma PopKeepsThreads<T>(s: State<T>, t: nat, spurious: bool)
    requires t in s.threads
    ensures Moves(s, StepPop(s, t, s.threads[t], spurious), t)
  {
    hide NextOf, SwingTail;
    SwingsOnly(s, spurious);
  }

  lemma StepPrivate<T>(s: State<T>, t: nat, m: Move<T>)
    requires t in s.threads
    requires s.threads[t].PushLink? ==> s.threads[t].oldTail.node in s.heap && s.threads[t].node in s.heap
    ensures OwnHeap(s, Step(s, t, m), t)
  {
    hide StepPush, StepPop;
    if m.Go? {
      if !IsPush(s.threads[t]) {
        hide OwnHeap;
        PopOwnHeap(s, t, m.spurious);
      } else if s.threads[t].PushLink? || s.threads[t].PushFull? {
        hide OwnHeap;
        LinkOwnHeap(s, t, m.spurious);
      } else {
        hide OwnHeap;
        PushOwnHeap(s, t, m.spurious);
      }
    }
  }

  lemma HeapMoves<T>(s: State<T>, r: State<T>, t: nat)
    requires HeapOk(s) && OwnHeap(s, r, t)
    ensures HeapOk(r)
  {
    hide Private;
    forall n | n in r.heap ensures n in r.chain || exists u :: u in r.threads && Private(r.threads[u]) == Some(n) {
      if n !in s.heap {
        assert t in r.threads && Private(r.threads[t]) == Some(n);
      } else if n !in s.chain {
        var u :| u in s.threads && Private(s.threads[u]) == Some(n);
        assert u != t ==> r.threads[u] == s.threads[u];
        assert n in r.chain || (u in r.threads && Private(r.threads[u]) == Some(n));
      }
    }
  }

  /** The nodes that `cur` leads to are `rest`. */
  ghost predicate Follows<T>(heap: map<nat, Node<T>>, cur: Option<nat>, rest: seq<nat>)
    decreases |rest|
  {
    if rest == [] then cur.None?
    else cur == Some(rest[0]) && rest[0] in heap && Follows(heap, heap[rest[0]].next, rest[1..])
  }

  lemma {:induction false} ChainFollows<T>(s: State<T>, i: nat)
    requires ChainOk(s) && i <= |s.chain|
    ensures Follows(s.heap, if i < |s.chain| then Some(s.chain[i]) else None, s.chain[i..])
    decreases |s.chain| - i
  {
    hide Distinct, Holding;
    var n := |s.chain|;
    if i < n {
      ChainFollows(s, i + 1);
      assert s.chain[i] in s.heap && s.heap[s.chain[i]].next == Link(s.chain, i);
      hide Threaded;
      assert s.chain[i..][0] == s.chain[i] && s.chain[i..][1..] == s.chain[i + 1..];
    }
  }

  /** clear, run by one thread alone: deletes the nodes from head_ on, each once. */
  method Clear<T>(s: State<T>) returns (deleted: seq<nat>)
    requires ChainOk(s)
    ensures deleted == s.chain[|s.taken|..]
  {
    HeadPlace(s);
    ChainFollows(s, |s.taken|);
    ghost var rest := s.chain[|s.taken|..];
    deleted := Delete(s.heap, s.head, rest);
  }

  method Delete<T>(heap: map<nat, Node<T>>, head: nat, ghost nodes: seq<nat>) returns (deleted: seq<nat>)
    requires Follows(heap, Some(head), nodes)
    ensures deleted == nodes
  {
    deleted := [];
    var cur := Some(head);
    ghost var rest := nodes;
    while cur.Some?
      invariant deleted + rest == nodes && Follows(heap, cur, rest)
      decreases |rest|
    {
      var next := heap[cur.value].next;
      deleted := deleted + [cur.value];
      cur, rest := next, rest[1..];
    }
  }

  lemma HeadPlace<T>(s: State<T>)
    requires ChainOk(s)
    ensures |s.taken| < |s.chain| && s.head == s.chain[|s.taken|]
  {
  }

  lemma FreedPlace<T>(s: State<T>, n: nat)
    requires ChainOk(s) && FreedOk(s) && n in s.freed
    ensures exists i :: 0 <= i < |s.taken| && i < |s.chain| && s.chain[i] == n
    ensures n in s.heap && n !in s.chain[|s.taken|..]
  {
    var i :| 0 <= i < |s.taken| && i < |s.chain| && s.chain[i] == n;
    forall j | |s.taken| <= j < |s.chain| ensures s.chain[j] != n { assert s.chain[i] != s.chain[j]; }
  }

  /** Once all threads are idle, what they deleted and what clear deletes is every node ever allocated, and no
      node is in both or twice in either. */
  lemma EveryNodeFreedOnce<T>(s: State<T>, deleted: seq<nat>)
    requires Inv(s) && HeapOk(s) && deleted == s.chain[|s.taken|..]
    requires forall t <- s.threads :: s.threads[t].Idle?
    ensures forall n :: n in s.heap <==> n in s.freed || n in deleted
    ensures forall n <- s.freed :: n !in deleted
    ensures forall i, j :: 0 <= i < j < |deleted| ==> deleted[i] != deleted[j]
  {
    hide LocalsOk, AllApart, CountOk;
    InvChain(s);
    assert forall i, j :: 0 <= i < j < |deleted| ==> deleted[i] != deleted[j];
    hide ChainOk;
    forall n <- s.freed ensures n in s.heap && n !in deleted { FreedPlace(s, n); }
    forall j | 0 <= j < |deleted| ensures deleted[j] in s.heap { ChainInHeap(s, |s.taken| + j); }
    forall n <- s.heap ensures n in s.freed || n in deleted { IdleHeap(s, n); }
  }

  lemma ChainInHeap<T>(s: State<T>, i: nat)
    requires ChainOk(s) && i < |s.chain|
    ensures s.chain[i] in s.heap
  {
  }

  lemma IdleHeap<T>(s: State<T>, n: nat)
    requires FreedOk(s) && HeapOk(s) && n in s.heap && |s.taken| <= |s.chain|
    requires forall t <- s.threads :: s.threads[t].Idle?
    ensures n in s.freed || n in s.chain[|s.taken|..]
  {
    assert n in s.chain;
    var i :| 0 <= i < |s.chain| && s.chain[i] == n;
    if i >= |s.taken| { assert s.chain[|s.taken|..][i - |s.taken|] == n; }
  }

  lemma {:induction false} RunHeap<T>(s: State<T>, moves: seq<(nat, Move<T>)>)
    requires Inv(s) && HeapOk(s)
    ensures Inv(Run(s, moves)) && HeapOk(Run(s, moves))
    decreases |moves|
  {
    hide Inv, HeapOk, Step;
    if moves != [] {
      var last := moves[|moves| - 1];
      var before := Run(s, moves[..|moves| - 1]);
      RunHeap(s, moves[..|moves| - 1]);
      StepKeeps(before, last.0, last.1);
      StepHeap(before, last.0, last.1);
    }
  }

  lemma InitHeap<T>(sentry: T, maxCount: nat, threads: set<nat>)
    ensures HeapOk(Init(sentry, maxCount, threads))
  {
  }

  /** No leak and no double delete, in every interleaving: once all threads are idle, what the pops deleted and
      what clear deletes is every node ever allocated, each once. */
  lemma NoLeak<T>(sentry: T, maxCount: nat, threads: set<nat>, moves: seq<(nat, Move<T>)>)
    requires var s := Run(Init(sentry, maxCount, threads), moves); forall t <- s.threads :: s.threads[t].Idle?
    ensures var s := Run(Init(sentry, maxCount, threads), moves);
            && |s.taken| <= |s.chain|
            && var deleted := s.chain[|s.taken|..];
            && (forall n :: n in s.heap <==> n in s.freed || n in deleted)
            && (forall n <- s.freed :: n !in deleted)
            && (forall i, j :: 0 <= i < j < |deleted| ==> deleted[i] != deleted[j])
  {
    hide Run, Inv, HeapOk;
    InitInv(sentry, maxCount, threads);
    InitHeap(sentry, maxCount, threads);
    RunHeap(Init(sentry, maxCount, threads), moves);
    var s := Run(Init(sentry, maxCount, threads), moves);
    InvChain(s);
    EveryNodeFreedOnce(s, s.chain[|s.taken|..]);
  }
}
