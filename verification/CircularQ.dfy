// The bounded ring that overruns its oldest item, and the blocking queue around it.

module CircularQ {

  /** The last `n` items. */
  function KeepLast<T>(s: seq<T>, n: nat): (r: seq<T>)
    ensures |r| == if |s| <= n then |s| else n
    ensures r == s[|s| - |r|..]
  {
    if |s| <= n then s else s[|s| - n..]
  }

  /** (i + 1) % n. */
  function Advance(i: nat, n: nat): (r: nat)
    requires i < n
    ensures r == if i + 1 == n then 0 else i + 1
  {
    (i + 1) % n
  }

  /** The cells from `head` round to `tail`. */
  function View<T>(v: seq<T>, head: nat, tail: nat): seq<T>
    requires head < |v| && tail < |v|
  {
    if head <= tail then v[head..tail] else v[head..] + v[..tail]
  }

  lemma ViewPut<T>(v: seq<T>, head: nat, tail: nat, x: T)
    requires head < |v| && tail < |v|
    ensures var w, t, all := v[tail := x], Advance(tail, |v|), View(v, head, tail) + [x];
            if t == head then |all| == |v| && View(w, Advance(head, |v|), t) == all[1..]
            else |all| < |v| && View(w, head, t) == all
  {
    var w, t, all := v[tail := x], Advance(tail, |v|), View(v, head, tail) + [x];
    if head <= tail {
      assert all == w[head..tail + 1];
      if t == 0 && head > 0 { assert View(w, head, 0) == all; }
    } else {
      assert all == w[head..] + w[..tail + 1];
    }
  }

  lemma ViewPop<T>(v: seq<T>, head: nat, tail: nat)
    requires head < |v| && tail < |v| && View(v, head, tail) != []
    ensures View(v, head, tail) == [v[head]] + View(v, Advance(head, |v|), tail)
  {
  }

  class Ring<T(0)> {
    const maxItems: nat
    const v: array<T>
    var head: nat
    var tail: nat
    var overrunCounter: nat

    ghost predicate Valid()
      reads this
    {
      maxItems >= 1 && v.Length == maxItems && head < maxItems && tail < maxItems
    }

    function Capacity(): int { maxItems - 1 }

    /** What the ring holds, oldest first. */
    ghost function Items(): (s: seq<T>)
      requires Valid()
      reads this, v
      ensures |s| <= Capacity()
    {
      View(v[..], head, tail)
    }

    constructor (maxItems: nat)
      ensures Valid() && fresh(v) && Capacity() == maxItems && Items() == [] && overrunCounter == 0
    {
      this.maxItems := maxItems + 1;
      v := new T[maxItems + 1];
      head, tail, overrunCounter := 0, 0, 0;
    }

    /** Appends, and drops the oldest item if there was no room. */
    method PushBack(item: T)
      requires Valid()
      modifies this, v
      ensures Valid() && Items() == KeepLast(old(Items()) + [item], Capacity())
      ensures overrunCounter == old(overrunCounter) + if |old(Items())| == Capacity() then 1 else 0
    {
      hide Advance, View;
      ViewPut(v[..], head, tail, item);
      ghost var after := v[..][tail := item];
      v[tail] := item;
      assert v[..] == after;
      tail := Advance(tail, maxItems);
      if tail == head {
        head := Advance(head, maxItems);
        overrunCounter := overrunCounter + 1;
      }
    }

    method PopFront() returns (item: T)
      requires Valid() && Items() != []
      modifies this
      ensures Valid() && [item] + Items() == old(Items())
      ensures overrunCounter == old(overrunCounter)
    {
      ViewPop(v[..], head, tail);
      item := v[head];
      head := Advance(head, maxItems);
    }

    predicate Empty()
      requires Valid()
      reads this, v
      ensures Empty() <==> Items() == []
    {
      tail == head
    }

    predicate Full()
      requires Valid()
      reads this, v
      ensures Full() <==> |Items()| == Capacity()
    {
      Advance(tail, maxItems) == head
    }
  }

  datatype Dequeued<T> = Got(item: T) | TimedOut

  /** The queue under its mutex. A method is what a thread does once it holds the lock: the test of its wait
      and, if that holds, its turn. */
  class BlockingQueue<T(0)> {
    const q: Ring<T>

    ghost predicate Valid()
      reads this, q
    {
      q.Valid()
    }

    constructor (maxItems: nat)
      ensures Valid() && fresh(q) && fresh(q.v) && q.Capacity() == maxItems && q.Items() == []
    {
      q := new Ring<T>(maxItems);
    }

    /** enqueue: the result is false if the thread has to go on waiting. */
    method Enqueue(item: T) returns (done: bool)
      requires Valid()
      modifies q, q.v
      ensures Valid() && done == (|old(q.Items())| < q.Capacity())
      ensures q.Items() == if done then old(q.Items()) + [item] else old(q.Items())
      ensures q.overrunCounter == old(q.overrunCounter)
    {
      done := !q.Full();
      if done { q.PushBack(item); }
    }

    method EnqueueNowait(item: T)
      requires Valid()
      modifies q, q.v
      ensures Valid() && q.Items() == KeepLast(old(q.Items()) + [item], q.Capacity())
      ensures q.overrunCounter == old(q.overrunCounter) + if |old(q.Items())| == q.Capacity() then 1 else 0
    {
      q.PushBack(item);
    }

    /** dequeue_for: a timeout is possible only while the queue is empty. */
    method DequeueFor() returns (r: Dequeued<T>)
      requires Valid()
      modifies q
      ensures Valid() && (r.TimedOut? <==> old(q.Items()) == [])
      ensures q.Items() == if r.Got? then old(q.Items())[1..] else []
      ensures r.Got? ==> r.item == old(q.Items())[0]
      ensures q.overrunCounter == old(q.overrunCounter)
    {
      if q.Empty() { return TimedOut; }
      var item := q.PopFront();
      r := Got(item);
    }
  }

  // ---------------------------------------------------------------- whole runs

  datatype Op<T> = Push(item: T) | Pop

  /** A ring with its history: everything pushed, everything popped and everything overrun, in order. */
  datatype History<T> = History(items: seq<T>, overruns: nat, pushed: seq<T>, left: seq<(T, bool)>)

  function Step<T>(h: History<T>, op: Op<T>, capacity: nat): History<T> {
    match op
    case Push(x) =>
      if |h.items| < capacity then h.(items := h.items + [x], pushed := h.pushed + [x])
      else
        var all := h.items + [x];
        History(KeepLast(all, capacity), h.overruns + 1, h.pushed + [x], h.left + [(all[0], false)])
    case Pop => if h.items == [] then h else h.(items := h.items[1..], left := h.left + [(h.items[0], true)])
  }

  function Run<T>(h: History<T>, ops: seq<Op<T>>, capacity: nat): History<T>
    decreases |ops|
  {
    if ops == [] then h else Run(Step(h, ops[0], capacity), ops[1..], capacity)
  }

  function Names<T>(s: seq<(T, bool)>): (r: seq<T>)
    ensures |r| == |s|
  {
    seq(|s|, i requires 0 <= i < |s| => s[i].0)
  }

  function Dropped<T>(s: seq<(T, bool)>): nat {
    if s == [] then 0 else Dropped(s[..|s| - 1]) + if s[|s| - 1].1 then 0 else 1
  }

  ghost predicate Kept<T>(h: History<T>, capacity: nat) {
    && |h.items| <= capacity && h.overruns == Dropped(h.left)
    && Names(h.left) + h.items == h.pushed
  }

  lemma DroppedSnoc<T>(s: seq<(T, bool)>, x: (T, bool))
    ensures Dropped(s + [x]) == Dropped(s) + if x.1 then 0 else 1
  {
    assert (s + [x])[..|s|] == s;
  }

  lemma NamesSnoc<T>(s: seq<(T, bool)>, x: (T, bool))
    ensures Names(s + [x]) == Names(s) + [x.0]
  {
  }

  /** The oldest item leaves. */
  lemma Leaves<T>(left: seq<(T, bool)>, all: seq<T>, rest: seq<T>, popped: bool)
    requires all != [] && rest == all[1..]
    ensures Names(left + [(all[0], popped)]) + rest == Names(left) + all
    ensures Dropped(left + [(all[0], popped)]) == Dropped(left) + if popped then 0 else 1
  {
    var x := (all[0], popped);
    DroppedSnoc(left, x);
    NamesSnoc(left, x);
    hide Names, Dropped;
    assert [x.0] + rest == all;
    assert Names(left) + [x.0] + rest == Names(left) + ([x.0] + rest);
  }

  lemma StepKeeps<T>(h: History<T>, op: Op<T>, capacity: nat)
    requires Kept(h, capacity)
    ensures Kept(Step(h, op, capacity), capacity)
  {
    match op
    case Push(item) =>
      var all := h.items + [item];
      assert Names(h.left) + all == h.pushed + [item];
      if |h.items| >= capacity { Leaves(h.left, all, KeepLast(all, capacity), false); }
    case Pop =>
      if h.items != [] { Leaves(h.left, h.items, h.items[1..], true); }
  }

  /** Items leave the ring in the order in which they entered, each popped or overrun once or still inside;
      and the overruns are the pushes less the pops less what is left. */
  lemma {:induction false} NothingLostUnseen<T>(h: History<T>, ops: seq<Op<T>>, capacity: nat)
    requires Kept(h, capacity)
    ensures var r := Run(h, ops, capacity);
            Kept(r, capacity) && r.overruns == |r.pushed| - (|r.left| - Dropped(r.left)) - |r.items|
    decreases |ops|
  {
    if ops != [] {
      StepKeeps(h, ops[0], capacity);
      NothingLostUnseen(Step(h, ops[0], capacity), ops[1..], capacity);
    } else {
      assert |h.pushed| == |Names(h.left)| + |h.items|;
    }
  }

  lemma {:induction false} RunSnoc<T>(h: History<T>, ops: seq<Op<T>>, op: Op<T>, capacity: nat)
    ensures Run(h, ops + [op], capacity) == Step(Run(h, ops, capacity), op, capacity)
    decreases |ops|
  {
    hide Step;
    if ops == [] {
      assert ops + [op] == [op] && [op][1..] == [];
    } else {
      assert (ops + [op])[1..] == ops[1..] + [op];
      RunSnoc(Step(h, ops[0], capacity), ops[1..], op, capacity);
    }
  }

  /** The items that were popped, of those that have left. */
  function Popped<T>(left: seq<(T, bool)>): seq<T> {
    if left == [] then []
    else
      var last := left[|left| - 1];
      Popped(left[..|left| - 1]) + if last.1 then [last.0] else []
  }

  lemma PoppedSnoc<T>(left: seq<(T, bool)>, x: (T, bool))
    ensures Popped(left + [x]) == Popped(left) + if x.1 then [x.0] else []
  {
    assert (left + [x])[..|left|] == left;
  }

  lemma StepPops<T>(h: History<T>, op: Op<T>, capacity: nat)
    requires |h.items| <= capacity
    ensures var r := Step(h, op, capacity);
            && r.items == (if op.Push? then KeepLast(h.items + [op.item], capacity)
                           else if h.items == [] then [] else h.items[1..])
            && r.overruns == h.overruns + (if op.Push? && |h.items| == capacity then 1 else 0)
            && Popped(r.left) == Popped(h.left) + if op.Pop? && h.items != [] then [h.items[0]] else []
  {
    match op
    case Push(item) => PoppedSnoc(h.left, ((h.items + [item])[0], false));
    case Pop => if h.items != [] { PoppedSnoc(h.left, (h.items[0], true)); }
  }

  /** Pushes, and pops of a ring that is not empty, in any order: the ring has the history told above. */
  method Drive<T(0)>(q: Ring<T>, ops: seq<Op<T>>) returns (popped: seq<T>)
    requires q.Valid()
    modifies q, q.v
    ensures q.Valid()
    ensures var items := old(q.Items());
            var r := Run(History(items, 0, items, []), ops, q.Capacity());
            && q.Items() == r.items && popped == Popped(r.left)
            && q.overrunCounter == old(q.overrunCounter) + r.overruns
            && Kept(r, q.Capacity())
  {
    hide Run, Step, Names, Dropped, Popped, KeepLast;
    ghost var start := History(q.Items(), 0, q.Items(), []);
    ghost var r := start;
    popped := [];
    StartKept(q.Items(), q.Capacity());
    for i := 0 to |ops|
      invariant q.Valid() && r == Run(start, ops[..i], q.Capacity()) && Kept(r, q.Capacity())
      invariant q.Items() == r.items && popped == Popped(r.left)
      invariant q.overrunCounter == old(q.overrunCounter) + r.overruns
    {
      assert ops[..i + 1] == ops[..i] + [ops[i]];
      RunSnoc(start, ops[..i], ops[i], q.Capacity());
      StepPops(r, ops[i], q.Capacity());
      StepKeeps(r, ops[i], q.Capacity());
      match ops[i] {
        case Push(item) => q.PushBack(item);
        case Pop =>
          if !q.Empty() {
            var item := q.PopFront();
            popped := popped + [item];
          }
      }
      r := Step(r, ops[i], q.Capacity());
    }
    assert ops[..|ops|] == ops;
  }

  lemma StartKept<T>(items: seq<T>, capacity: nat)
    requires |items| <= capacity
    ensures var start := History(items, 0, items, []);
            Kept(start, capacity) && Run(start, [], capacity) == start
    ensures Popped<T>([]) == []
  {
    assert Names<T>([]) + items == items;
  }
}
