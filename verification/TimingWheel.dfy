// The timing wheel: sixty buckets of timers, one bucket swept each second. Each timer carries the number of
// whole turns it still waits for. The wheel is proved against the plain picture of a timer: a map from timers
// to the ticks they have left.

module TimingWheel {
  import opened Words
  import opened Arith

  const COUNT_TICKS: nat := 60

  type Slot = s: nat | s < COUNT_TICKS

  /** The slot for `interval` ticks from `cur`; the sum is taken in a machine word. */
  function SlotFor(cur: nat, interval: nat): (slot: Slot) {
    (cur + interval) % UINT64_RANGE % COUNT_TICKS
  }

  /** The ticks until a timer fires that sits in `slot` with `rotation` turns to wait, while the hand is at `cur`. */
  function Due(cur: nat, slot: Slot, rotation: nat): (due: nat)
    requires cur < COUNT_TICKS
    ensures due >= 1
  {
    (if slot > cur then slot - cur else slot + COUNT_TICKS - cur) + COUNT_TICKS * rotation
  }

  /** The ticks a timer waits that is put on the wheel while the hand is at `cur`. */
  function Delay(cur: nat, interval: nat): (ticks: nat)
    requires cur < COUNT_TICKS
    ensures ticks >= 1
  {
    Due(cur, SlotFor(cur, interval), interval / COUNT_TICKS)
  }

  /** A timer waits its interval, except that whole turns wait one turn more, unless the slot sum wraps. */
  lemma DelayIs(cur: nat, interval: nat)
    requires cur < COUNT_TICKS && cur + interval < UINT64_RANGE
    ensures Delay(cur, interval) == if interval % COUNT_TICKS == 0 then interval + COUNT_TICKS else interval
  {
  }

  /** Exactly when a timer waits its interval, for every machine word. */
  lemma WaitsItsInterval(cur: nat, interval: nat)
    requires cur < COUNT_TICKS && interval < UINT64_RANGE
    ensures Delay(cur, interval) == interval <==> interval % COUNT_TICKS != 0 && cur + interval < UINT64_RANGE
  {
    if cur + interval < UINT64_RANGE { DelayIs(cur, interval); } else { WrappedDelay(cur, interval); }
  }

  lemma WrappedDelay(cur: nat, interval: nat)
    requires cur < COUNT_TICKS && interval < UINT64_RANGE <= cur + interval
    ensures Delay(cur, interval) != interval
  {
    assert (cur + interval) % UINT64_RANGE == cur + interval - UINT64_RANGE;
    assert UINT64_RANGE == 60 * 307445734561825860 + 16;
  }

  /** The longest interval, added while the hand is at 1, waits 44 ticks more. */
  lemma LongestWaitsLonger()
    ensures (UINT64_RANGE - 1) % COUNT_TICKS != 0 && Delay(1, UINT64_RANGE - 1) == UINT64_RANGE + 43
  {
    assert UINT64_RANGE == 60 * 307445734561825860 + 16;
  }

  // ---------------------------------------------------------------- the plain picture

  /** A timer as its user sees it. */
  datatype Countdown = Countdown(left: nat, interval: nat, repeat: bool)

  /** Whether a fired timer goes on: a repeating one is lost if it comes back to the bucket being swept. */
  predicate Returns(c: Countdown, cur: nat)
    requires cur < COUNT_TICKS
  {
    c.repeat && Delay(cur, c.interval) % COUNT_TICKS != 0
  }

  predicate Stays(c: Countdown, cur: nat)
    requires cur < COUNT_TICKS
  {
    c.left > 1 || Returns(c, cur)
  }

  /** One tick for one timer, with the hand moved to `cur`. */
  function Ticked(c: Countdown, cur: nat): Countdown
    requires cur < COUNT_TICKS
  {
    c.(left := if c.left > 1 then c.left - 1 else Delay(cur, c.interval))
  }

  lemma SameSlot(cur: nat, interval: nat)
    requires cur < COUNT_TICKS
    ensures SlotFor(cur, interval) == cur <==> Delay(cur, interval) % COUNT_TICKS == 0
  {
  }

  /** A step of the hand to another bucket is a tick that the timer of `slot` lives through. */
  lemma OneNearer(cur: nat, next: nat, slot: Slot, rotation: nat, interval: nat, repeat: bool)
    requires cur < COUNT_TICKS && next == (cur + 1) % COUNT_TICKS
    ensures var was := Countdown(Due(cur, slot, rotation), interval, repeat);
            if slot == next then was.left == 1 + COUNT_TICKS * rotation
            else Stays(was, next) && Fires(was) == 0
                 && Ticked(was, next) == Countdown(Due(next, slot, rotation), interval, repeat)
  {
  }

  /** One tick for all timers. */
  function TickAll<K(==)>(m: map<K, Countdown>, cur: nat): map<K, Countdown>
    requires cur < COUNT_TICKS
  {
    map k | k in m && Stays(m[k], cur) :: Ticked(m[k], cur)
  }

  /** How often the callback runs on a tick. */
  function Fires(c: Countdown): nat { if c.left <= 1 then 1 else 0 }

  // ---------------------------------------------------------------- the wheel

  class Timer {
    const interval: nat
    const repeat: bool
    var rotation: nat
    var slot: Slot
    /** How often the callback has run. */
    var calls: nat

    constructor (interval: nat, repeat: bool)
      ensures this.interval == interval && this.repeat == repeat && calls == 0
    {
      this.interval, this.repeat := interval, repeat;
      rotation, slot, calls := 0, 0, 0;
    }
  }

  class Wheel {
    const wheel: array<set<Timer>>
    var cur: nat
    ghost var timers: set<Timer>

    /** Every timer sits in exactly one bucket, the one it remembers. */
    ghost predicate Valid()
      reads this, wheel, timers
    {
      && wheel.Length == COUNT_TICKS && cur < COUNT_TICKS
      && (forall t :: t in timers ==> t in wheel[t.slot])
      && (forall s: nat, t :: s < COUNT_TICKS && t in wheel[s] ==> t in timers && t.slot == s)
    }

    ghost function Now(t: Timer): Countdown
      requires cur < COUNT_TICKS
      reads this`cur, t
    {
      Countdown(Due(cur, t.slot, t.rotation), t.interval, t.repeat)
    }

    /** A timer whose bucket the hand has just reached, as it was before the step of the hand. */
    ghost function Arriving(t: Timer): Countdown
      reads t
    {
      Countdown(1 + COUNT_TICKS * t.rotation, t.interval, t.repeat)
    }

    /** The plain picture of the wheel. */
    ghost function Countdowns(): map<Timer, Countdown>
      requires Valid()
      reads this, wheel, timers
    {
      map t | t in timers :: Now(t)
    }

    constructor ()
      ensures Valid() && fresh(wheel) && timers == {} && cur == 0 && Countdowns() == map[]
    {
      wheel := new set<Timer>[COUNT_TICKS](_ => {});
      cur := 0;
      timers := {};
    }

    method AddTimerLoop(timer: Timer)
      requires wheel.Length == COUNT_TICKS && cur < COUNT_TICKS
      modifies wheel, timer`rotation, timer`slot
      ensures timer.slot == SlotFor(cur, timer.interval) && timer.rotation == timer.interval / COUNT_TICKS
      ensures wheel[..] == old(wheel[..])[timer.slot := old(wheel[..])[timer.slot] + {timer}]
    {
      timer.rotation := timer.interval / COUNT_TICKS;
      timer.slot := (cur + timer.interval) % UINT64_RANGE % COUNT_TICKS;
      wheel[timer.slot] := wheel[timer.slot] + {timer};
    }

    /** add_timer, on the loop's own thread. */
    method AddTimer(interval: nat, repeat: bool) returns (timer: Timer?)
      requires Valid() && interval < UINT64_RANGE
      modifies this, wheel
      ensures Valid() && cur == old(cur)
      ensures interval == 0 ==> timer == null && Countdowns() == old(Countdowns())
      ensures interval > 0 ==>
                && timer != null && fresh(timer) && timer.calls == 0 && timers == old(timers) + {timer}
                && Countdowns() == old(Countdowns())[timer := Countdown(Delay(cur, interval), interval, repeat)]
    {
      if interval == 0 { return null; }
      timer := new Timer(interval, repeat);
      Register(timer);
    }

    /** Puts a timer on the wheel that is not there yet. */
    method Register(timer: Timer)
      requires Valid() && timer !in timers && timer.interval < UINT64_RANGE
      modifies this`timers, wheel, timer`rotation, timer`slot
      ensures Valid() && timers == old(timers) + {timer}
      ensures Countdowns() ==
              old(Countdowns())[timer := Countdown(Delay(cur, timer.interval), timer.interval, timer.repeat)]
    {
      hide SlotFor, Due;
      AddTimerLoop(timer);
      timers := timers + {timer};
    }

    method DelTimerLoop(timer: Timer)
      requires Valid()
      modifies this, wheel
      ensures Valid() && cur == old(cur) && timers == old(timers) - {timer}
      ensures Countdowns() == old(Countdowns()) - {timer}
    {
      if timer in wheel[timer.slot] {
        wheel[timer.slot] := wheel[timer.slot] - {timer};
        timers := timers - {timer};
      }
    }

    /** One turn of the sweeping loop. */
    method Sweep(timer: Timer)
      requires Valid() && timer in wheel[cur]
      modifies this`timers, wheel, timer
      ensures Valid() && timer.calls == old(timer.calls) + Fires(old(Arriving(timer)))
      ensures timers == if Stays(old(Arriving(timer)), cur) then old(timers) else old(timers) - {timer}
      ensures timer in timers ==> Now(timer) == Ticked(old(Arriving(timer)), cur)
      ensures old(wheel[cur]) - {timer} <= wheel[cur]
    {
      if timer.rotation > 0 {
        timer.rotation := timer.rotation - 1;
      } else {
        SameSlot(cur, timer.interval);
        hide SlotFor;
        timer.calls := timer.calls + 1;
        if timer.repeat { AddTimerLoop(timer); }
        wheel[cur] := wheel[cur] - {timer};
        if !timer.repeat || SlotFor(cur, timer.interval) == cur { timers := timers - {timer}; }
      }
    }


    /** The sweep still has the timers `todo` before it; the others have ticked. `before` is the plain picture
        before the step of the hand, `calls` the calls up to then. */
    ghost predicate HalfSwept(before: map<Timer, Countdown>, calls: map<Timer, nat>, todo: set<Timer>)
      requires Valid()
      reads this, wheel, timers, before.Keys
    {
      && todo <= wheel[cur] && timers <= before.Keys <= calls.Keys
      && (forall t :: t in todo ==> Arriving(t) == before[t] && t.calls == calls[t])
      && (forall t :: t in before && t !in todo ==>
            (t in timers <==> Stays(before[t], cur)) && t.calls == calls[t] + Fires(before[t]))
      && (forall t :: t in timers && t !in todo ==> Now(t) == Ticked(before[t], cur))
    }

    ghost function CallCounts(): map<Timer, nat>
      reads this, timers
    {
      map t | t in timers :: t.calls
    }

    /** The plain picture when the hand was at `hand`. */
    ghost function CountdownsFrom(hand: nat): map<Timer, Countdown>
      requires hand < COUNT_TICKS
      reads this, timers
    {
      map t | t in timers :: Countdown(Due(hand, t.slot, t.rotation), t.interval, t.repeat)
    }

    method StepHand()
      requires Valid()
      modifies this`cur
      ensures Valid() && cur == (old(cur) + 1) % COUNT_TICKS
      ensures CountdownsFrom(old(cur)) == old(Countdowns()) && CallCounts() == old(CallCounts())
    {
      hide Due;
      cur := (cur + 1) % COUNT_TICKS;
    }

    /** After a step of the hand the sweep of the bucket it reaches is still to come, the other timers have ticked. */
    lemma HandStepped(was: nat)
      requires Valid() && was < COUNT_TICKS && cur == (was + 1) % COUNT_TICKS
      ensures HalfSwept(CountdownsFrom(was), CallCounts(), wheel[cur])
    {
      var before := CountdownsFrom(was);
      hide Due, Stays, Ticked, Fires;
      forall t | t in timers
        ensures if t in wheel[cur] then Arriving(t) == before[t]
                else Stays(before[t], cur) && Fires(before[t]) == 0 && Ticked(before[t], cur) == Now(t)
      {
        OneNearer(was, cur, t.slot, t.rotation, t.interval, t.repeat);
      }
    }

    lemma SweptIsTicked(before: map<Timer, Countdown>, calls: map<Timer, nat>)
      requires Valid() && HalfSwept(before, calls, {})
      ensures Countdowns() == TickAll(before, cur)
    {
      hide Stays, Ticked, Delay, Due, Now, SlotFor, Fires;
    }

    /** One turn of the sweeping loop brings the sweep on by one timer. */
    method SweepNext(ghost before: map<Timer, Countdown>, ghost calls: map<Timer, nat>, todo: set<Timer>)
      returns (left: set<Timer>)
      requires Valid() && HalfSwept(before, calls, todo) && todo != {}
      modifies this`timers, wheel, timers
      ensures Valid() && HalfSwept(before, calls, left) && left < todo && timers <= old(timers)
    {
      hide Stays, Ticked, Delay, Due, Now, SlotFor, Arriving, Fires;
      var timer: Timer :| timer in todo;
      Sweep(timer);
      left := todo - {timer};
    }

    /** The loop of handle_timeout, over the bucket's timers in whatever order the bucket gives them. */
    method SweepBucket(ghost before: map<Timer, Countdown>, ghost calls: map<Timer, nat>)
      requires Valid() && HalfSwept(before, calls, wheel[cur])
      modifies this`timers, wheel, timers
      ensures Valid() && HalfSwept(before, calls, {}) && timers <= old(timers)
    {
      hide Stays, Ticked, Delay, Due, Now, SlotFor, Arriving, Fires;
      var todo := wheel[cur];
      while todo != {}
        invariant Valid() && HalfSwept(before, calls, todo) && timers <= old(timers)
        decreases todo
      {
        todo := SweepNext(before, calls, todo);
      }
    }

    /** handle_timeout: one step of the hand and the sweep of its bucket. */
    method HandleTimeout()
      requires Valid()
      modifies this, wheel, timers
      ensures Valid() && cur == (old(cur) + 1) % COUNT_TICKS && timers <= old(timers)
      ensures Countdowns() == TickAll(old(Countdowns()), cur)
      ensures forall t :: t in old(timers) ==> t.calls == old(t.calls) + Fires(old(Countdowns())[t])
    {
      ghost var before, calls, was := Countdowns(), CallCounts(), cur;
      hide Stays, Ticked, Delay, Due, Now, SlotFor, Fires, Arriving;
      StepHand();
      HandStepped(was);
      SweepBucket(before, calls);
      SweptIsTicked(before, calls);
    }
  }

  // ---------------------------------------------------------------- whole runs

  /** What can happen to the wheel: the three operations above, by their contracts. */
  datatype Event<K> = Add(key: K, interval: nat, repeat: bool) | Del(key: K) | Tick

  datatype World<K> = World(cur: nat, timers: map<K, Countdown>)

  predicate Sane<K(==)>(w: World<K>) { w.cur < COUNT_TICKS }

  function Next<K(==)>(w: World<K>, e: Event<K>): (r: World<K>)
    requires Sane(w)
    ensures Sane(r)
  {
    match e
    case Add(k, interval, repeat) =>
      if interval == 0 then w
      else w.(timers := w.timers[k := Countdown(Delay(w.cur, interval), interval, repeat)])
    case Del(k) => w.(timers := w.timers - {k})
    case Tick =>
      var cur := (w.cur + 1) % COUNT_TICKS;
      World(cur, TickAll(w.timers, cur))
  }

  function Run<K(==)>(w: World<K>, es: seq<Event<K>>): (r: World<K>)
    requires Sane(w)
    ensures Sane(r)
    decreases |es|
  {
    if es == [] then w else Run(Next(w, es[0]), es[1..])
  }

  function Ticks<K>(es: seq<Event<K>>): nat {
    if es == [] then 0 else (if es[0].Tick? then 1 else 0) + Ticks(es[1..])
  }

  /** How often the callback of `k` runs. */
  function Calls<K(==)>(w: World<K>, es: seq<Event<K>>, k: K): nat
    requires Sane(w)
    decreases |es|
  {
    if es == [] then 0
    else (if es[0].Tick? && k in w.timers then Fires(w.timers[k]) else 0) + Calls(Next(w, es[0]), es[1..], k)
  }

  /** Nobody adds or deletes `k`. */
  predicate Untouched<K(==)>(es: seq<Event<K>>, k: K) {
    forall i :: 0 <= i < |es| ==> es[i].Tick? || es[i].key != k
  }

  lemma {:induction false} Silent<K>(w: World<K>, es: seq<Event<K>>, k: K)
    requires Sane(w) && Untouched(es, k) && k !in w.timers
    ensures Calls(w, es, k) == 0 && k !in Run(w, es).timers
    decreases |es|
  {
    if es != [] { Silent(Next(w, es[0]), es[1..], k); }
  }

  predicate NeverAdded<K(==)>(es: seq<Event<K>>, k: K) { forall i :: 0 <= i < |es| && es[i].Add? ==> es[i].key != k }

  lemma {:induction false} StaysAway<K>(w: World<K>, es: seq<Event<K>>, k: K)
    requires Sane(w) && NeverAdded(es, k) && k !in w.timers
    ensures Calls(w, es, k) == 0 && k !in Run(w, es).timers
    decreases |es|
  {
    if es != [] { StaysAway(Next(w, es[0]), es[1..], k); }
  }

  /** Once a timer is deleted its callback does not run again, whatever happens, and no other timer is touched. */
  lemma DeletedNeverFires<K>(w: World<K>, k: K, es: seq<Event<K>>)
    requires Sane(w) && NeverAdded(es, k)
    ensures Calls(Next(w, Del(k)), es, k) == 0 && k !in Run(Next(w, Del(k)), es).timers
    ensures forall j :: j != k && j in w.timers ==>
              j in Next(w, Del(k)).timers && Next(w, Del(k)).timers[j] == w.timers[j]
  {
    StaysAway(Next(w, Del(k)), es, k);
  }

  /** The calls of a timer over `n` ticks, from the hand at `cur`. */
  function Schedule(n: nat, c: Countdown, cur: nat): nat
    requires cur < COUNT_TICKS && c.left >= 1
    decreases n
  {
    if n < c.left then 0
    else
      var hand := (cur + c.left) % COUNT_TICKS;
      1 + if Returns(c, hand) then Schedule(n - c.left, c.(left := Delay(hand, c.interval)), hand) else 0
  }

  /** One tick of a timer that stays, on its schedule. */
  lemma OneTick(n: nat, c: Countdown, cur: nat)
    requires cur < COUNT_TICKS && c.left >= 1
    ensures var next := (cur + 1) % COUNT_TICKS;
            && Ticked(c, next).left >= 1
            && Schedule(n + 1, c, cur) == Fires(c) + if Stays(c, next) then Schedule(n, Ticked(c, next), next) else 0
  {
    hide Delay;
    var next := (cur + 1) % COUNT_TICKS;
    if c.left > 1 {
      var d := Ticked(c, next);
      var hand := (cur + c.left) % COUNT_TICKS;
      assert hand == (next + d.left) % COUNT_TICKS;
      assert c.(left := Delay(hand, c.interval)) == d.(left := Delay(hand, d.interval));
      assert Returns(c, hand) == Returns(d, hand);
    }
  }

  /** Whatever else happens on the wheel, a timer keeps its schedule. */
  lemma {:induction false} KeepsSchedule<K>(w: World<K>, es: seq<Event<K>>, k: K)
    requires Sane(w) && Untouched(es, k) && k in w.timers && w.timers[k].left >= 1
    ensures Calls(w, es, k) == Schedule(Ticks(es), w.timers[k], w.cur)
    decreases |es|
  {
    if es != [] {
      var c, w' := w.timers[k], Next(w, es[0]);
      assert forall i :: 0 <= i < |es[1..]| ==> es[1..][i] == es[i + 1];
      hide Delay, Schedule, Returns;
      if es[0].Tick? {
        OneTick(Ticks(es[1..]), c, w.cur);
        if Stays(c, w'.cur) { KeepsSchedule(w', es[1..], k); } else { Silent(w', es[1..], k); }
      } else {
        KeepsSchedule(w', es[1..], k);
      }
    }
  }

  /** The calls a user expects of `n` ticks: one after every interval, or one. */
  function Expected(n: nat, interval: nat, repeat: bool): nat
    requires interval >= 1
  {
    if repeat || n < interval then n / interval else 1
  }

  /** Where the hand is after `i` intervals. */
  function HandAfter(cur: nat, interval: nat, i: nat): nat { (cur + i * interval) % COUNT_TICKS }

  /** The slot sum wraps in no wait of the timer. The hand is back after sixty intervals. */
  predicate NeverWraps(cur: nat, interval: nat, repeat: bool) {
    && cur + interval < UINT64_RANGE
    && (repeat ==> forall i: nat :: i < COUNT_TICKS ==> HandAfter(cur, interval, i) + interval < UINT64_RANGE)
  }

  lemma HandComesBack(cur: nat, interval: nat, i: nat)
    ensures HandAfter(cur, interval, i) == HandAfter(cur, interval, i % COUNT_TICKS)
  {
    var turns := i / COUNT_TICKS * interval;
    assert i * interval == COUNT_TICKS * turns + i % COUNT_TICKS * interval;
  }

  lemma HandGoesOn(cur: nat, interval: nat, i: nat)
    ensures HandAfter(HandAfter(cur, interval, 1), interval, i) == HandAfter(cur, interval, i + 1)
    ensures HandAfter(cur, interval, 1) == (cur + interval) % COUNT_TICKS
    ensures cur < COUNT_TICKS ==> HandAfter(cur, interval, 0) == cur
  {
    var rest := i * interval;
    assert (i + 1) * interval == rest + interval;
  }

  lemma WrapsNowhere(cur: nat, interval: nat)
    requires cur < COUNT_TICKS && NeverWraps(cur, interval, true)
    ensures NeverWraps(HandAfter(cur, interval, 1), interval, true)
  {
    hide HandAfter;
    forall i: nat | i < COUNT_TICKS
      ensures HandAfter(HandAfter(cur, interval, 1), interval, i) + interval < UINT64_RANGE
    {
      HandGoesOn(cur, interval, i);
      HandComesBack(cur, interval, i + 1);
    }
    assert HandAfter(cur, interval, 1) + interval < UINT64_RANGE;
  }

  /** A timer that is added to a hand at `cur`. */
  function Added(cur: nat, interval: nat, repeat: bool): (c: Countdown)
    requires cur < COUNT_TICKS
    ensures c.left >= 1
  {
    Countdown(Delay(cur, interval), interval, repeat)
  }

  lemma {:induction false} InTime(n: nat, cur: nat, interval: nat, repeat: bool)
    requires cur < COUNT_TICKS && interval >= 1 && interval % COUNT_TICKS != 0 && NeverWraps(cur, interval, repeat)
    ensures Schedule(n, Added(cur, interval, repeat), cur) == Expected(n, interval, repeat)
    decreases n
  {
    DelayIs(cur, interval);
    Rounds(n, interval);
    hide Delay, HandAfter;
    HandGoesOn(cur, interval, 0);
    if n >= interval && repeat {
      WrapsNowhere(cur, interval);
      var hand := HandAfter(cur, interval, 1);
      DelayIs(hand, interval);
      InTime(n - interval, hand, interval, repeat);
    }
  }

  /** A first wait that is not the interval shows after as many ticks as the shorter of the two. */
  lemma WrongAtOnce(cur: nat, interval: nat, repeat: bool) returns (n: nat)
    requires cur < COUNT_TICKS && interval >= 1 && Delay(cur, interval) != interval
    ensures Schedule(n, Added(cur, interval, repeat), cur) != Expected(n, interval, repeat)
  {
    var delay := Delay(cur, interval);
    n := if delay < interval then delay else interval;
    Rounds(n, interval);
    Rounds(n - n, interval);
    hide Delay;
  }

  /** And so does a later one. */
  lemma {:induction false} WrongLater(cur: nat, interval: nat, i: nat) returns (n: nat)
    requires cur < COUNT_TICKS && 1 <= interval < UINT64_RANGE && interval % COUNT_TICKS != 0
    requires HandAfter(cur, interval, i) + interval >= UINT64_RANGE
    ensures Schedule(n, Added(cur, interval, true), cur) != Expected(n, interval, true)
    decreases i
  {
    WaitsItsInterval(cur, interval);
    HandGoesOn(cur, interval, 0);
    if Delay(cur, interval) != interval {
      n := WrongAtOnce(cur, interval, true);
    } else {
      assert i > 0;
      HandGoesOn(cur, interval, i - 1);
      hide Delay, HandAfter;
      var hand := HandAfter(cur, interval, 1);
      if Returns(Added(cur, interval, true), hand) {
        var m := WrongLater(hand, interval, i - 1);
        n := m + interval;
        Rounds(n, interval);
      } else {
        n := 2 * interval;
        Rounds(n, interval);
        Rounds(interval, interval);
      }
    }
  }

  /** A timer whose interval is not a whole number of turns fires after every `interval` ticks, or once if it
      does not repeat, whatever other timers do, as long as the slot sum does not wrap. */
  lemma FiresOnTime<K>(w: World<K>, k: K, interval: nat, repeat: bool, es: seq<Event<K>>)
    requires Sane(w) && interval >= 1 && Untouched(es, k)
    requires interval % COUNT_TICKS != 0 && NeverWraps(w.cur, interval, repeat)
    ensures Calls(Next(w, Add(k, interval, repeat)), es, k) == Expected(Ticks(es), interval, repeat)
  {
    hide Delay, Calls, Schedule, Expected, NeverWraps;
    KeepsSchedule(Next(w, Add(k, interval, repeat)), es, k);
    InTime(Ticks(es), w.cur, interval, repeat);
  }

  /** A timer whose interval is a whole number of turns fires one turn late, and never again. */
  lemma WholeTurnsFireOnceLate<K>(w: World<K>, k: K, interval: nat, repeat: bool, es: seq<Event<K>>)
    requires Sane(w) && interval >= 1 && w.cur + interval < UINT64_RANGE && Untouched(es, k)
    requires interval % COUNT_TICKS == 0
    ensures Calls(Next(w, Add(k, interval, repeat)), es, k) == if Ticks(es) >= interval + COUNT_TICKS then 1 else 0
  {
    DelayIs(w.cur, interval);
    hide Delay, Calls, Returns;
    KeepsSchedule(Next(w, Add(k, interval, repeat)), es, k);
    NeverReturns(w.cur, interval, repeat);
  }

  lemma NeverReturns(cur: nat, interval: nat, repeat: bool)
    requires cur < COUNT_TICKS && cur + interval < UINT64_RANGE && interval % COUNT_TICKS == 0
    ensures var c := Added(cur, interval, repeat);
            (cur + c.left) % COUNT_TICKS == cur && !Returns(c, cur)
  {
    DelayIs(cur, interval);
    hide Delay;
  }

  /** So, of all machine words, the promise holds of exactly the intervals that are no whole number of turns and whose
      slot sum never wraps. */
  lemma OnTimeExactlyWhen<K>(w: World<K>, k: K, interval: nat, repeat: bool)
    requires Sane(w) && 1 <= interval < UINT64_RANGE
    ensures (forall es: seq<Event<K>> :: Untouched(es, k) ==>
               Calls(Next(w, Add(k, interval, repeat)), es, k) == Expected(Ticks(es), interval, repeat))
       <==> interval % COUNT_TICKS != 0 && NeverWraps(w.cur, interval, repeat)
  {
    hide Delay, Calls, Schedule, Expected, HandAfter;
    if interval % COUNT_TICKS != 0 && NeverWraps(w.cur, interval, repeat) {
      forall es: seq<Event<K>> | Untouched(es, k)
        ensures Calls(Next(w, Add(k, interval, repeat)), es, k) == Expected(Ticks(es), interval, repeat)
      {
        FiresOnTime(w, k, interval, repeat, es);
      }
    } else {
      var n := GoesWrong(w.cur, interval, repeat);
      var es: seq<Event<K>> := seq(n, _ => Tick);
      AllTicks(es);
      KeepsSchedule(Next(w, Add(k, interval, repeat)), es, k);
      assert Untouched(es, k);
    }
  }

  lemma GoesWrong(cur: nat, interval: nat, repeat: bool) returns (n: nat)
    requires cur < COUNT_TICKS && 1 <= interval < UINT64_RANGE
    requires interval % COUNT_TICKS == 0 || !NeverWraps(cur, interval, repeat)
    ensures Schedule(n, Added(cur, interval, repeat), cur) != Expected(n, interval, repeat)
  {
    hide Delay, Schedule, Expected, HandAfter;
    WaitsItsInterval(cur, interval);
    if Delay(cur, interval) != interval {
      n := WrongAtOnce(cur, interval, repeat);
    } else {
      var i: nat :| i < COUNT_TICKS && HandAfter(cur, interval, i) + interval >= UINT64_RANGE;
      n := WrongLater(cur, interval, i);
    }
  }

  lemma {:induction false} AllTicks<K>(es: seq<Event<K>>)
    requires forall i :: 0 <= i < |es| ==> es[i].Tick?
    ensures Ticks(es) == |es|
    decreases |es|
  {
    if es != [] { AllTicks(es[1..]); }
  }

  // ---------------------------------------------------------------- the wheel over whole runs

  /** What is asked of the wheel. A timer is deleted by the handle that adding it gave. */
  datatype Command = AddTimer(interval: nat, repeat: bool) | DelTimer(handle: nat) | Timeout

  /** An interval of 0 makes no timer. */
  predicate Makes(c: Command) { c.AddTimer? && c.interval > 0 }

  /** How many timers are made. */
  function Additions(cs: seq<Command>): nat {
    if cs == [] then 0 else Additions(cs[..|cs| - 1]) + if Makes(cs[|cs| - 1]) then 1 else 0
  }

  /** What a command that makes no timer does to those made so far. */
  function EventOf<K>(c: Command, made: seq<K>): seq<Event<K>> {
    match c
    case AddTimer(_, _) => []
    case DelTimer(i) => if i < |made| then [Del(made[i])] else []
    case Timeout => [Tick]
  }

  /** The commands as events of the plain picture, with the timers `made` for them. */
  function EventsOf<K>(cs: seq<Command>, made: seq<K>): seq<Event<K>>
    requires |made| == Additions(cs)
    decreases |cs|
  {
    if cs == [] then []
    else
      var before, c := cs[..|cs| - 1], cs[|cs| - 1];
      if Makes(c) then EventsOf(before, made[..|made| - 1]) + [Add(made[|made| - 1], c.interval, c.repeat)]
      else EventsOf(before, made) + EventOf(c, made)
  }

  lemma {:induction false} RunSnoc<K>(w: World<K>, es: seq<Event<K>>, e: Event<K>)
    requires Sane(w)
    ensures Run(w, es + [e]) == Next(Run(w, es), e)
    decreases |es|
  {
    hide Next;
    if es == [] {
      assert [e][1..] == [] && es + [e] == [e];
    } else {
      assert (es + [e])[1..] == es[1..] + [e];
      RunSnoc(Next(w, es[0]), es[1..], e);
    }
  }

  /** The calls of one more event. */
  function CallsNext<K(==)>(w: World<K>, e: Event<K>, k: K): nat {
    if e.Tick? && k in w.timers then Fires(w.timers[k]) else 0
  }

  lemma {:induction false} CallsSnoc<K>(w: World<K>, es: seq<Event<K>>, e: Event<K>, k: K)
    requires Sane(w)
    ensures Calls(w, es + [e], k) == Calls(w, es, k) + CallsNext(Run(w, es), e, k)
    decreases |es|
  {
    hide Next, Fires;
    if es == [] {
      assert [e][1..] == [] && es + [e] == [e];
    } else {
      assert (es + [e])[1..] == es[1..] + [e];
      CallsSnoc(Next(w, es[0]), es[1..], e, k);
    }
  }

  /** The wheel is where the events lead from `start`, and every timer known has been called as often as they say;
      `calls` counts the calls at the start. */
  ghost predicate Follows(w: Wheel, start: World<Timer>, es: seq<Event<Timer>>, calls: map<Timer, nat>)
    requires Sane(start) && w.Valid()
    reads w, w.wheel, w.timers, calls.Keys
  {
    && World(w.cur, w.Countdowns()) == Run(start, es)
    && w.timers <= calls.Keys && start.timers.Keys <= calls.Keys
    && (forall i :: 0 <= i < |es| ==> es[i].Tick? || es[i].key in calls)
    && forall t :: t in calls ==> t.calls == calls[t] + Calls(start, es, t)
  }

  /** One more event is Next of the wheel as it was, and calls as it says. */
  lemma FollowsNext(w: Wheel, start: World<Timer>, es: seq<Event<Timer>>, e: Event<Timer>, was: World<Timer>,
                    counts: map<Timer, nat>, calls: map<Timer, nat>)
    requires Sane(start) && w.Valid() && was == Run(start, es) && World(w.cur, w.Countdowns()) == Next(was, e)
    requires w.timers <= calls.Keys && start.timers.Keys <= calls.Keys && counts.Keys == calls.Keys
    requires forall i :: 0 <= i < |es| ==> es[i].Tick? || es[i].key in calls
    requires e.Tick? || e.key in calls
    requires forall t :: t in calls ==> counts[t] == calls[t] + Calls(start, es, t)
    requires forall t :: t in calls ==> t.calls == counts[t] + CallsNext(was, e, t)
    ensures Follows(w, start, es + [e], calls)
  {
    hide Run, Next, Calls, CallsNext;
    RunSnoc(start, es, e);
    forall t | t in calls ensures t.calls == calls[t] + Calls(start, es + [e], t) {
      CallsSnoc(start, es, e, t);
    }
  }

  ghost function CallsOf(ts: set<Timer>): map<Timer, nat>
    reads ts
  {
    map t | t in ts :: t.calls
  }

  method ObeyAdd(w: Wheel, interval: nat, repeat: bool, ghost start: World<Timer>, ghost es: seq<Event<Timer>>,
                 ghost calls: map<Timer, nat>)
    returns (timer: Timer)
    requires w.Valid() && Sane(start) && Follows(w, start, es, calls) && 0 < interval < UINT64_RANGE
    modifies w, w.wheel
    ensures w.Valid() && fresh(timer) && timer !in calls && w.timers == old(w.timers) + {timer}
    ensures Follows(w, start, es + [Add(timer, interval, repeat)], calls[timer := 0])
  {
    hide Run, Calls, Delay, Due, SlotFor;
    ghost var was, counts := World(w.cur, w.Countdowns()), CallsOf(calls.Keys);
    timer := w.AddTimer(interval, repeat);
    Silent(start, es, timer);
    FollowsNext(w, start, es, Add(timer, interval, repeat), was, counts[timer := 0], calls[timer := 0]);
  }

  method ObeyDel(w: Wheel, timer: Timer, ghost start: World<Timer>, ghost es: seq<Event<Timer>>,
                 ghost calls: map<Timer, nat>)
    requires w.Valid() && Sane(start) && Follows(w, start, es, calls) && timer in calls
    modifies w, w.wheel
    ensures w.Valid() && w.timers <= old(w.timers)
    ensures Follows(w, start, es + [Del(timer)], calls)
  {
    hide Run, Calls, Delay, Due, SlotFor;
    ghost var was, counts := World(w.cur, w.Countdowns()), CallsOf(calls.Keys);
    w.DelTimerLoop(timer);
    FollowsNext(w, start, es, Del(timer), was, counts, calls);
  }

  method ObeyTick(w: Wheel, ghost start: World<Timer>, ghost es: seq<Event<Timer>>, ghost calls: map<Timer, nat>)
    requires w.Valid() && Sane(start) && Follows(w, start, es, calls)
    modifies w, w.wheel, w.timers
    ensures w.Valid() && w.timers <= old(w.timers)
    ensures Follows(w, start, es + [Tick], calls)
  {
    hide Run, Calls, TickAll, Fires;
    ghost var was, counts := World(w.cur, w.Countdowns()), CallsOf(calls.Keys);
    w.HandleTimeout();
    FollowsNext(w, start, es, Tick, was, counts, calls);
  }

  method ObeyNone(w: Wheel, repeat: bool, ghost start: World<Timer>, ghost es: seq<Event<Timer>>,
                  ghost calls: map<Timer, nat>)
    requires w.Valid() && Sane(start) && Follows(w, start, es, calls)
    modifies w, w.wheel
    ensures w.Valid() && Follows(w, start, es, calls) && w.timers == old(w.timers)
  {
    hide Run, Calls, Delay, Due, SlotFor;
    ghost var was := w.Countdowns();
    var none := w.AddTimer(0, repeat);
    assert w.timers == was.Keys;
  }

  /** One command: its event, and the timer it makes. */
  method Obey(w: Wheel, c: Command, made: seq<Timer>, ghost start: World<Timer>, ghost es: seq<Event<Timer>>,
              ghost calls: map<Timer, nat>)
    returns (all: seq<Timer>)
    requires w.Valid() && Sane(start) && Follows(w, start, es, calls)
    requires (c.AddTimer? ==> c.interval < UINT64_RANGE) && forall t <- made :: t in calls
    modifies w, w.wheel, w.timers
    ensures w.Valid() && if Makes(c) then |all| == |made| + 1 && all[..|made|] == made else all == made
    ensures Makes(c) ==>
              var timer := all[|made|];
              && fresh(timer) && timer !in calls && w.timers == old(w.timers) + {timer}
              && Follows(w, start, es + [Add(timer, c.interval, c.repeat)], calls[timer := 0])
    ensures !Makes(c) ==> w.timers <= old(w.timers) && Follows(w, start, es + EventOf(c, made), calls)
  {
    hide Follows;
    all := made;
    if Makes(c) {
      var timer := ObeyAdd(w, c.interval, c.repeat, start, es, calls);
      all := made + [timer];
    } else {
      assert es + [] == es;
      match c
      case AddTimer(_, repeat) => ObeyNone(w, repeat, start, es, calls);
      case DelTimer(handle) => if handle < |made| { ObeyDel(w, made[handle], start, es, calls); }
      case Timeout => ObeyTick(w, start, es, calls);
    }
  }

  /** Any commands drive the wheel as their events drive the plain picture, and every timer is called back as
      often as the events say. */
  method Drive(w: Wheel, commands: seq<Command>) returns (made: seq<Timer>)
    requires w.Valid()
    requires forall i :: 0 <= i < |commands| && commands[i].AddTimer? ==> commands[i].interval < UINT64_RANGE
    modifies w, w.wheel, w.timers
    ensures w.Valid() && |made| == Additions(commands) && forall i :: 0 <= i < |made| ==> fresh(made[i])
    ensures var start, es := old(World(w.cur, w.Countdowns())), EventsOf(commands, made);
            && World(w.cur, w.Countdowns()) == Run(start, es)
            && (forall t :: t in old(w.timers) ==> t.calls == old(t.calls) + Calls(start, es, t))
            && (forall i :: 0 <= i < |made| ==> made[i].calls == Calls(start, es, made[i]))
  {
    hide Run, Calls, Follows, Additions, EventsOf, EventOf;
    made := [];
    ghost var start, calls := World(w.cur, w.Countdowns()), CallsOf(w.timers);
    ghost var es: seq<Event<Timer>> := [];
    Starts(w);
    for i := 0 to |commands|
      invariant w.Valid() && |made| == Additions(commands[..i]) && es == EventsOf(commands[..i], made)
      invariant forall j :: 0 <= j < |made| ==> fresh(made[j]) && made[j] in calls && calls[made[j]] == 0
      invariant forall t :: t in old(w.timers) ==> t in calls && calls[t] == old(t.calls)
      invariant forall t :: t in w.timers ==> t in old(w.timers) || fresh(t)
      invariant Follows(w, start, es, calls)
    {
      ghost var next := commands[..i + 1];
      assert next[..i] == commands[..i] && next[i] == commands[i];
      NextEvent(next, made);
      var all := Obey(w, commands[i], made, start, es, calls);
      if Makes(commands[i]) {
        LastMade(next, made, all[|made|]);
        assert all == made + [all[|made|]];
        calls, es := calls[all[|made|] := 0], es + [Add(all[|made|], commands[i].interval, commands[i].repeat)];
      } else {
        es := es + EventOf(commands[i], made);
      }
      made := all;
    }
    assert commands[..|commands|] == commands;
    Followed(w, start, es, calls);
  }

  lemma Starts(w: Wheel)
    requires w.Valid()
    ensures Additions([]) == 0 && EventsOf<Timer>([], []) == []
    ensures Follows(w, World(w.cur, w.Countdowns()), [], CallsOf(w.timers))
  {
  }

  lemma Followed(w: Wheel, start: World<Timer>, es: seq<Event<Timer>>, calls: map<Timer, nat>)
    requires w.Valid() && Sane(start) && Follows(w, start, es, calls)
    ensures World(w.cur, w.Countdowns()) == Run(start, es)
    ensures forall t :: t in calls ==> t.calls == calls[t] + Calls(start, es, t)
  {
  }

  /** The event of the last command, unless it makes a timer. */
  lemma NextEvent<K>(cs: seq<Command>, made: seq<K>)
    requires cs != [] && |made| == Additions(cs[..|cs| - 1])
    ensures !Makes(cs[|cs| - 1]) ==>
              && Additions(cs) == |made|
              && EventsOf(cs, made) == EventsOf(cs[..|cs| - 1], made) + EventOf(cs[|cs| - 1], made)
  {
  }

  lemma LastMade<K>(cs: seq<Command>, made: seq<K>, timer: K)
    requires cs != [] && |made| == Additions(cs[..|cs| - 1])
    requires Makes(cs[|cs| - 1])
    ensures Additions(cs) == |made + [timer]|
    ensures EventsOf(cs, made + [timer])
         == EventsOf(cs[..|cs| - 1], made) + [Add(timer, cs[|cs| - 1].interval, cs[|cs| - 1].repeat)]
  {
    assert (made + [timer])[..|made|] == made;
  }
}
