/** base/BlockQueue.h: the bounded queue with one mutex and two condition variables, shared by any number of
    producers and consumers. Barging and spurious wakeups are allowed. */
module BlockQueues {
  import opened Counting

  /** A thread inside a call: about to lock the mutex; waiting on its condition; woken but without the mutex. */
  datatype Point = WantPush | WaitPush | WokenPush | WantPop | WaitPop | WokenPop

  datatype State<T> = State(
    capacity: int, queue: seq<T>, used: int,
    pc: map<Tid, Point>, item: map<Tid, T>,    // the threads inside a call, and what each producer brings
    pushed: seq<T>, popped: seq<T>)            // history
  {
    /** What keeps queue_.front() defined, and what a producer needs to push. */
    ghost predicate Consistent() {
      && used == |queue|
      && (forall t :: t in pc && pc[t] in {WantPush, WaitPush, WokenPush} ==> t in item)
    }
  }

  function Init<T>(capacity: int): State<T> {
    State(capacity, [], 0, map[], map[], [], [])
  }

  datatype Step<T> =
    | CallPush(t: Tid, x: T)
    | CallPop(t: Tid)
    | PassPush(t: Tid, w: set<Tid>)   // one pass of push_back's critical section; w are the threads it wakes
    | PassPop(t: Tid, w: set<Tid>)
    | Spurious(t: Tid)                // a condition wait returns without a signal

  ghost predicate Enabled<T>(s: State<T>, e: Step<T>) {
    match e
    case CallPush(t, _) => t !in s.pc
    case CallPop(t) => t !in s.pc
    case PassPush(t, w) =>
      && t in s.pc && (s.pc[t] == WantPush || s.pc[t] == WokenPush)
      && if s.used == s.capacity then w == {} else Signals(s.pc - {t}, WaitPop, w)
    case PassPop(t, w) =>
      && t in s.pc && (s.pc[t] == WantPop || s.pc[t] == WokenPop)
      && if s.used == 0 then w == {} else Signals(s.pc - {t}, WaitPush, w)
    case Spurious(t) => t in s.pc && (s.pc[t] == WaitPush || s.pc[t] == WaitPop)
  }

  /** The new state. A thread that finishes its call leaves pc. */
  ghost function Next<T>(s: State<T>, e: Step<T>): (s': State<T>)
    requires s.Consistent() && Enabled(s, e)
    ensures s'.Consistent() && s'.capacity == s.capacity
  {
    match e
    case CallPush(t, x) => s.(pc := s.pc[t := WantPush], item := s.item[t := x])
    case CallPop(t) => s.(pc := s.pc[t := WantPop])
    case PassPush(t, w) =>
      if s.used == s.capacity then s.(pc := s.pc[t := WaitPush])
      else
        s.(queue := s.queue + [s.item[t]], used := s.used + 1, pushed := s.pushed + [s.item[t]],
           pc := Moved(s.pc - {t}, w, WokenPop))
    case PassPop(t, w) =>
      if s.used == 0 then s.(pc := s.pc[t := WaitPop])
      else
        s.(queue := s.queue[1..], used := s.used - 1, popped := s.popped + [s.queue[0]],
           pc := Moved(s.pc - {t}, w, WokenPush))
    case Spurious(t) => s.(pc := s.pc[t := if s.pc[t] == WaitPush then WokenPush else WokenPop])
  }

  ghost predicate Trace<T>(s: State<T>, es: seq<Step<T>>)
    requires s.Consistent()
    decreases |es|
  {
    es == [] || (Enabled(s, es[0]) && Trace(Next(s, es[0]), es[1..]))
  }

  ghost function After<T>(s: State<T>, es: seq<Step<T>>): (s': State<T>)
    requires s.Consistent() && Trace(s, es)
    ensures s'.Consistent()
    decreases |es|
  {
    if es == [] then s else After(Next(s, es[0]), es[1..])
  }

  /** Waiting consumers leave at most as many items as there are consumers already woken for them. */
  ghost predicate PopCovered<T>(s: State<T>) {
    At(s.pc, WaitPop) != {} ==> s.used <= |At(s.pc, WokenPop)|
  }

  /** Waiting producers leave at most as many free slots as there are producers already woken for them
      (and nobody ever waits to push when the capacity is negative). */
  ghost predicate PushCovered<T>(s: State<T>) {
    At(s.pc, WaitPush) != {} ==> 0 <= s.capacity && s.capacity - s.used <= |At(s.pc, WokenPush)|
  }

  ghost predicate Inv<T>(s: State<T>) {
    && s.Consistent() && PopCovered(s) && PushCovered(s)
    && (s.capacity >= 0 ==> s.used <= s.capacity)
    && s.pushed == s.popped + s.queue
  }

  /** How a step changes the number of threads at a point. */
  lemma CountsOfPass<T>(pc: map<Tid, Point>, t: Tid, w: set<Tid>, from: Point, to: Point, p: Point)
    requires t in pc && from != to && pc[t] != from && Signals(pc - {t}, from, w)
    ensures var pc' := Moved(pc - {t}, w, to);
      |At(pc', p)| == |At(pc, p)| - (if pc[t] == p then 1 else 0)
        + (if p == to then |w| else 0) - (if p == from then |w| else 0)
    ensures At(pc - {t}, from) == At(pc, from)
    ensures At(Moved(pc - {t}, w, to), from) != {} ==> |w| > 0
  {
    AtLeave(pc, t, p);
    AtMoved(pc - {t}, w, from, to, p);
    assert At(pc - {t}, from) == At(pc, from);
    if x :| x in At(Moved(pc - {t}, w, to), from) {
      assert x in At(pc - {t}, from);
      assert w != {};
    }
  }

  lemma PushPass<T>(s: State<T>, t: Tid, w: set<Tid>)
    requires Inv(s) && Enabled(s, PassPush(t, w))
    ensures Inv(Next(s, PassPush(t, w)))
  {
    var s' := Next(s, PassPush(t, w));
    if s.used == s.capacity {
      AtMove(s.pc, t, WaitPush, WokenPop);
      AtMove(s.pc, t, WaitPush, WokenPush);
      AtMove(s.pc, t, WaitPush, WaitPop);
    } else {
      CountsOfPass<T>(s.pc, t, w, WaitPop, WokenPop, WokenPop);
      CountsOfPass<T>(s.pc, t, w, WaitPop, WokenPop, WaitPop);
      CountsOfPass<T>(s.pc, t, w, WaitPop, WokenPop, WokenPush);
      CountsOfPass<T>(s.pc, t, w, WaitPop, WokenPop, WaitPush);
      assert s.popped + (s.queue + [s.item[t]]) == (s.popped + s.queue) + [s.item[t]];
    }
  }

  lemma PopPass<T>(s: State<T>, t: Tid, w: set<Tid>)
    requires Inv(s) && Enabled(s, PassPop(t, w))
    ensures Inv(Next(s, PassPop(t, w)))
  {
    if s.used == 0 {
      AtMove(s.pc, t, WaitPop, WokenPop);
      AtMove(s.pc, t, WaitPop, WokenPush);
      AtMove(s.pc, t, WaitPop, WaitPush);
    } else {
      CountsOfPass<T>(s.pc, t, w, WaitPush, WokenPush, WokenPop);
      CountsOfPass<T>(s.pc, t, w, WaitPush, WokenPush, WaitPop);
      CountsOfPass<T>(s.pc, t, w, WaitPush, WokenPush, WokenPush);
      CountsOfPass<T>(s.pc, t, w, WaitPush, WokenPush, WaitPush);
      assert s.queue == [s.queue[0]] + s.queue[1..];
      assert s.popped + [s.queue[0]] + s.queue[1..] == s.popped + s.queue;
    }
  }

  lemma InvStep<T>(s: State<T>, e: Step<T>)
    requires Inv(s) && Enabled(s, e)
    ensures Inv(Next(s, e))
  {
    match e
    case PassPush(t, w) => PushPass(s, t, w);
    case PassPop(t, w) => PopPass(s, t, w);
    case CallPush(t, _) =>
      forall p { AtMove(s.pc, t, WantPush, p); }
    case CallPop(t) =>
      forall p { AtMove(s.pc, t, WantPop, p); }
    case Spurious(t) =>
      forall p { AtMove(s.pc, t, if s.pc[t] == WaitPush then WokenPush else WokenPop, p); }
  }

  lemma {:induction false} InvAlways<T>(s: State<T>, es: seq<Step<T>>)
    requires Inv(s) && Trace(s, es)
    ensures Inv(After(s, es)) && After(s, es).capacity == s.capacity
    decreases |es|
  {
    if es != [] {
      InvStep(s, es[0]);
      InvAlways(Next(s, es[0]), es[1..]);
    }
  }

  // ---- what was pushed, read off the events ----

  lemma {:induction false} LastStep<T>(s: State<T>, es: seq<Step<T>>)
    requires s.Consistent() && Trace(s, es) && es != []
    ensures var front, e := es[..|es| - 1], es[|es| - 1];
      Trace(s, front) && Enabled(After(s, front), e) && After(s, es) == Next(After(s, front), e)
    decreases |es|
  {
    hide Enabled, Next;
    if |es| > 1 {
      LastStep(Next(s, es[0]), es[1..]);
      assert es[..|es| - 1][0] == es[0] && es[..|es| - 1][1..] == es[1..][..|es| - 2];
    } else {
      assert es[..0] == [] && es[1..] == [];
    }
  }

  /** The items of the completed calls of push_back, in the order of completion: a call completes when a pass takes
      the thread out of it, and its item is the argument of the thread's last call. */
  ghost function PushedBy<T>(s0: State<T>, es: seq<Step<T>>): seq<T>
    requires s0.Consistent() && Trace(s0, es)
  {
    if es == [] then []
    else
      LastStep(s0, es);
      var front, e := es[..|es| - 1], es[|es| - 1];
      PushedBy(s0, front) + if e.PassPush? && e.t !in After(s0, es).pc then LastCall(front, e.t) else []
  }

  function LastCall<T>(es: seq<Step<T>>, t: Tid): seq<T> {
    if es == [] then []
    else
      var e := es[|es| - 1];
      if e.CallPush? && e.t == t then [e.x] else LastCall(es[..|es| - 1], t)
  }

  ghost function PopsBy<T>(s0: State<T>, es: seq<Step<T>>): nat
    requires s0.Consistent() && Trace(s0, es)
  {
    if es == [] then 0
    else
      LastStep(s0, es);
      var front, e := es[..|es| - 1], es[|es| - 1];
      PopsBy(s0, front) + if e.PassPop? && e.t !in After(s0, es).pc then 1 else 0
  }

  predicate Pushing(p: Point) { p == WantPush || p == WaitPush || p == WokenPush }

  lemma PassEffect<T>(s: State<T>, e: Step<T>)
    requires s.Consistent() && Enabled(s, e)
    ensures var s' := Next(s, e);
      && s'.pushed == s.pushed + (if e.PassPush? && e.t !in s'.pc then [s.item[e.t]] else [])
      && |s'.popped| == |s.popped| + (if e.PassPop? && e.t !in s'.pc then 1 else 0)
      && (e.PassPush? ==> Pushing(s.pc[e.t]))
      && forall t :: t in s'.pc && Pushing(s'.pc[t]) ==>
           t in s'.item && (if e == CallPush(t, s'.item[t]) then true
                            else !(e.CallPush? && e.t == t) && t in s.pc && Pushing(s.pc[t]) && s'.item[t] == s.item[t])
  {
    assert s.pushed + [] == s.pushed;
  }

  lemma {:induction false} PushedIs<T>(capacity: int, es: seq<Step<T>>)
    requires Trace(Init<T>(capacity), es)
    ensures var s0 := Init<T>(capacity);
      var s := After(s0, es);
      && s.pushed == PushedBy(s0, es) && |s.popped| == PopsBy(s0, es)
      && forall t :: t in s.pc && Pushing(s.pc[t]) ==> t in s.item && LastCall(es, t) == [s.item[t]]
    decreases |es|
  {
    if es != [] {
      var s0 := Init<T>(capacity);
      var front, e := es[..|es| - 1], es[|es| - 1];
      LastStep(s0, es);
      PushedIs(capacity, front);
      PassEffect(After(s0, front), e);
      hide Next, Enabled, After, Trace;
    }
  }

  /** First in, first out, within the capacity: in every run the items of the completed pushes, in order, are what was
      popped followed by what is queued, and as many were popped as calls of pop_front completed. */
  lemma QueueFifo<T>(capacity: int, es: seq<Step<T>>)
    requires Trace(Init<T>(capacity), es)
    ensures var s0 := Init<T>(capacity);
      var s := After(s0, es);
      && PushedBy(s0, es) == s.popped + s.queue && |s.popped| == PopsBy(s0, es) && s.used == |s.queue|
      && (capacity >= 0 ==> |s.queue| <= capacity)
  {
    InvAlways(Init<T>(capacity), es);
    PushedIs(capacity, es);
  }

  /** No thread can take a step by itself: everybody inside a call is waiting, nobody woken or about to lock. */
  ghost predicate Quiet<T>(s: State<T>) {
    forall t :: t in s.pc ==> s.pc[t] == WaitPush || s.pc[t] == WaitPop
  }

  /** In a quiet state consumers wait only on an empty queue and producers only on a full one. */
  lemma WaitersHaveCause<T>(s: State<T>)
    requires Inv(s) && Quiet(s)
    ensures At(s.pc, WaitPop) != {} ==> s.queue == []
    ensures At(s.pc, WaitPush) != {} ==> |s.queue| == s.capacity
  {
    assert At(s.pc, WokenPop) == {} && At(s.pc, WokenPush) == {};
  }

  /** No lost signal: an item in front of a waiting consumer has a woken consumer coming for it, and a free slot in
      front of a waiting producer has a woken producer. */
  lemma NoLostSignal<T>(capacity: int, es: seq<Step<T>>)
    requires Trace(Init<T>(capacity), es)
    ensures var s := After(Init<T>(capacity), es);
      && (At(s.pc, WaitPop) != {} && s.queue != [] ==> At(s.pc, WokenPop) != {})
      && (At(s.pc, WaitPush) != {} && |s.queue| < capacity ==> At(s.pc, WokenPush) != {})
  {
    InvAlways(Init<T>(capacity), es);
    var s := After(Init<T>(capacity), es);
    assert |At(s.pc, WokenPop)| > 0 ==> At(s.pc, WokenPop) != {};
    assert |At(s.pc, WokenPush)| > 0 ==> At(s.pc, WokenPush) != {};
  }

  /** Producers and consumers all waiting for each other. */
  ghost predicate Deadlocked<T>(s: State<T>) {
    Quiet(s) && At(s.pc, WaitPush) != {} && At(s.pc, WaitPop) != {}
  }

  ghost predicate CanDeadlock<T(!new)>(capacity: int) {
    exists es: seq<Step<T>> :: Trace(Init<T>(capacity), es) && Deadlocked(After(Init<T>(capacity), es))
  }

  /** Deadlock freedom, exactly: producers and consumers can end up all waiting if and only if the capacity is 0. */
  lemma DeadlockOnlyAtZero<T(!new)>(capacity: int, x: T)
    ensures CanDeadlock<T>(capacity) <==> capacity == 0
  {
    if es: seq<Step<T>> :| Trace(Init<T>(capacity), es) && Deadlocked(After(Init<T>(capacity), es)) {
      InvAlways(Init<T>(capacity), es);
      WaitersHaveCause(After(Init<T>(capacity), es));
    }
    if capacity == 0 {
      ZeroDeadlocks(x);
    }
  }

  lemma ZeroDeadlocks<T(!new)>(x: T)
    ensures CanDeadlock<T>(0)
  {
    var s0 := Init<T>(0);
    var s1 := Next(s0, CallPush(0, x));
    var s2 := Next(s1, PassPush(0, {}));
    var s3 := Next(s2, CallPop(1));
    var s4 := Next(s3, PassPop(1, {}));
    var es := [CallPush(0, x)] + ([PassPush(0, {})] + ([CallPop(1)] + ([PassPop(1, {})] + [])));
    hide Next, Enabled;
    Prepend(s3, PassPop(1, {}), []);
    Prepend(s2, CallPop(1), [PassPop(1, {})] + []);
    Prepend(s1, PassPush(0, {}), [CallPop(1)] + ([PassPop(1, {})] + []));
    Prepend(s0, CallPush(0, x), [PassPush(0, {})] + ([CallPop(1)] + ([PassPop(1, {})] + [])));
    assert 0 in At(s4.pc, WaitPush) && 1 in At(s4.pc, WaitPop);
  }

  lemma Prepend<T>(s: State<T>, e: Step<T>, es: seq<Step<T>>)
    requires s.Consistent() && Enabled(s, e) && Trace(Next(s, e), es)
    ensures Trace(s, [e] + es) && After(s, [e] + es) == After(Next(s, e), es)
  {
    hide Enabled, Next;
    assert ([e] + es)[1..] == es;
  }

  // ---- the object ----

  /** The queue's fields. Each method is one pass of the critical section: the loop test, then either the wait (the
      thread goes to sleep and releases the mutex) or the operation, the signal and the unlock. */
  class BlockQueue<T> {
    var queue_: seq<T>
    var used: int
    const capacity: int
    ghost var pc: map<Tid, Point>
    ghost var item: map<Tid, T>
    ghost var pushed: seq<T>
    ghost var popped: seq<T>

    ghost function Abs(): State<T>
      reads this
    {
      State(capacity, queue_, used, pc, item, pushed, popped)
    }

    constructor (maxSize: int)
      ensures Abs() == Init(maxSize)
    {
      queue_, used, capacity := [], 0, maxSize;
      pc, item, pushed, popped := map[], map[], [], [];
    }

    method PushBack(x: T, ghost t: Tid, ghost w: set<Tid>) returns (done: bool)
      requires Abs().Consistent() && Enabled(Abs(), PassPush(t, w)) && item[t] == x
      modifies this
      ensures Abs() == Next(old(Abs()), PassPush(t, w))
      ensures done <==> old(used) != capacity
      ensures queue_ == old(queue_) + if done then [x] else []
    {
      if used == capacity {
        pc := pc[t := WaitPush];
        return false;
      }
      queue_ := queue_ + [x];
      used := used + 1;
      pushed, pc := pushed + [x], Moved(pc - {t}, w, WokenPop);
      return true;
    }

    method PopFront(ghost t: Tid, ghost w: set<Tid>) returns (done: bool, x: seq<T>)
      requires Abs().Consistent() && Enabled(Abs(), PassPop(t, w))
      modifies this
      ensures Abs() == Next(old(Abs()), PassPop(t, w))
      ensures done <==> old(used) != 0
      ensures |x| == (if done then 1 else 0) && x + queue_ == old(queue_)
    {
      if used == 0 {
        pc := pc[t := WaitPop];
        return false, [];
      }
      x := [queue_[0]];
      queue_ := queue_[1..];
      used := used - 1;
      popped, pc := popped + x, Moved(pc - {t}, w, WokenPush);
      done := true;
    }
  }
}
