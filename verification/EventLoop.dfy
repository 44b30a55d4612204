/** net/EventLoop.cc: the task hand-off between threads and a loop, woken through an eventfd.
    Any number of threads interleave; a thread is a natural number and thread 0 is the loop's own. */
module EventLoops {
  import opened Counting

  const LOOP_TID: Tid := 0

  /** The eventfd counter cannot exceed this; a write that would do so fails and leaves it alone. */
  const MAX_COUNT: nat := 0xffff_ffff_ffff_fffe

  /** Where the loop is: blocked in (or about to enter) epollWait; handling events, up to the swap of tasks_;
      running the swapped-out tasks. */
  datatype LoopPc = Waiting | Handling | Running

  datatype State<T> = State(
    tasks: seq<T>,            // tasks_
    count: nat,               // the eventfd counter
    pushed: set<Tid>,         // callers of queueInLoop between the push and the wakeup
    pc: LoopPc,
    batch: seq<T>,            // what is left of t_task
    executed: seq<T>,
    submitted: seq<T>)        // everything pushed, in the order of the pushes

  function Init<T>(): State<T> {
    State([], 0, {}, Waiting, [], [], [])
  }

  function Bump(count: nat): nat {
    if count < MAX_COUNT then count + 1 else count
  }

  /** A thread may start queueInLoop when it is not inside it already; the loop's own thread only from an event
      handler or a task. */
  predicate MayCall<T>(s: State<T>, t: Tid) {
    t !in s.pushed && (t == LOOP_TID ==> s.pc != Waiting)
  }

  /** The atomic steps. A step of the loop's own program waits for a call it is itself making. */
  datatype Step<T> =
    | Push(t: Tid, task: T)   // tasks_.push_back under the mutex
    | Wake(t: Tid)            // write(wakeupFd)
    | WaitReturns             // epollWait returns: an event, or the timeout of 10 s
    | ReadCount               // the wakeup channel's handler reads the eventfd
    | Swap                    // tasks_.swap(t_task) under the mutex
    | RunTask                 // the next task of t_task
    | Again                   // t_task is empty: next round

  predicate Enabled<T>(s: State<T>, e: Step<T>) {
    match e
    case Push(t, _) => MayCall(s, t)
    case Wake(t) => t in s.pushed
    case WaitReturns => s.pc == Waiting
    case ReadCount => s.pc == Handling && LOOP_TID !in s.pushed
    case Swap => s.pc == Handling && LOOP_TID !in s.pushed
    case RunTask => s.pc == Running && LOOP_TID !in s.pushed && s.batch != []
    case Again => s.pc == Running && LOOP_TID !in s.pushed && s.batch == []
  }

  function Next<T>(s: State<T>, e: Step<T>): State<T>
    requires Enabled(s, e)
  {
    match e
    case Push(t, task) =>
      s.(tasks := s.tasks + [task], submitted := s.submitted + [task], pushed := s.pushed + {t})
    case Wake(t) => s.(count := Bump(s.count), pushed := s.pushed - {t})
    case WaitReturns => s.(pc := Handling)
    case ReadCount => s.(count := 0)
    case Swap => s.(batch := s.tasks, tasks := [], pc := Running)
    case RunTask => s.(batch := s.batch[1..], executed := s.executed + [s.batch[0]])
    case Again => s.(pc := Waiting)
  }

  ghost predicate Trace<T>(s: State<T>, es: seq<Step<T>>)
    decreases |es|
  {
    es == [] || (Enabled(s, es[0]) && Trace(Next(s, es[0]), es[1..]))
  }

  ghost function After<T>(s: State<T>, es: seq<Step<T>>): State<T>
    requires Trace(s, es)
    decreases |es|
  {
    if es == [] then s else After(Next(s, es[0]), es[1..])
  }

  /** Pending tasks are covered by a readable eventfd, by a caller about to write it, or by the loop being on its
      way to the swap. */
  ghost predicate Covered<T>(s: State<T>) {
    s.tasks != [] ==> s.count > 0 || s.pushed != {} || s.pc == Handling
  }

  ghost predicate Inv<T>(s: State<T>) {
    && Covered(s)
    && s.executed + s.batch + s.tasks == s.submitted
    && (s.pc != Running ==> s.batch == [])
    && (LOOP_TID in s.pushed ==> s.pc != Waiting)
  }

  lemma InvStep<T>(s: State<T>, e: Step<T>)
    requires Inv(s) && Enabled(s, e)
    ensures Inv(Next(s, e))
  {
    var s' := Next(s, e);
    match e
    case Push(t, task) =>
      assert t in s'.pushed;
      assert s.executed + s.batch + (s.tasks + [task]) == (s.executed + s.batch + s.tasks) + [task];
    case RunTask =>
      assert s.batch == [s.batch[0]] + s.batch[1..];
      assert s.executed + [s.batch[0]] + s.batch[1..] + s.tasks == s.executed + s.batch + s.tasks;
    case Swap =>
      assert s.executed + [] + s.tasks == s.executed + s.tasks + [];
    case _ =>
  }

  lemma {:induction false} InvAlways<T>(s: State<T>, es: seq<Step<T>>)
    requires Inv(s) && Trace(s, es)
    ensures Inv(After(s, es))
    decreases |es|
  {
    if es != [] {
      InvStep(s, es[0]);
      InvAlways(Next(s, es[0]), es[1..]);
    }
  }

  /** The loop can only be woken by the timeout: the eventfd is not readable and no call is under way. */
  ghost predicate Asleep<T>(s: State<T>) {
    s.pc == Waiting && s.count == 0 && s.pushed == {}
  }

  /** The tasks pushed in a run, in order, read off its events. */
  function SubmittedBy<T>(es: seq<Step<T>>): seq<T> {
    if es == [] then [] else (if es[0].Push? then [es[0].task] else []) + SubmittedBy(es[1..])
  }

  lemma {:induction false} SubmittedIs<T>(s: State<T>, es: seq<Step<T>>)
    requires Trace(s, es)
    ensures After(s, es).submitted == s.submitted + SubmittedBy(es)
    decreases |es|
  {
    if es == [] {
      assert s.submitted + [] == s.submitted;
    } else {
      SubmittedIs(Next(s, es[0]), es[1..]);
      var first := if es[0].Push? then [es[0].task] else [];
      assert Next(s, es[0]).submitted == s.submitted + first;
      assert s.submitted + first + SubmittedBy(es[1..]) == s.submitted + (first + SubmittedBy(es[1..]));
    }
  }

  /** No lost wakeup. Whatever the interleaving, when the loop sleeps on an unreadable eventfd with no call under way,
      the tasks of the run's pushes have all been executed, once and in that order. */
  lemma NoLostWakeup<T>(es: seq<Step<T>>)
    requires Trace(Init<T>(), es) && Asleep(After(Init<T>(), es))
    ensures After(Init<T>(), es).executed == SubmittedBy(es)
  {
    InvAlways(Init<T>(), es);
    SubmittedIs(Init<T>(), es);
    assert [] + SubmittedBy(es) == SubmittedBy(es);
  }

  /** At every moment the executed tasks are a prefix of those pushed: nothing is executed twice, skipped or
      overtaken. */
  lemma ExecutedInOrder<T>(es: seq<Step<T>>)
    requires Trace(Init<T>(), es)
    ensures After(Init<T>(), es).executed <= SubmittedBy(es)
  {
    InvAlways(Init<T>(), es);
    SubmittedIs(Init<T>(), es);
    assert [] + SubmittedBy(es) == SubmittedBy(es);
  }

  // ---- progress ----

  /** The steps of a loop round left alone from a state in which the swap is next: swap, run everything, go round. */
  function Round<T>(n: nat): seq<Step<T>> {
    [Swap] + RunAll<T>(n)
  }

  function RunAll<T>(n: nat): seq<Step<T>> {
    if n == 0 then [] else [RunTask] + RunAll<T>(n - 1)
  }

  lemma {:induction false} RunAllRuns<T>(s: State<T>, n: nat)
    requires s.pc == Running && LOOP_TID !in s.pushed && n == |s.batch|
    ensures Trace(s, RunAll<T>(n)) && After(s, RunAll<T>(n)) == s.(batch := [], executed := s.executed + s.batch)
    decreases n
  {
    if n > 0 {
      var s' := Next(s, RunTask);
      RunAllRuns(s', n - 1);
      assert RunAll<T>(n)[1..] == RunAll<T>(n - 1);
      assert s.executed + [s.batch[0]] + s.batch[1..] == s.executed + s.batch;
    } else {
      assert s.executed + s.batch == s.executed;
    }
  }

  /** From any reachable state before the swap, one round of the loop executes everything submitted so far. */
  lemma RoundExecutesAll<T>(s: State<T>)
    requires Inv(s) && s.pc == Handling && LOOP_TID !in s.pushed
    ensures Trace(s, Round<T>(|s.tasks|))
    ensures After(s, Round<T>(|s.tasks|)).executed == s.submitted
  {
    var es := Round<T>(|s.tasks|);
    assert es[0] == Swap && es[1..] == RunAll<T>(|s.tasks|);
    var s' := Next(s, es[0]);
    RunAllRuns(s', |s.tasks|);
    assert s.executed + [] + s.tasks == s.submitted;
  }

  lemma {:induction false} AfterMore<T>(s: State<T>, es: seq<Step<T>>, e: Step<T>)
    requires Trace(s, es) && Enabled(After(s, es), e)
    ensures Trace(s, es + [e]) && After(s, es + [e]) == Next(After(s, es), e)
    decreases |es|
  {
    hide Enabled, Next;
    if es == [] {
      assert [e][1..] == [] && [] + [e] == [e];
      assert Trace(Next(s, e), []);
    } else {
      AfterMore(Next(s, es[0]), es[1..], e);
      assert (es + [e])[0] == es[0] && (es + [e])[1..] == es[1..] + [e];
    }
  }

  /** The loop can sleep again: after the wakeup handler and a round that nobody interrupts, the eventfd is not
      readable, and everything submitted has been executed. */
  lemma SleepsAgain<T>(s: State<T>)
    requires Inv(s) && s.pc == Handling && s.pushed == {}
    ensures var es := [ReadCount] + (Round<T>(|s.tasks|) + [Again]);
      Trace(s, es) && Asleep(After(s, es)) && After(s, es).executed == s.submitted
  {
    var s1 := Next(s, ReadCount);
    var round := Round<T>(|s.tasks|);
    InvStep(s, ReadCount);
    RoundExecutesAll(s1);
    assert round[1..] == RunAll<T>(|s.tasks|);
    RunAllRuns(Next(s1, Swap), |s.tasks|);
    AfterMore(s1, round, Again);
    var es := [ReadCount] + (round + [Again]);
    assert es[1..] == round + [Again];
  }

  // ---- the object ----

  /** The loop's fields. Its methods are the atomic regions of queueInLoop, wakeup, handleRead and loop. */
  class EventLoop<T> {
    var tasks_: seq<T>
    var wakeupCount: nat
    ghost var pushed: set<Tid>
    ghost var pc: LoopPc
    ghost var batch: seq<T>
    ghost var executed: seq<T>
    ghost var submitted: seq<T>

    ghost function Abs(): State<T>
      reads this
    {
      State(tasks_, wakeupCount, pushed, pc, batch, executed, submitted)
    }

    constructor ()
      ensures Abs() == Init()
    {
      tasks_, wakeupCount := [], 0;
      pushed, pc, batch, executed, submitted := {}, Waiting, [], [], [];
    }

    /** queueInLoop: push under the mutex, then wake the loop. Other threads may run in between. */
    method QueueInLoop(task: T, ghost t: Tid)
      requires MayCall(Abs(), t)
      modifies this
      ensures Trace(old(Abs()), [Push(t, task), Wake(t)])
      ensures Abs() == After(old(Abs()), [Push(t, task), Wake(t)])
    {
      PushTask(task, t);
      ghost var mid := Abs();
      Wakeup(t);
      ghost var es := [Push(t, task), Wake(t)];
      assert es[1..] == [Wake(t)] && es[1..][1..] == [];
      assert After(mid, [Wake(t)]) == Next(mid, Wake(t));
    }

    method PushTask(task: T, ghost t: Tid)
      requires Enabled(Abs(), Push(t, task))
      modifies this`tasks_, this`pushed, this`submitted
      ensures Abs() == Next(old(Abs()), Push(t, task))
    {
      tasks_ := tasks_ + [task];
      pushed, submitted := pushed + {t}, submitted + [task];
    }

    method Wakeup(ghost t: Tid)
      requires Enabled(Abs(), Wake(t))
      modifies this`wakeupCount, this`pushed
      ensures Abs() == Next(old(Abs()), Wake(t))
    {
      if wakeupCount < MAX_COUNT {
        wakeupCount := wakeupCount + 1;
      }
      pushed := pushed - {t};
    }

    method HandleRead()
      requires Enabled(Abs(), ReadCount)
      modifies this`wakeupCount
      ensures Abs() == Next(old(Abs()), ReadCount)
    {
      wakeupCount := 0;
    }

    /** The second half of a loop round, with nobody interfering: swap the tasks out and run them. */
    method RunTasks() returns (t_task: seq<T>)
      requires Enabled(Abs(), Swap) && Inv(Abs())
      modifies this
      ensures t_task == old(tasks_) && Trace(old(Abs()), Round<T>(|t_task|))
      ensures Abs() == After(old(Abs()), Round<T>(|t_task|)) && executed == old(submitted)
    {
      ghost var s := Abs();
      t_task, tasks_ := tasks_, [];
      batch, pc := t_task, Running;
      ghost var s1 := Abs();
      for i := 0 to |t_task|
        invariant Abs() == s1.(batch := t_task[i..], executed := s1.executed + t_task[..i])
      {
        executed, batch := executed + [t_task[i]], batch[1..];
      }
      RoundExecutesAll(s);
      RunAllRuns(s1, |t_task|);
      assert Round<T>(|t_task|)[1..] == RunAll<T>(|t_task|);
      assert t_task[..|t_task|] == t_task;
    }
  }
}
