/** The idle-connection protocol of net/TcpServer.cc, net/TcpConnection.cc and net/TimerQueue.cc: the main loop owns
    the timer map and re-arms timers through its task queue, I/O threads stamp activity and report closed
    connections, timers refer to their connections weakly. */
module IdleTimers {
  import opened TimerQueues

  type ConnId = nat

  const LONG_MAX: int := 0x7fff_ffff_ffff_ffff

  /** Addition on long, wrapping around. */
  function Wrap(x: int): int {
    if x <= LONG_MAX then x else x - 0x1_0000_0000_0000_0000
  }

  /** A connection and its timer. */
  datatype Conn = Conn(
    visited: int,       // time of the last read; LONG_MAX before the first one
    pending: bool,      // the write buffer holds bytes
    closed: bool,       // handleClose ran, so its removal was queued
    removed: bool,      // removeConnectionInLoop ran: timer_ is reset
    destroyed: bool,    // the timer's weak reference is dead
    expired: int,       // the timer's expiration
    shut: bool)         // the timer shut the connection down

  datatype Task = Add(c: ConnId) | Remove(c: ConnId)

  /** The main loop handles events, runs a pass of TimerQueue::handleRead among them, and then runs queued tasks. */
  datatype Phase = Handlers | Ticking | Tasks

  datatype State = State(
    interval: nat, clock: int,
    conns: map<ConnId, Conn>,
    timers: map<int, ConnId>,
    tasks: seq<Task>, batch: seq<Task>,
    phase: Phase, ticked: bool, tickNow: int,
    born: set<ConnId>,      // accepted in this round of the loop
    rearmed: set<ConnId>,   // re-armed by this round's tick
    busy: set<ConnId>)      // those of them with bytes pending when they were checked

  predicate StartState(s: State) {
    && s.interval <= LONG_MAX && 0 <= s.clock < LONG_MAX
    && s.conns == map[] && s.timers == map[] && s.tasks == [] && s.batch == []
    && s.phase == Handlers && !s.ticked && s.born == {} && s.rearmed == {} && s.busy == {}
  }

  datatype Step =
    | Advance(d: nat)                  // time passes
    | Accept(c: ConnId)                // newConnection
    | Read(c: ConnId)                  // handleRead stamps the connection (an I/O thread)
    | Output(c: ConnId, pending: bool) // the write buffer fills or drains (an I/O thread)
    | Close(c: ConnId)                 // handleClose (an I/O thread)
    | TickBegin | Fire(k: int) | TickEnd
    | Swap | RunTask | Again           // the loop's task queue
    | Destroy(c: ConnId)               // the last shared reference goes

  predicate Enabled(s: State, e: Step) {
    match e
    case Advance(d) => s.clock + d < LONG_MAX
    case Accept(c) => s.phase == Handlers && c !in s.conns
    case Read(c) => c in s.conns && !s.conns[c].closed
    case Output(c, _) => c in s.conns && !s.conns[c].destroyed
    case Close(c) => c in s.conns && !s.conns[c].closed
    case TickBegin => s.phase == Handlers && !s.ticked
    case Fire(k) => s.phase == Ticking && LeastKey(k, s.timers) && k <= s.tickNow && s.timers[k] in s.conns
    case TickEnd => s.phase == Ticking && forall k :: k in s.timers ==> s.tickNow < k
    case Swap => s.phase == Handlers
    case RunTask => s.phase == Tasks && s.batch != [] && s.batch[0].c in s.conns
    case Again => s.phase == Tasks && s.batch == []
    case Destroy(c) => c in s.conns && s.conns[c].removed && !s.conns[c].destroyed
  }

  /** handleTimer's decision: active within the interval, or bytes still pending. */
  predicate Rearms(s: State, c: ConnId)
    requires c in s.conns
  {
    s.clock - s.conns[c].visited < s.interval || s.conns[c].pending
  }

  /** Timer::run acts only while the connection exists and still has its timer. */
  predicate Acts(conn: Conn) { !conn.destroyed && !conn.removed }

  function FireAt(s: State, k: int): State
    requires k in s.timers && s.timers[k] in s.conns
  {
    var c := s.timers[k];
    var conn := s.conns[c];
    var s1 := s.(timers := s.timers - {k});
    if !Acts(conn) then s1
    else if Rearms(s, c) then
      s1.(conns := s.conns[c := conn.(expired := Wrap(conn.visited + s.interval))],
          tasks := s.tasks + [Add(c)], rearmed := s.rearmed + {c},
          busy := if conn.pending then s.busy + {c} else s.busy)
    else
      s1.(conns := s.conns[c := conn.(shut := true)])
  }

  function Run(s: State, t: Task): State
    requires t.c in s.conns
  {
    var conn := s.conns[t.c];
    match t
    case Add(c) => s.(timers := Inserted(s.timers, conn.expired, c))
    case Remove(c) =>
      s.(timers := if s.interval > 0 then Erased(s.timers, conn.expired) else s.timers,
         conns := s.conns[c := conn.(removed := true)])
  }

  function Next(s: State, e: Step): State
    requires Enabled(s, e)
  {
    match e
    case Advance(d) => s.(clock := s.clock + d)
    case Accept(c) =>
      s.(conns := s.conns[c := Conn(LONG_MAX, false, false, false, false, Wrap(s.clock + s.interval), false)],
         tasks := s.tasks + [Add(c)], born := s.born + {c})
    case Read(c) => s.(conns := s.conns[c := s.conns[c].(visited := s.clock)])
    case Output(c, pending) => s.(conns := s.conns[c := s.conns[c].(pending := pending)])
    case Close(c) => s.(conns := s.conns[c := s.conns[c].(closed := true)], tasks := s.tasks + [Remove(c)])
    case TickBegin => s.(phase := Ticking, ticked := true, tickNow := s.clock)
    case Fire(k) => FireAt(s, k)
    case TickEnd => s.(phase := Handlers)
    case Swap =>
      s.(phase := Tasks, batch := s.tasks, tasks := [], ticked := false, born := {}, rearmed := {}, busy := {})
    case RunTask => Run(s, s.batch[0]).(batch := s.batch[1..])
    case Again => s.(phase := Handlers)
    case Destroy(c) => s.(conns := s.conns[c := s.conns[c].(destroyed := true)])
  }

  // ---- timer tokens ----

  function Queue(s: State): seq<Task> { s.batch + s.tasks }

  predicate InMap(s: State, c: ConnId)
    requires c in s.conns
  {
    s.conns[c].expired in s.timers && s.timers[s.conns[c].expired] == c
  }

  predicate Queued(s: State, c: ConnId) { Add(c) in Queue(s) }

  predicate HasToken(s: State, c: ConnId)
    requires c in s.conns
  {
    InMap(s, c) || Queued(s, c)
  }

  /** A connection its timer still has to watch. */
  predicate Live(s: State, c: ConnId)
    requires c in s.conns
  {
    !s.conns[c].removed && !s.conns[c].shut
  }

  // ---- the invariant, kept by every step ----

  ghost predicate MapOk(s: State) {
    forall k :: k in s.timers ==> s.timers[k] in s.conns && s.conns[s.timers[k]].expired == k
  }

  ghost predicate NoDup(q: seq<Task>) {
    forall i, j :: 0 <= i < j < |q| ==> q[i] != q[j]
  }

  ghost predicate QueueOk(s: State) {
    && NoDup(Queue(s))
    && (forall t :: t in Queue(s) ==> t.c in s.conns)
    && (forall c :: c in s.conns ==> (Remove(c) in Queue(s) <==> s.conns[c].closed && !s.conns[c].removed))
    && (forall c :: c in s.conns && s.conns[c].removed ==> s.conns[c].closed)
    && (forall c :: c in s.conns && s.conns[c].destroyed ==> s.conns[c].removed)
  }

  /** Never two tokens, and none once shut. */
  ghost predicate TokensOk(s: State) {
    && (forall c :: c in s.conns && Queued(s, c) ==> !InMap(s, c))
    && (forall c :: c in s.conns && s.conns[c].shut ==> !HasToken(s, c))
  }

  ghost predicate KeysOk(s: State) {
    forall c :: c in s.conns ==>
      var conn := s.conns[c];
      && (s.interval > 0 ==> conn.expired <= conn.visited + s.interval && conn.expired <= s.clock + s.interval)
      && (conn.visited == LONG_MAX || 0 <= conn.visited <= s.clock)
  }

  /** Outside the task phase a queued token was queued in this round; a connection re-armed by the current tick had
      bytes pending or has been active less than an interval before the tick. */
  ghost predicate RoundOk(s: State) {
    && (s.phase != Tasks ==> s.batch == [])
    && (s.phase != Tasks ==> forall c :: Add(c) in s.tasks ==> c in s.born || c in s.rearmed)
    && (s.phase == Tasks ==> forall c :: Add(c) !in s.tasks)
    && (s.phase == Tasks || !s.ticked ==> s.rearmed == {} && s.busy == {})
    && (s.phase == Tasks ==> !s.ticked)
    && (s.phase == Ticking ==> s.ticked && s.tickNow <= s.clock)
    && (s.phase == Ticking ==> forall c :: c in s.rearmed ==>
          c in s.conns
          && (c in s.busy || s.tickNow < s.conns[c].visited + s.interval || s.tickNow <= s.conns[c].visited))
  }

  ghost predicate Inv(s: State) {
    && s.interval <= LONG_MAX && 0 <= s.clock < LONG_MAX
    && MapOk(s) && QueueOk(s) && TokensOk(s) && KeysOk(s) && RoundOk(s)
  }

  /** The step fires a timer that is re-armed. */
  predicate Rearming(s: State, e: Step)
    requires Enabled(s, e)
  {
    e.Fire? && Acts(s.conns[s.timers[e.k]]) && Rearms(s, s.timers[e.k])
  }

  /** What a step queues. */
  function Pushes(s: State, e: Step): seq<Task>
    requires Enabled(s, e)
  {
    if e.Accept? then [Add(e.c)]
    else if e.Close? then [Remove(e.c)]
    else if Rearming(s, e) then [Add(s.timers[e.k])]
    else []
  }

  /** The queue is first-in first-out: a step takes its head, or appends. */
  lemma QueueOf(s: State, e: Step)
    requires RoundOk(s) && Enabled(s, e)
    ensures Queue(Next(s, e)) == if e.RunTask? then Queue(s)[1..] else Queue(s) + Pushes(s, e)
    ensures e.RunTask? ==> Queue(s) != [] && Queue(s)[0] == s.batch[0]
  {
    hide Rearms, Acts;
    if e.RunTask? {
      assert Queue(s) == [s.batch[0]] + (s.batch[1..] + s.tasks);
    }
  }

  /** Membership in the queue after a step. */
  lemma QueuedAfter(s: State, e: Step)
    requires RoundOk(s) && QueueOk(s) && Enabled(s, e)
    ensures e.RunTask? ==> forall t :: t in Queue(Next(s, e)) <==> t in Queue(s) && t != s.batch[0]
    ensures !e.RunTask? ==> forall t :: t in Queue(Next(s, e)) <==> t in Queue(s) || t in Pushes(s, e)
  {
    QueueOf(s, e);
    hide Next, Pushes, Enabled, RoundOk, Queue;
    if e.RunTask? {
      Popped(Queue(s));
    }
  }

  lemma Popped(q: seq<Task>)
    requires NoDup(q) && q != []
    ensures NoDup(q[1..])
    ensures forall t :: t in q[1..] <==> t in q && t != q[0]
  {
    assert q == [q[0]] + q[1..];
    forall i | 0 <= i < |q[1..]| ensures q[1..][i] == q[i + 1] && q[1..][i] != q[0] {
      assert q[i + 1] != q[0];
    }
  }

  lemma Pushed(q: seq<Task>, t: Task)
    requires NoDup(q) && t !in q
    ensures NoDup(q + [t])
  {
  }

  lemma MapStep(s: State, e: Step)
    requires MapOk(s) && Enabled(s, e)
    ensures MapOk(Next(s, e))
  {
    hide Rearms, Acts;
  }

  lemma ClockStep(s: State, e: Step)
    requires 0 <= s.clock < LONG_MAX && Enabled(s, e)
    ensures 0 <= Next(s, e).clock < LONG_MAX && Next(s, e).interval == s.interval
  {
  }

  /** The new key of a re-armed timer. */
  lemma RearmedKey(s: State, c: ConnId)
    requires s.interval <= LONG_MAX && 0 <= s.clock < LONG_MAX && KeysOk(s) && c in s.conns
    ensures s.interval > 0 ==>
      var key := Wrap(s.conns[c].visited + s.interval);
      key <= s.conns[c].visited + s.interval && key <= s.clock + s.interval
  {
  }

  lemma KeysStep(s: State, e: Step)
    requires s.interval <= LONG_MAX && 0 <= s.clock < LONG_MAX && KeysOk(s) && Enabled(s, e)
    ensures KeysOk(Next(s, e))
  {
    if e.Fire? {
      RearmedKey(s, s.timers[e.k]);
      hide Wrap;
    }
    hide Rearms, Acts, LeastKey, Inserted, Erased;
  }

  /** A pushed token or removal is not in the queue already. */
  lemma PushesFresh(s: State, e: Step)
    requires QueueOk(s) && TokensOk(s) && MapOk(s) && Enabled(s, e)
    ensures forall t :: t in Pushes(s, e) ==> t !in Queue(s)
  {
    hide Rearms, Acts;
    if e.Fire? {
      assert InMap(s, s.timers[e.k]);
    }
  }

  lemma NoDupStep(s: State, e: Step)
    requires RoundOk(s) && QueueOk(s) && TokensOk(s) && MapOk(s) && Enabled(s, e)
    ensures NoDup(Queue(Next(s, e)))
  {
    QueueOf(s, e);
    PushesFresh(s, e);
    assert Queue(s) + [] == Queue(s);
    hide MapOk, TokensOk, RoundOk, Enabled, Next, Queue, NoDup, Rearms, Acts;
    if e.RunTask? {
      Popped(Queue(s));
    } else if Pushes(s, e) != [] {
      Pushed(Queue(s), Pushes(s, e)[0]);
    }
  }

  /** What a step does to the life of connection c. */
  lemma LifeOf(s: State, e: Step, c: ConnId)
    requires Enabled(s, e)
    ensures c in Next(s, e).conns <==> c in s.conns || e == Accept(c)
    ensures c in s.conns ==>
      var conn, conn' := s.conns[c], Next(s, e).conns[c];
      && (conn'.closed <==> conn.closed || e == Close(c))
      && (conn'.removed <==> conn.removed || (e.RunTask? && s.batch[0] == Remove(c)))
      && (conn'.destroyed <==> conn.destroyed || e == Destroy(c))
      && (conn'.shut <==> conn.shut || (e.Fire? && s.timers[e.k] == c && Acts(conn) && !Rearms(s, c)))
    ensures e == Accept(c) ==>
      var conn' := Next(s, e).conns[c];
      c !in s.conns && !conn'.closed && !conn'.removed && !conn'.destroyed && !conn'.shut
  {
    hide Rearms;
  }

  lemma QueueStep(s: State, e: Step)
    requires RoundOk(s) && QueueOk(s) && TokensOk(s) && MapOk(s) && Enabled(s, e)
    ensures QueueOk(Next(s, e))
  {
    NoDupStep(s, e);
    QueuedAfter(s, e);
    if e.RunTask? {
      QueueOf(s, e);
      assert s.batch[0] in Queue(s);
    }
    hide MapOk, TokensOk, RoundOk, NoDup, Queue, Rearms, Acts, Next, LeastKey;
    forall c ensures c in Next(s, e).conns <==> c in s.conns || e == Accept(c) {
      LifeOf(s, e, c);
    }
    forall c | c in Next(s, e).conns
      ensures Remove(c) in Queue(Next(s, e)) <==> Next(s, e).conns[c].closed && !Next(s, e).conns[c].removed
      ensures Next(s, e).conns[c].removed ==> Next(s, e).conns[c].closed
      ensures Next(s, e).conns[c].destroyed ==> Next(s, e).conns[c].removed
    {
      LifeOf(s, e, c);
    }
  }

  /** What a step does to the map entry of connection c. */
  lemma InMapAfter(s: State, e: Step, c: ConnId)
    requires MapOk(s) && Enabled(s, e) && c in Next(s, e).conns
    ensures InMap(Next(s, e), c) <==>
      && c in s.conns
      && match e
         case Fire(k) => InMap(s, c) && s.timers[k] != c
         case RunTask =>
           (match s.batch[0]
            case Add(d) => InMap(s, c) || (d == c && s.conns[c].expired !in s.timers)
            case Remove(d) => InMap(s, c) && !(s.interval > 0 && s.conns[d].expired == s.conns[c].expired))
         case _ => InMap(s, c)
  {
    hide Rearms, Acts;
  }

  /** A token moves from the map to the queue and back; nobody ever gets a second one. */
  lemma TokensStep(s: State, e: Step)
    requires RoundOk(s) && QueueOk(s) && TokensOk(s) && MapOk(s) && Enabled(s, e)
    ensures TokensOk(Next(s, e))
  {
    QueuedAfter(s, e);
    if e.RunTask? {
      QueueOf(s, e);
      assert s.batch[0] in Queue(s);
      assert s.batch[0].Add? ==> Queued(s, s.batch[0].c);
    }
    if e.Fire? {
      assert InMap(s, s.timers[e.k]);
    }
    hide RoundOk, NoDup, Queue, Rearms, Acts, Next, StartState, InMap;
    forall c | c in Next(s, e).conns
      ensures Queued(Next(s, e), c) ==> !InMap(Next(s, e), c)
      ensures Next(s, e).conns[c].shut ==> !HasToken(Next(s, e), c)
    {
      LifeOf(s, e, c);
      InMapAfter(s, e, c);
    }
  }

  lemma RoundStep(s: State, e: Step)
    requires RoundOk(s) && QueueOk(s) && Enabled(s, e)
    ensures RoundOk(Next(s, e))
  {
    assert e.RunTask? ==> s.batch[0] in Queue(s);
    hide NoDup;
  }

  /** Whatever any thread does next, the invariant is kept. */
  lemma InvStep(s: State, e: Step)
    requires Inv(s) && Enabled(s, e)
    ensures Inv(Next(s, e))
  {
    hide Next, Enabled, MapOk, QueueOk, TokensOk, KeysOk, RoundOk;
    MapStep(s, e);
    ClockStep(s, e);
    KeysStep(s, e);
    QueueStep(s, e);
    TokensStep(s, e);
    RoundStep(s, e);
  }

  // ---- runs ----

  ghost predicate Trace(s: State, es: seq<Step>)
    decreases |es|
  {
    es == [] || (Enabled(s, es[0]) && Trace(Next(s, es[0]), es[1..]))
  }

  ghost function After(s: State, es: seq<Step>): State
    requires Trace(s, es)
    decreases |es|
  {
    if es == [] then s else After(Next(s, es[0]), es[1..])
  }

  lemma {:induction false} InvAlways(s: State, es: seq<Step>)
    requires Inv(s) && Trace(s, es)
    ensures Inv(After(s, es))
    decreases |es|
  {
    hide Inv, Next, Enabled;
    if es != [] {
      InvStep(s, es[0]);
      InvAlways(Next(s, es[0]), es[1..]);
    }
  }

  lemma {:induction false} IntervalStays(s: State, es: seq<Step>)
    requires Trace(s, es)
    ensures After(s, es).interval == s.interval
    decreases |es|
  {
    if es != [] {
      IntervalStays(Next(s, es[0]), es[1..]);
    }
  }

  lemma StartInv(s: State)
    requires StartState(s)
    ensures Inv(s)
  {
  }

  /** One more step at the end of a run. */
  lemma {:induction false} AfterMore(s: State, es: seq<Step>, e: Step)
    requires Trace(s, es) && Enabled(After(s, es), e)
    ensures Trace(s, es + [e]) && After(s, es + [e]) == Next(After(s, es), e)
    decreases |es|
  {
    hide Enabled, Next;
    if es == [] {
      assert [e][1..] == [] && [] + [e] == [e];
      assert Trace(Next(s, e), []);
    } else {
      AfterMore(Next(s, es[0]), es[1..], e);
      assert (es + [e])[0] == es[0] && (es + [e])[1..] == es[1..] + [e];
    }
  }

  lemma {:induction false} LastStep(s: State, es: seq<Step>)
    requires Trace(s, es) && es != []
    ensures var front, e := es[..|es| - 1], es[|es| - 1];
      Trace(s, front) && Enabled(After(s, front), e) && After(s, es) == Next(After(s, front), e)
    decreases |es|
  {
    hide Enabled, Next;
    if |es| > 1 {
      LastStep(Next(s, es[0]), es[1..]);
      assert es[..|es| - 1][0] == es[0] && es[..|es| - 1][1..] == es[1..][..|es| - 2];
    } else {
      assert es[..0] == [] && es[1..] == [];
    }
  }

  // ---- safety ----

  /** A step shuts a connection down only by firing its timer while nothing is pending. */
  lemma ShutsOnlyIdle(s: State, e: Step, c: ConnId)
    requires Enabled(s, e) && c in s.conns && !s.conns[c].shut && Next(s, e).conns[c].shut
    ensures e.Fire? && s.timers[e.k] == c && !s.conns[c].pending && !s.conns[c].removed
    ensures s.clock - s.conns[c].visited >= s.interval
  {
  }

  /** The timer of a removed or destroyed connection never acts: no step changes the connection's timer or queues
      its token again. */
  lemma DeadNeverActs(s: State, e: Step, c: ConnId)
    requires Enabled(s, e) && c in s.conns && !Acts(s.conns[c])
    ensures c in Next(s, e).conns && !Acts(Next(s, e).conns[c])
    ensures Next(s, e).conns[c].expired == s.conns[c].expired && Next(s, e).conns[c].shut == s.conns[c].shut
    ensures Queued(Next(s, e), c) ==> Queued(s, c)
  {
    if e.RunTask? {
      assert s.batch == [s.batch[0]] + s.batch[1..];
    }
  }
}
