/** What the state of the idle-connection protocol says about the run that led to it: clock, last reads, pending bytes,
    expirations and shutdowns, read off the events alone. */
module IdleHistory {
  import opened Wrappers
  import opened TimerQueues
  import opened IdleTimers

  // ---- read off the events ----

  function ClockOf(t0: int, es: seq<Step>): int {
    if es == [] then t0
    else
      var e := es[|es| - 1];
      ClockOf(t0, es[..|es| - 1]) + if e.Advance? then e.d else 0
  }

  /** The time of the last read of c in a run that starts at t0. */
  function LastRead(t0: int, es: seq<Step>, c: ConnId): Option<int> {
    if es == [] then None
    else if es[|es| - 1] == Read(c) then Some(ClockOf(t0, es[..|es| - 1]))
    else LastRead(t0, es[..|es| - 1], c)
  }

  /** The activity stamp: the largest time before the first read. */
  function StampOf(t0: int, es: seq<Step>, c: ConnId): int {
    match LastRead(t0, es, c)
    case None => LONG_MAX
    case Some(t) => t
  }

  /** The last change of c's write buffer left bytes in it. */
  function PendingOf(es: seq<Step>, c: ConnId): bool {
    if es == [] then false
    else
      var e := es[|es| - 1];
      if e.Output? && e.c == c then e.pending else PendingOf(es[..|es| - 1], c)
  }

  /** The time the last tick began. */
  function TickTime(t0: int, es: seq<Step>): int {
    if es == [] then t0
    else if es[|es| - 1].TickBegin? then ClockOf(t0, es[..|es| - 1])
    else TickTime(t0, es[..|es| - 1])
  }

  /** c was accepted since the tasks were last swapped out. */
  function NewInRound(es: seq<Step>, c: ConnId): bool {
    if es == [] then false
    else
      var e := es[|es| - 1];
      e == Accept(c) || (!e.Swap? && NewInRound(es[..|es| - 1], c))
  }

  /** The last event fires the timer of c. */
  ghost predicate FiresLast(s0: State, es: seq<Step>, c: ConnId)
    requires Trace(s0, es) && es != []
  {
    LastStep(s0, es);
    var s, e := After(s0, es[..|es| - 1]), es[|es| - 1];
    e.Fire? && s.timers[e.k] == c
  }

  /** Since the tasks were last swapped out, the timer of c fired while bytes were pending. */
  ghost predicate BusyInRound(s0: State, es: seq<Step>, c: ConnId)
    requires Trace(s0, es)
  {
    es != []
    && (LastStep(s0, es);
        var front := es[..|es| - 1];
        !es[|es| - 1].Swap? && ((FiresLast(s0, es, c) && PendingOf(front, c)) || BusyInRound(s0, front, c)))
  }

  /** Some firing of its timer found c idle: nothing pending, and the last read an interval ago or more. */
  ghost predicate FoundIdle(s0: State, es: seq<Step>, c: ConnId)
    requires Trace(s0, es)
  {
    es != []
    && (LastStep(s0, es);
        var front := es[..|es| - 1];
        || FoundIdle(s0, front, c)
        || (FiresLast(s0, es, c) && !PendingOf(front, c)
            && var read := LastRead(s0.clock, front, c);
               read.Some? && read.value + s0.interval <= ClockOf(s0.clock, front)))
  }

  /** The expiration of c's timer: one interval after the accept, and, since it was last re-armed (by a firing that
      acts and finds c active or with bytes pending), one interval after what was then the last read. */
  ghost function DeadlineOf(s0: State, es: seq<Step>, c: ConnId): int
    requires Trace(s0, es)
  {
    if es == [] then 0
    else
      LastStep(s0, es);
      var front, e := es[..|es| - 1], es[|es| - 1];
      if e == Accept(c) then Wrap(ClockOf(s0.clock, front) + s0.interval)
      else if FiresLast(s0, es, c) && c in After(s0, front).conns && Acts(After(s0, front).conns[c])
        && (ClockOf(s0.clock, front) - StampOf(s0.clock, front, c) < s0.interval || PendingOf(front, c))
      then Wrap(StampOf(s0.clock, front, c) + s0.interval)
      else DeadlineOf(s0, front, c)
  }

  // ---- and what the state holds ----

  /** What a step does to the activity and the timer of connection c. */
  lemma FieldsOf(s: State, e: Step, c: ConnId)
    requires Enabled(s, e) && c in s.conns
    ensures c in Next(s, e).conns
    ensures var conn, conn' := s.conns[c], Next(s, e).conns[c];
      var fires := e.Fire? && s.timers[e.k] == c && Acts(conn);
      && conn'.visited == (if e == Read(c) then s.clock else conn.visited)
      && conn'.pending == (if e.Output? && e.c == c then e.pending else conn.pending)
      && conn'.expired == (if fires && Rearms(s, c) then Wrap(conn.visited + s.interval) else conn.expired)
      && (conn'.shut <==> conn.shut || (fires && !Rearms(s, c)))
      && (conn'.closed <==> conn.closed || e == Close(c))
  {
    hide Rearms;
  }

  lemma NewFields(s: State, e: Step, c: ConnId)
    requires Enabled(s, e) && c !in s.conns
    ensures c in Next(s, e).conns <==> e == Accept(c)
    ensures c in Next(s, e).conns ==>
      var conn := Next(s, e).conns[c];
      && conn.visited == LONG_MAX && !conn.pending && !conn.shut && !conn.closed
      && conn.expired == Wrap(s.clock + s.interval)
    ensures e != Read(c) && !(e.Output? && e.c == c) && e != Close(c)
  {
  }

  lemma RoundOf(s: State, e: Step, c: ConnId)
    requires Enabled(s, e)
    ensures var s' := Next(s, e);
      && s'.clock == s.clock + (if e.Advance? then e.d else 0)
      && (s'.ticked ==> s'.tickNow == if e.TickBegin? then s.clock else s.tickNow)
      && (s'.ticked && !e.TickBegin? ==> s.ticked)
      && (c in s'.born <==> e == Accept(c) || (!e.Swap? && c in s.born))
      && (c in s'.busy ==> !e.Swap? && (c in s.busy || (e.Fire? && s.timers[e.k] == c && c in s.conns && s.conns[c].pending)))
  {
    hide Rearms, Acts;
  }

  /** The bookkeeping of the state is the history of the run: the loop's part. */
  ghost predicate RoundRecorded(s0: State, es: seq<Step>, c: ConnId)
    requires Trace(s0, es)
  {
    var s := After(s0, es);
    && s.clock == ClockOf(s0.clock, es) && s.interval == s0.interval
    && (s.ticked ==> s.tickNow == TickTime(s0.clock, es))
    && (c in s.born <==> NewInRound(es, c))
    && (c in s.busy ==> BusyInRound(s0, es, c))
  }

  /** And the part of connection c. */
  ghost predicate ConnRecorded(s0: State, es: seq<Step>, c: ConnId)
    requires Trace(s0, es)
  {
    var s := After(s0, es);
    && (c in s.conns <==> Accept(c) in es)
    && if c in s.conns then
         var conn := s.conns[c];
         && conn.visited == StampOf(s0.clock, es, c) && conn.pending == PendingOf(es, c)
         && conn.expired == DeadlineOf(s0, es, c)
         && (conn.closed <==> Close(c) in es)
         && (conn.shut ==> FoundIdle(s0, es, c))
       else
         LastRead(s0.clock, es, c) == None && !PendingOf(es, c) && Close(c) !in es
  }

  lemma {:induction false} History(s0: State, es: seq<Step>, c: ConnId)
    requires StartState(s0) && Trace(s0, es)
    ensures RoundRecorded(s0, es, c) && ConnRecorded(s0, es, c)
    decreases |es|
  {
    if es != [] {
      var front := es[..|es| - 1];
      LastStep(s0, es);
      History(s0, front, c);
      StartInv(s0);
      InvAlways(s0, front);
      hide RoundRecorded, ConnRecorded, Inv, StartState, Trace, After, Next, Enabled;
      RecordRound(s0, es, c);
      RecordConn(s0, es, c);
    }
  }

  lemma RecordRound(s0: State, es: seq<Step>, c: ConnId)
    requires Trace(s0, es) && es != [] && Trace(s0, es[..|es| - 1])
    requires RoundRecorded(s0, es[..|es| - 1], c) && ConnRecorded(s0, es[..|es| - 1], c)
    ensures RoundRecorded(s0, es, c)
  {
    LastStep(s0, es);
    IntervalStays(s0, es);
    RoundOf(After(s0, es[..|es| - 1]), es[|es| - 1], c);
    hide Next, After, Trace, DeadlineOf, FoundIdle, StampOf, LastRead, Enabled;
  }

  lemma RecordConn(s0: State, es: seq<Step>, c: ConnId)
    requires Trace(s0, es) && es != [] && Trace(s0, es[..|es| - 1])
    requires Inv(After(s0, es[..|es| - 1]))
    requires RoundRecorded(s0, es[..|es| - 1], c) && ConnRecorded(s0, es[..|es| - 1], c)
    ensures ConnRecorded(s0, es, c)
  {
    hide RoundRecorded, ConnRecorded, Inv, Trace, After;
    if c in After(s0, es[..|es| - 1]).conns {
      RecordOld(s0, es, c);
    } else {
      RecordNew(s0, es, c);
    }
  }

  lemma RecordNew(s0: State, es: seq<Step>, c: ConnId)
    requires Trace(s0, es) && es != [] && Trace(s0, es[..|es| - 1]) && c !in After(s0, es[..|es| - 1]).conns
    requires RoundRecorded(s0, es[..|es| - 1], c) && ConnRecorded(s0, es[..|es| - 1], c)
    ensures ConnRecorded(s0, es, c)
  {
    LastStep(s0, es);
    NewFields(After(s0, es[..|es| - 1]), es[|es| - 1], c);
    assert es == es[..|es| - 1] + [es[|es| - 1]];
    hide Next, After, Trace, Wrap, Acts, FoundIdle, NewInRound, BusyInRound, TickTime, Enabled;
  }

  lemma RecordOld(s0: State, es: seq<Step>, c: ConnId)
    requires Trace(s0, es) && es != [] && Trace(s0, es[..|es| - 1]) && c in After(s0, es[..|es| - 1]).conns
    requires Inv(After(s0, es[..|es| - 1]))
    requires RoundRecorded(s0, es[..|es| - 1], c) && ConnRecorded(s0, es[..|es| - 1], c)
    ensures ConnRecorded(s0, es, c)
  {
    var front, e := es[..|es| - 1], es[|es| - 1];
    LastStep(s0, es);
    var s := After(s0, front);
    FieldsOf(s, e, c);
    AcceptsOnce(s, e, c);
    assert es == front + [e];
    hide Next, After, Trace, Wrap, Acts, MapOk, QueueOk, TokensOk, KeysOk, RoundOk, NewInRound, BusyInRound, TickTime,
      Enabled;
  }

  lemma AcceptsOnce(s: State, e: Step, c: ConnId)
    requires Enabled(s, e) && c in s.conns
    ensures e != Accept(c)
  {
  }

  /** Never early, in any run. A connection is shut down only by a firing of its timer at which it had been read, its
      last read was an interval ago or more, and nothing was pending. In particular a client that connects and never
      sends anything is never shut down by its timer. */
  lemma NeverEarly(s0: State, es: seq<Step>, c: ConnId)
    requires StartState(s0) && Trace(s0, es) && c in After(s0, es).conns && After(s0, es).conns[c].shut
    ensures FoundIdle(s0, es, c)
  {
    History(s0, es, c);
  }

  /** The stamp, in every run: the time of the last read, or the largest time before the first. */
  lemma StampIsLastRead(s0: State, es: seq<Step>, c: ConnId)
    requires StartState(s0) && Trace(s0, es) && c in After(s0, es).conns
    ensures After(s0, es).conns[c].visited == match LastRead(s0.clock, es, c) case None => LONG_MAX case Some(t) => t
    ensures After(s0, es).clock == ClockOf(s0.clock, es)
  {
    History(s0, es, c);
  }

  /** The timer's expiration, in every run: an interval after the accept, or after the last read as of the last
      re-arming. */
  lemma ExpirationIsDeadline(s0: State, es: seq<Step>, c: ConnId)
    requires StartState(s0) && Trace(s0, es) && c in After(s0, es).conns
    ensures After(s0, es).conns[c].expired == DeadlineOf(s0, es, c)
  {
    History(s0, es, c);
  }
}
