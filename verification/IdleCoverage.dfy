/** Which runs of the idle-connection protocol keep a timer for every live connection, exactly, and what follows. */
module IdleCoverage {
  import opened Wrappers
  import opened TimerQueues
  import opened IdleTimers
  import opened IdleHistory

  // ---- one step ----

  /** The step takes the timer token of connection c away: its queued insertion finds the key in use by another
      connection, or the removal of another connection erases the map entry of c. */
  predicate TakesToken(s: State, e: Step, c: ConnId)
    requires Enabled(s, e)
  {
    e.RunTask?
    && match s.batch[0]
       case Add(d) => d == c && s.conns[c].expired in s.timers && s.timers[s.conns[c].expired] != c
       case Remove(d) =>
         d != c && s.interval > 0 && s.conns[d].expired in s.timers && s.timers[s.conns[d].expired] == c
  }

  lemma QueuedNext(s: State, e: Step, c: ConnId)
    requires Inv(s) && Enabled(s, e)
    ensures Queued(Next(s, e), c) <==>
      (Queued(s, c) && !(e.RunTask? && s.batch[0] == Add(c)))
      || e == Accept(c) || (e.Fire? && s.timers[e.k] == c && Rearming(s, e))
  {
    QueuedAfter(s, e);
    hide Next, Rearms, Acts, Inv, Queue;
  }

  /** A connection that is live after a step has a token exactly when it had one before (or was just accepted) and
      the step did not take it. */
  lemma TokenStep(s: State, e: Step, c: ConnId)
    requires Inv(s) && Enabled(s, e) && c in Next(s, e).conns && Live(Next(s, e), c)
    ensures HasToken(Next(s, e), c) <==> (c in s.conns ==> HasToken(s, c)) && !TakesToken(s, e, c)
    ensures c in s.conns ==> Live(s, c)
  {
    LifeOf(s, e, c);
    InMapAfter(s, e, c);
    QueuedNext(s, e, c);
    if e.RunTask? {
      QueueOf(s, e);
      assert s.batch[0] in Queue(s);
    }
    hide Next, Rearms, Queue, NoDup, KeysOk, RoundOk;
  }

  /** Every live connection has a token. */
  ghost predicate Covered(s: State) {
    forall c :: c in s.conns && Live(s, c) ==> HasToken(s, c)
  }

  /** The step takes the token of a live connection. */
  predicate Loses(s: State, e: Step)
    requires MapOk(s) && Enabled(s, e)
  {
    e.RunTask?
    && match s.batch[0]
       case Add(c) => Live(s, c) && s.conns[c].expired in s.timers && s.timers[s.conns[c].expired] != c
       case Remove(c) =>
         s.interval > 0 && s.conns[c].expired in s.timers
         && (var d := s.timers[s.conns[c].expired]; d != c && Live(s, d))
  }

  /** One step keeps every live connection covered exactly when it neither runs the insertion of a live connection
      into a key in use by another, nor the removal of a connection whose key belongs to another live one. */
  lemma CoverageStep(s: State, e: Step)
    requires Inv(s) && Enabled(s, e) && Covered(s)
    ensures Covered(Next(s, e)) <==> !Loses(s, e)
  {
    hide Next, Rearms;
    forall c | c in Next(s, e).conns && Live(Next(s, e), c)
      ensures HasToken(Next(s, e), c) <==> !TakesToken(s, e, c)
    {
      TokenStep(s, e, c);
    }
    if Loses(s, e) {
      var c := if s.batch[0].Add? then s.batch[0].c else s.timers[s.conns[s.batch[0].c].expired];
      assert TakesToken(s, e, c);
      LifeOf(s, e, c);
    } else {
      forall c | c in Next(s, e).conns && Live(Next(s, e), c) ensures !TakesToken(s, e, c) {
        TokenStep(s, e, c);
      }
    }
  }

  predicate Armed(s: State, c: ConnId) {
    c in s.conns && (!s.conns[c].removed || HasToken(s, c))
  }

  /** While the expirations of the connections that are not removed or still have a token are pairwise distinct, no
      step loses a token. */
  lemma DistinctKeepsTokens(s: State, e: Step)
    requires Inv(s) && Enabled(s, e)
    requires forall c, d :: Armed(s, c) && Armed(s, d) && c != d ==> s.conns[c].expired != s.conns[d].expired
    ensures !Loses(s, e)
  {
    if Loses(s, e) {
      QueueOf(s, e);
      assert s.batch[0] in Queue(s);
      var c := s.batch[0].c;
      var d := s.timers[s.conns[c].expired];
      assert InMap(s, d) && c != d;
    }
  }

  // ---- runs ----

  /** No step of the run takes the token of c. */
  ghost predicate Keeps(s: State, es: seq<Step>, c: ConnId)
    requires Trace(s, es)
    decreases |es|
  {
    es == [] || (!TakesToken(s, es[0], c) && Keeps(Next(s, es[0]), es[1..], c))
  }

  /** A token once taken never comes back while the connection is live. */
  lemma {:induction false} TokenOnRun(s: State, es: seq<Step>, c: ConnId)
    requires Inv(s) && Trace(s, es) && c in After(s, es).conns && Live(After(s, es), c)
    ensures HasToken(After(s, es), c) <==> (c in s.conns ==> HasToken(s, c)) && Keeps(s, es, c)
    ensures c in s.conns ==> Live(s, c)
    decreases |es|
  {
    hide Next, Inv, HasToken, Live, TakesToken;
    if es != [] {
      var s' := Next(s, es[0]);
      InvStep(s, es[0]);
      TokenOnRun(s', es[1..], c);
      if c in s'.conns {
        TokenStep(s, es[0], c);
      } else {
        LifeOf(s, es[0], c);
        StrangersKeep(s, es[0], c);
      }
    }
  }

  lemma StrangersKeep(s: State, e: Step, c: ConnId)
    requires Inv(s) && Enabled(s, e) && c !in s.conns
    ensures !TakesToken(s, e, c)
  {
  }

  /** Coverage, exactly, in every run. A connection neither removed nor shut down has exactly one timer token, in the
      map or in the queue, if and only if no step took it; one shut down has none; nobody ever has two. With a
      positive hold time its key is at most its last read plus the interval. */
  lemma TimerCoverage(s0: State, es: seq<Step>, c: ConnId)
    requires StartState(s0) && Trace(s0, es) && c in After(s0, es).conns
    ensures var s := After(s0, es);
      && (Live(s, c) ==> (InMap(s, c) != Queued(s, c) <==> Keeps(s0, es, c)))
      && (s.conns[c].shut ==> !InMap(s, c) && !Queued(s, c))
      && !(InMap(s, c) && Queued(s, c))
      && (s0.interval > 0 ==> s.conns[c].expired <= s.conns[c].visited + s0.interval)
  {
    StartInv(s0);
    InvAlways(s0, es);
    IntervalStays(s0, es);
    if Live(After(s0, es), c) {
      TokenOnRun(s0, es, c);
    }
    hide Trace, After, Keeps;
  }

  /** The map and the queue are well formed in every run: a key is the expiration of its connection, no entry is
      queued twice. */
  lemma TokensWellFormed(s0: State, es: seq<Step>)
    requires StartState(s0) && Trace(s0, es)
    ensures var s := After(s0, es);
      (forall i, j :: 0 <= i < j < |Queue(s)| ==> Queue(s)[i] != Queue(s)[j])
      && (forall k :: k in s.timers ==> s.timers[k] in s.conns && k == s.conns[s.timers[k]].expired)
  {
    StartInv(s0);
    InvAlways(s0, es);
  }

  ghost predicate AlwaysCovered(s: State, es: seq<Step>)
    requires Trace(s, es)
    decreases |es|
  {
    Covered(s) && (es == [] || AlwaysCovered(Next(s, es[0]), es[1..]))
  }

  ghost predicate Lossless(s: State, es: seq<Step>)
    requires Inv(s) && Trace(s, es)
    decreases |es|
  {
    es == [] || (!Loses(s, es[0]) && (InvStep(s, es[0]); Lossless(Next(s, es[0]), es[1..])))
  }

  lemma {:induction false} CoverageOfRun(s: State, es: seq<Step>)
    requires Inv(s) && Covered(s) && Trace(s, es)
    ensures AlwaysCovered(s, es) <==> Lossless(s, es)
    decreases |es|
  {
    hide Next, Inv, Covered, Loses;
    if es != [] {
      InvStep(s, es[0]);
      CoverageStep(s, es[0]);
      if Covered(Next(s, es[0])) {
        CoverageOfRun(Next(s, es[0]), es[1..]);
      }
    }
  }

  /** Every live connection is covered throughout a run if and only if no step of the run loses a token. */
  lemma CoverageOnRuns(s0: State, es: seq<Step>)
    requires StartState(s0) && Trace(s0, es)
    ensures Inv(s0)
    ensures AlwaysCovered(s0, es) <==> Lossless(s0, es)
  {
    StartInv(s0);
    CoverageOfRun(s0, es);
  }

  /** A live connection without a token is never shut down: it stays so until it is removed. */
  lemma {:induction false} LostForever(s: State, es: seq<Step>, c: ConnId)
    requires Inv(s) && Trace(s, es) && c in s.conns && !s.conns[c].shut && !HasToken(s, c)
    ensures c in After(s, es).conns && !After(s, es).conns[c].shut
    ensures HasToken(After(s, es), c) ==> After(s, es).conns[c].removed
    decreases |es|
  {
    hide Next, Inv, HasToken, Rearms, Acts;
    if es != [] {
      InvStep(s, es[0]);
      LifeOf(s, es[0], c);
      LostStep(s, es[0], c);
      LostForever(Next(s, es[0]), es[1..], c);
    }
  }

  lemma LostStep(s: State, e: Step, c: ConnId)
    requires Inv(s) && Enabled(s, e) && c in s.conns && !s.conns[c].shut && !HasToken(s, c)
    ensures c in Next(s, e).conns && !Next(s, e).conns[c].shut && !HasToken(Next(s, e), c)
  {
    LifeOf(s, e, c);
    InMapAfter(s, e, c);
    QueuedNext(s, e, c);
    if e.RunTask? {
      QueueOf(s, e);
      assert s.batch[0] in Queue(s);
    }
    hide Next, Rearms, Queue, NoDup, KeysOk, RoundOk;
  }

  // ---- the bound ----

  /** The last read is at least an interval before the current tick began (and was not made during it). */
  predicate Overdue(s: State, c: ConnId)
    requires c in s.conns
  {
    s.conns[c].visited + s.interval <= s.tickNow && s.conns[c].visited < s.tickNow
  }

  /** Idle bound, told by the run alone. When a tick ends, a connection whose last read plus the interval is not after
      the time the tick began was found idle by a firing of its timer, was closed by its peer, was accepted in this
      very round of the loop, had bytes pending when its timer fired in this round, or had its token taken. */
  lemma IdleBound(s0: State, es: seq<Step>, c: ConnId)
    requires StartState(s0) && s0.interval > 0 && Trace(s0, es) && Enabled(After(s0, es), TickEnd)
    requires var read := LastRead(s0.clock, es, c);
      read.Some? && read.value + s0.interval <= TickTime(s0.clock, es)
    ensures FoundIdle(s0, es, c) || Close(c) in es || NewInRound(es, c) || BusyInRound(s0, es, c) || !Keeps(s0, es, c)
  {
    StartInv(s0);
    InvAlways(s0, es);
    History(s0, es, c);
    var s := After(s0, es);
    assert c in s.conns;
    if Live(s, c) && Keeps(s0, es, c) {
      TokenOnRun(s0, es, c);
      TickEndBound(s, c);
    }
  }

  lemma TickEndBound(s: State, c: ConnId)
    requires Inv(s) && s.interval > 0 && Enabled(s, TickEnd) && c in s.conns && Overdue(s, c) && HasToken(s, c)
    ensures c in s.born || c in s.busy
  {
    assert !InMap(s, c);
    assert Queue(s) == s.tasks;
  }

  /** Only a connection with bytes pending enters busy, only a newly accepted one enters born, and both are emptied
      when the round's tasks are swapped out. */
  lemma Excuses(s: State, e: Step, c: ConnId)
    requires Enabled(s, e)
    ensures c in Next(s, e).busy && c !in s.busy ==> c in s.conns && s.conns[c].pending
    ensures c in Next(s, e).born && c !in s.born ==> c !in s.conns
    ensures e.Swap? ==> Next(s, e).busy == {} && Next(s, e).born == {}
  {
  }

  // ---- runs that go wrong ----

  /** A run built step by step: `s` is where it has got to. */
  lemma Then(s0: State, es: seq<Step>, e: Step) returns (es': seq<Step>, s': State)
    requires Trace(s0, es) && Enabled(After(s0, es), e)
    ensures Trace(s0, es') && After(s0, es') == s' == Next(After(s0, es), e)
  {
    AfterMore(s0, es, e);
    es', s' := es + [e], Next(After(s0, es), e);
  }

  /** A live connection without a token: its timer will never check it again. */
  predicate Lost(s: State, c: ConnId) {
    c in s.conns && Live(s, c) && !HasToken(s, c)
  }

  /** Two connections accepted in the same microsecond: the second one's timer is lost. */
  lemma EqualExpirationsLoseTimer(s0: State) returns (es: seq<Step>)
    requires StartState(s0)
    ensures Trace(s0, es) && Lost(After(s0, es), 1)
  {
    var s: State;
    es, s := Then(s0, [], Accept(0));
    es, s := Then(s0, es, Accept(1));
    es, s := RunTwo(s0, es);
  }

  /** The loop swaps out two queued tasks and runs them. */
  lemma RunTwo(s0: State, es: seq<Step>) returns (es': seq<Step>, s': State)
    requires Trace(s0, es)
    requires var s := After(s0, es);
      s.phase == Handlers && |s.tasks| == 2 && s.tasks[0].c in s.conns && s.tasks[1].c in s.conns
    ensures Trace(s0, es') && After(s0, es') == s'
    ensures var s := After(s0, es);
      var s1 := Run(s.(phase := Tasks, batch := s.tasks, tasks := [], ticked := false, born := {}, rearmed := {}, busy := {}),
                    s.tasks[0]).(batch := [s.tasks[1]]);
      s' == Run(s1, s.tasks[1]).(batch := [])
  {
    var s := After(s0, es);
    es', s' := Then(s0, es, Swap);
    es', s' := Then(s0, es', RunTask);
    assert s.tasks[1..] == [s.tasks[1]];
    es', s' := Then(s0, es', RunTask);
    assert [s.tasks[1]][1..] == [];
  }

  /** A connection accepted at time `now` that has not been read. */
  function Silent(s: State, now: int): Conn {
    Conn(LONG_MAX, false, false, false, false, Wrap(now + s.interval), false)
  }

  /** Connections a and b are accepted d microseconds apart, and the loop has entered both timers into the map. */
  lemma AcceptTwo(s0: State, a: ConnId, b: ConnId, d: nat) returns (es: seq<Step>, s: State)
    requires StartState(s0) && a != b && d > 0 && s0.clock + d + s0.interval < LONG_MAX
    ensures Trace(s0, es) && After(s0, es) == s
    ensures var t, i := s0.clock, s0.interval;
      && s.phase == Tasks && s.batch == s.tasks == [] && !s.ticked && s.clock == t + d && s.interval == i
      && s.timers == map[t + i := a, t + d + i := b] && s.conns == map[a := Silent(s0, t), b := Silent(s0, t + d)]
  {
    es, s := Then(s0, [], Accept(a));
    es, s := Then(s0, es, Advance(d));
    es, s := Then(s0, es, Accept(b));
    assert s.tasks == [Add(a), Add(b)];
    es, s := RunTwo(s0, es);
  }

  /** Time passes until the second key, and a tick begins. */
  lemma WaitAndTick(s0: State, es0: seq<Step>) returns (es: seq<Step>, s: State)
    requires Trace(s0, es0) && After(s0, es0).phase == Tasks && After(s0, es0).batch == [] && !After(s0, es0).ticked
    requires After(s0, es0).clock + After(s0, es0).interval < LONG_MAX
    ensures Trace(s0, es) && After(s0, es) == s
    ensures var s1 := After(s0, es0);
      var now := s1.clock + s1.interval;
      s == s1.(phase := Ticking, ticked := true, tickNow := now, clock := now)
  {
    es, s := Then(s0, es0, Again);
    es, s := Then(s0, es, Advance(After(s0, es0).interval));
    es, s := Then(s0, es, TickBegin);
  }

  /** Two clients accepted at different times, d microseconds apart, that are both silent when a tick checks them:
      both are re-armed to the same expiration, and the second one's timer is lost. */
  lemma SilentClientsLoseTimer(s0: State, d: nat) returns (es: seq<Step>)
    requires StartState(s0) && d > 0 && s0.clock + d + s0.interval < LONG_MAX
    ensures Trace(s0, es) && Lost(After(s0, es), 1)
  {
    var s: State;
    es, s := AcceptTwo(s0, 0, 1, d);
    es, s := WaitAndTick(s0, es);
    es, s := FireSilent(s0, es, 0, 1);
    es, s := Then(s0, es, TickEnd);
    es, s := RunTwo(s0, es);
  }

  lemma FireOne(s0: State, es0: seq<Step>, k: int) returns (es: seq<Step>, s: State)
    requires Trace(s0, es0) && Enabled(After(s0, es0), Fire(k))
    ensures Trace(s0, es) && After(s0, es) == s == FireAt(After(s0, es0), k)
    ensures var s1 := After(s0, es0);
      s.timers == s1.timers - {k} && s.conns.Keys == s1.conns.Keys && s.phase == s1.phase && s.tickNow == s1.tickNow
  {
    es, s := Then(s0, es0, Fire(k));
    assert After(s0, es0).timers[k] in After(s0, es0).conns.Keys;
  }

  /** A tick fires the two timers in the map. */
  lemma FireTwo(s0: State, es0: seq<Step>, a: ConnId, b: ConnId) returns (es: seq<Step>, s2: State, s: State)
    requires Trace(s0, es0) && a in After(s0, es0).conns && b in After(s0, es0).conns
    requires var s1 := After(s0, es0);
      && s1.phase == Ticking && s1.conns[a].expired < s1.conns[b].expired <= s1.tickNow
      && s1.timers == map[s1.conns[a].expired := a, s1.conns[b].expired := b]
    ensures Trace(s0, es) && After(s0, es) == s
    ensures var s1 := After(s0, es0);
      var k := s1.conns[b].expired;
      && s2 == FireAt(s1, s1.conns[a].expired) && s2.timers == map[k := b] && b in s2.conns
      && s == FireAt(s2, k) && s.timers == map[]
  {
    var s1 := After(s0, es0);
    var k := s1.conns[b].expired;
    hide Trace, After, FireAt;
    es, s2 := FireOne(s0, es0, s1.conns[a].expired);
    assert s2.timers == map[k := b];
    assert b in s2.conns.Keys;
    es, s := FireOne(s0, es, k);
    assert s.timers == map[];
  }

  /** A tick checks two silent connections. */
  lemma FireSilent(s0: State, es0: seq<Step>, a: ConnId, b: ConnId) returns (es: seq<Step>, s: State)
    requires Trace(s0, es0) && a != b && a in After(s0, es0).conns && b in After(s0, es0).conns
    requires var s := After(s0, es0);
      && s.phase == Ticking && s.conns[a].expired < s.conns[b].expired <= s.tickNow == s.clock < LONG_MAX
      && s.timers == map[s.conns[a].expired := a, s.conns[b].expired := b] && s.tasks == []
      && s.conns[a] == Silent(s, s.conns[a].expired - s.interval)
      && s.conns[b] == Silent(s, s.conns[b].expired - s.interval)
    ensures Trace(s0, es) && After(s0, es) == s
    ensures s.phase == Ticking && s.timers == map[] && s.tasks == [Add(a), Add(b)] && s.interval == After(s0, es0).interval
    ensures a in s.conns && b in s.conns && Live(s, a) && Live(s, b)
    ensures s.conns[a].expired == s.conns[b].expired == Wrap(LONG_MAX + s.interval)
  {
    var s1, s2 := After(s0, es0), After(s0, es0);
    es, s2, s := FireTwo(s0, es0, a, b);
    hide Trace, After;
  }

  /** A closed connection takes another's timer along: 1 is accepted and both are read one microsecond later, when 0
      is accepted. The tick after the hold time shuts 0 down and, bytes being pending, re-arms 1 to the expiration of
      0; the removal of 0 then erases 1's map entry. */
  lemma RemovalTakesTimer(s0: State) returns (es: seq<Step>)
    requires StartState(s0) && s0.interval > 0 && s0.clock + 1 + s0.interval < LONG_MAX
    ensures Trace(s0, es) && Lost(After(s0, es), 1)
  {
    var s: State;
    es, s := AcceptTwo(s0, 1, 0, 1);
    es, s := Then(s0, es, Read(0));
    es, s := Then(s0, es, Read(1));
    es, s := Then(s0, es, Output(1, true));
    es, s := WaitAndTick(s0, es);
    es, s := FireBusyAndIdle(s0, es, 1, 0);
    es, s := Then(s0, es, TickEnd);
    es, s := Then(s0, es, Close(0));
    es, s := RunTwo(s0, es);
  }

  /** A tick checks a, which has bytes pending, and then b, which has not; both were read when b was accepted. */
  lemma FireBusyAndIdle(s0: State, es0: seq<Step>, a: ConnId, b: ConnId) returns (es: seq<Step>, s: State)
    requires Trace(s0, es0) && a != b && a in After(s0, es0).conns && b in After(s0, es0).conns
    requires var s := After(s0, es0);
      && s.phase == Ticking && s.conns[a].expired < s.conns[b].expired == s.tickNow == s.clock < LONG_MAX
      && s.timers == map[s.conns[a].expired := a, s.conns[b].expired := b] && s.tasks == []
      && s.conns[a].visited == s.conns[b].visited == s.clock - s.interval && s.conns[a].pending && !s.conns[b].pending
      && Live(s, a) && Live(s, b) && Acts(s.conns[a]) && Acts(s.conns[b]) && !s.conns[b].closed
    ensures Trace(s0, es) && After(s0, es) == s
    ensures s.phase == Ticking && s.timers == map[] && s.tasks == [Add(a)] && s.interval == After(s0, es0).interval
    ensures a in s.conns && b in s.conns && Live(s, a) && !s.conns[b].closed
    ensures s.conns[a].expired == s.conns[b].expired
  {
    var s1, s2 := After(s0, es0), After(s0, es0);
    es, s2, s := FireTwo(s0, es0, a, b);
    hide Trace, After;
  }

  // ---- why the hold time must be positive ----

  /** No live timer is due later than the last read plus the interval. */
  ghost predicate KeysBounded(s: State) {
    forall c :: c in s.conns && !s.conns[c].removed ==> s.conns[c].expired <= s.conns[c].visited + s.interval
  }

  /** With a hold time of 0, a connection that is checked before its first read is given the last possible
      expiration: once it is read, its timer is due far too late. */
  lemma ZeroHoldRun(s0: State) returns (es: seq<Step>)
    requires StartState(s0) && s0.interval == 0
    ensures Trace(s0, es) && !KeysBounded(After(s0, es))
  {
    var s: State;
    es, s := Then(s0, [], Accept(0));
    es, s := Then(s0, es, Swap);
    es, s := Then(s0, es, RunTask);
    assert s.timers == map[s0.clock := 0];
    es, s := Then(s0, es, Again);
    es, s := Then(s0, es, TickBegin);
    es, s := Then(s0, es, Fire(s0.clock));
    es, s := Then(s0, es, Read(0));
    assert s.conns[0].expired == LONG_MAX && s.conns[0].visited == s0.clock;
  }

  /** Every live timer stays due within an interval of the last read, in every run, exactly when the hold time is
      positive. */
  lemma KeysBoundedExact(s0: State)
    requires StartState(s0)
    ensures (forall es :: Trace(s0, es) ==> KeysBounded(After(s0, es))) <==> s0.interval > 0
  {
    if s0.interval > 0 {
      forall es | Trace(s0, es) ensures KeysBounded(After(s0, es)) {
        StartInv(s0);
        InvAlways(s0, es);
        IntervalStays(s0, es);
      }
    } else {
      var es := ZeroHoldRun(s0);
    }
  }
}
