/** The main loop's side of the idle-connection protocol as an object: TcpServer::newConnection and
    removeConnectionInLoop, TimerQueue::handleRead and addTimerInLoop, TcpConnection::handleTimer.
    Each method is the step, or the steps, of module IdleTimers it implements. */
module IdleServers {
  import opened TimerQueues
  import opened IdleTimers

  /** The steps of one undisturbed pass over the due timers. */
  function Fires(fired: seq<(int, ConnId)>): seq<Step> {
    if fired == [] then [] else Fires(fired[..|fired| - 1]) + [Fire(fired[|fired| - 1].0)]
  }

  lemma NoFires(s: State)
    ensures Trace(s, Fires([])) && After(s, Fires([])) == s
  {
  }

  lemma FiresMore(fired: seq<(int, ConnId)>, f: (int, ConnId))
    ensures Fires(fired + [f]) == Fires(fired) + [Fire(f.0)]
  {
    assert (fired + [f])[..|fired|] == fired;
  }

  class Server {
    const interval: nat
    var clock: int
    var conns: map<ConnId, Conn>
    const timerQueue: TimerQueue<ConnId>
    var tasks_: seq<Task>
    var batch: seq<Task>        // t_task
    ghost var phase: Phase
    ghost var ticked: bool
    ghost var tickNow: int
    ghost var born: set<ConnId>
    ghost var rearmed: set<ConnId>
    ghost var busy: set<ConnId>

    ghost function Abs(): State
      reads this, timerQueue
    {
      State(interval, clock, conns, timerQueue.timers_, tasks_, batch, phase, ticked, tickNow, born, rearmed, busy)
    }

    constructor (hold: nat, now: int)
      requires hold <= LONG_MAX && 0 <= now < LONG_MAX
      ensures StartState(Abs())
    {
      interval, clock := hold, now;
      timerQueue := new TimerQueue<ConnId>();
      conns, tasks_, batch := map[], [], [];
      phase, ticked, tickNow, born, rearmed, busy := Handlers, false, now, {}, {}, {};
    }

    /** newConnection: a timer expiring one interval from now is queued for the timer map. */
    method NewConnection(c: ConnId)
      requires Enabled(Abs(), Accept(c))
      modifies this
      ensures Abs() == Next(old(Abs()), Accept(c))
    {
      var when := Wrap(clock + interval);
      conns := conns[c := Conn(LONG_MAX, false, false, false, false, when, false)];
      tasks_, born := tasks_ + [Add(c)], born + {c};
    }

    /** Timer::run and TcpConnection::handleTimer for the earliest timer, then its erasure from the map. */
    method RunTimer(k: int)
      requires Enabled(Abs(), Fire(k))
      modifies this, timerQueue
      ensures Abs() == Next(old(Abs()), Fire(k))
    {
      var c := timerQueue.timers_[k];
      var conn := conns[c];
      if !conn.destroyed && !conn.removed {
        var remain := clock - conn.visited;
        if remain < interval || conn.pending {
          conns := conns[c := conn.(expired := Wrap(conn.visited + interval))];
          tasks_ := tasks_ + [Add(c)];
          rearmed := rearmed + {c};
          if conn.pending {
            busy := busy + {c};
          }
        } else {
          conns := conns[c := conn.(shut := true)];
        }
      }
      timerQueue.timers_ := timerQueue.timers_ - {k};
    }

    /** handleRead with nobody interfering: the tick begins, exactly the due timers fire, in order, the tick ends. It
        ends although timers may be re-armed into the past, because they go to the task queue. */
    method HandleRead() returns (ghost fired: seq<(int, ConnId)>)
      requires Enabled(Abs(), TickBegin) && forall k :: k in timerQueue.timers_ ==> timerQueue.timers_[k] in conns
      modifies this, timerQueue
      ensures var s1 := Next(old(Abs()), TickBegin);
        Trace(s1, Fires(fired)) && Enabled(After(s1, Fires(fired)), TickEnd)
        && Abs() == Next(After(s1, Fires(fired)), TickEnd)
      ensures Due(old(timerQueue.timers_), old(clock), fired)
      ensures timerQueue.timers_ == map k | k in old(timerQueue.timers_) && old(clock) < k :: old(timerQueue.timers_)[k]
    {
      hide FireAt, Trace, After, Fires, Progress, Due;
      var now := clock;
      phase, ticked, tickNow := Ticking, true, now;
      ghost var s1, all := Abs(), timerQueue.timers_;
      fired := [];
      NoFires(s1);
      ProgressStart(all, now);
      while timerQueue.timers_.Keys != {}
        invariant Trace(s1, Fires(fired)) && Abs() == After(s1, Fires(fired))
        invariant phase == Ticking && tickNow == now
        invariant forall k :: k in timerQueue.timers_ ==> timerQueue.timers_[k] in conns
        invariant Progress(all, timerQueue.timers_, now, fired)
        decreases |timerQueue.timers_|
      {
        LeastKeyExists(timerQueue.timers_);
        var key: int :| LeastKey(key, timerQueue.timers_);
        if key <= now {
          FireKeeps(Abs(), key);
          ProgressStep(all, timerQueue.timers_, now, fired, key);
          AfterMore(s1, Fires(fired), Fire(key));
          FiresMore(fired, (key, timerQueue.timers_[key]));
          fired := fired + [(key, timerQueue.timers_[key])];
          RunTimer(key);
        } else {
          break;
        }
      }
      ProgressDone(all, timerQueue.timers_, now, fired);
      phase := Handlers;
    }

    /** addTimerInLoop or removeConnectionInLoop, whichever is next. */
    method RunNextTask()
      requires Enabled(Abs(), RunTask)
      modifies this, timerQueue
      ensures Abs() == Next(old(Abs()), RunTask)
    {
      var task := batch[0];
      if task.Add? {
        var when := conns[task.c].expired;
        timerQueue.AddTimerInLoop(when, task.c);
      } else {
        if interval > 0 {
          timerQueue.DeleteTimer(conns[task.c].expired);
        }
        conns := conns[task.c := conns[task.c].(removed := true)];
      }
      batch := batch[1..];
    }
  }

  lemma FireKeeps(s: State, k: int)
    requires Enabled(s, Fire(k)) && forall j :: j in s.timers ==> s.timers[j] in s.conns
    ensures var s' := Next(s, Fire(k));
      && s'.timers == s.timers - {k} && s'.conns.Keys == s.conns.Keys
      && s'.phase == s.phase && s'.tickNow == s.tickNow && s'.clock == s.clock
  {
    assert s.conns.Keys == s.conns.Keys + {s.timers[k]};
  }
}
