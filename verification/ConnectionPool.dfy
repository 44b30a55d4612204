/** http/sql_connection_pool.cc: the database connection pool, used by any number of threads through connectionRAII. */
module ConnectionPools {
  import opened Counting

  /** A MYSQL*, as an address. */
  type Handle = nat

  /** A user: past the unlocked test of the list; waiting on the condition; woken but without the mutex; holding a
      connection; holding NULL; between the unlock and the signal of ReleaseConnection. */
  datatype Point = WantLock | WaitConn | WokenConn | Holding | HoldingNull | Signalling

  datatype State = State(
    connList: seq<Handle>, freeConn: int, curConn: int, maxConn: int,
    pc: map<Tid, Point>, held: map<Tid, Handle>)

  /** What init leaves: every opened connection in the list. */
  function Init(handles: seq<Handle>): State {
    State(handles, |handles|, 0, |handles|, map[], map[])
  }

  datatype Step =
    | Test(t: Tid)                    // GetConnection's test of connList.size(), outside the mutex
    | PassGet(t: Tid)                 // one pass of GetConnection's critical section
    | Release(t: Tid)                 // ReleaseConnection up to the unlock
    | Signal(t: Tid, w: set<Tid>)     // its signal; w are the threads it wakes
    | Spurious(t: Tid)

  ghost predicate Enabled(s: State, e: Step) {
    match e
    case Test(t) => t !in s.pc
    case PassGet(t) => t in s.pc && (s.pc[t] == WantLock || s.pc[t] == WokenConn)
    case Release(t) => t in s.pc && (s.pc[t] == Holding || s.pc[t] == HoldingNull)
    case Signal(t, w) => t in s.pc && s.pc[t] == Signalling && Signals(s.pc - {t}, WaitConn, w)
    case Spurious(t) => t in s.pc && s.pc[t] == WaitConn
  }

  /** What makes the code's list and handle accesses defined. */
  ghost predicate Consistent(s: State) {
    && s.freeConn == |s.connList|
    && (forall t :: t in s.held <==> t in s.pc && s.pc[t] == Holding)
  }

  ghost function Next(s: State, e: Step): (s': State)
    requires Consistent(s) && Enabled(s, e)
    ensures Consistent(s')
  {
    match e
    case Test(t) => s.(pc := s.pc[t := if |s.connList| == 0 then HoldingNull else WantLock])
    case PassGet(t) =>
      if s.freeConn == 0 then s.(pc := s.pc[t := WaitConn])
      else
        s.(connList := s.connList[1..], freeConn := s.freeConn - 1, curConn := s.curConn + 1,
           pc := s.pc[t := Holding], held := s.held[t := s.connList[0]])
    case Release(t) =>
      if s.pc[t] == HoldingNull then s.(pc := s.pc - {t})
      else
        s.(connList := s.connList + [s.held[t]], freeConn := s.freeConn + 1, curConn := s.curConn - 1,
           pc := s.pc[t := Signalling], held := s.held - {t})
    case Signal(t, w) => s.(pc := Moved(s.pc - {t}, w, WokenConn))
    case Spurious(t) => s.(pc := s.pc[t := WokenConn])
  }

  ghost predicate Trace(s: State, es: seq<Step>)
    requires Consistent(s)
    decreases |es|
  {
    es == [] || (Enabled(s, es[0]) && Trace(Next(s, es[0]), es[1..]))
  }

  ghost function After(s: State, es: seq<Step>): (s': State)
    requires Consistent(s) && Trace(s, es)
    ensures Consistent(s')
    decreases |es|
  {
    if es == [] then s else After(Next(s, es[0]), es[1..])
  }

  ghost predicate Distinct(l: seq<Handle>) {
    forall i, j :: 0 <= i < j < |l| ==> l[i] != l[j]
  }

  /** Every handle of `all` is in the list exactly once or held by exactly one user, and nothing else is. */
  ghost predicate Owned(s: State, all: set<Handle>) {
    && Distinct(s.connList)
    && (forall t :: t in s.held ==> s.held[t] !in s.connList && s.held[t] in all)
    && (forall t, u :: t in s.held && u in s.held && s.held[t] == s.held[u] ==> t == u)
    && (forall h :: h in s.connList ==> h in all)
    && (forall h :: h in all ==> h in s.connList || h in s.held.Values)
  }

  /** Waiting users leave at most as many free connections as there are users woken or about to signal. */
  ghost predicate Covered(s: State) {
    |At(s.pc, WaitConn)| > 0 ==> s.freeConn <= |At(s.pc, WokenConn)| + |At(s.pc, Signalling)|
  }

  /** Only a pool that has connections lets anybody past the test. */
  ghost predicate NonEmptyPool(s: State) {
    forall t :: t in s.pc && s.pc[t] != HoldingNull ==> s.maxConn > 0
  }

  ghost predicate Inv(s: State, all: set<Handle>) {
    && Consistent(s) && Owned(s, all) && Covered(s) && NonEmptyPool(s)
    && s.freeConn + s.curConn == s.maxConn && s.curConn == |s.held|
  }

  /** The three counts behind Covered, before and after one thread moves. */
  lemma CountsOfMove(pc: map<Tid, Point>, t: Tid, to: Point)
    ensures forall p :: p in {WaitConn, WokenConn, Signalling} ==>
      |At(pc[t := to], p)| == |At(pc, p)| - (if t in pc && pc[t] == p then 1 else 0) + (if to == p then 1 else 0)
  {
    forall p | p in {WaitConn, WokenConn, Signalling} {
      AtMove(pc, t, to, p);
    }
  }

  lemma CoveredStep(s: State, e: Step)
    requires Consistent(s) && Covered(s) && Enabled(s, e)
    ensures Covered(Next(s, e))
  {
    match e
    case Test(t) => CountsOfMove(s.pc, t, if |s.connList| == 0 then HoldingNull else WantLock);
    case PassGet(t) => CountsOfMove(s.pc, t, if s.freeConn == 0 then WaitConn else Holding);
    case Release(t) =>
      CountsOfMove(s.pc, t, Signalling);
      AtLeave(s.pc, t, WaitConn);
      AtLeave(s.pc, t, WokenConn);
      AtLeave(s.pc, t, Signalling);
    case Signal(t, w) => SignalCovered(s, t, w);
    case Spurious(t) => CountsOfMove(s.pc, t, WokenConn);
  }

  lemma SignalCovered(s: State, t: Tid, w: set<Tid>)
    requires Consistent(s) && Covered(s) && Enabled(s, Signal(t, w))
    ensures Covered(Next(s, Signal(t, w)))
  {
    var pc := s.pc - {t};
    AtLeave(s.pc, t, WaitConn);
    AtLeave(s.pc, t, WokenConn);
    AtLeave(s.pc, t, Signalling);
    AtMoved(pc, w, WaitConn, WokenConn, WaitConn);
    AtMoved(pc, w, WaitConn, WokenConn, WokenConn);
    AtMoved(pc, w, WaitConn, WokenConn, Signalling);
    assert |At(pc, WaitConn)| > 0 ==> At(pc, WaitConn) != {};
    assert w != {} ==> |w| > 0;
  }

  lemma OwnedGet(s: State, t: Tid, all: set<Handle>)
    requires Consistent(s) && Owned(s, all) && Enabled(s, PassGet(t)) && s.freeConn > 0
    ensures Owned(Next(s, PassGet(t)), all) && |Next(s, PassGet(t)).held| == |s.held| + 1
  {
    var s' := Next(s, PassGet(t));
    var h := s.connList[0];
    assert s.connList == [h] + s.connList[1..];
    assert h !in s'.connList;
    assert s'.held.Keys == s.held.Keys + {t};
    forall x | x in all ensures x in s'.connList || x in s'.held.Values {
      if x in s.held.Values {
        var u :| u in s.held && s.held[u] == x;
        assert s'.held[u] == x;
      } else if x == h {
        assert s'.held[t] == x;
      }
    }
  }

  lemma OwnedRelease(s: State, t: Tid, all: set<Handle>)
    requires Consistent(s) && Owned(s, all) && t in s.held && Enabled(s, Release(t))
    ensures Owned(Next(s, Release(t)), all) && |Next(s, Release(t)).held| == |s.held| - 1
  {
    var s' := Next(s, Release(t));
    assert s'.held.Keys == s.held.Keys - {t};
    assert s'.connList[|s.connList|] == s.held[t];
    forall x | x in all ensures x in s'.connList || x in s'.held.Values {
      if x in s.held.Values {
        var u :| u in s.held && s.held[u] == x;
        if u != t {
          assert s'.held[u] == x;
        }
      }
    }
  }

  lemma InvStep(s: State, e: Step, all: set<Handle>)
    requires Inv(s, all) && Enabled(s, e)
    ensures Inv(Next(s, e), all) && Next(s, e).maxConn == s.maxConn
  {
    CoveredStep(s, e);
    match e
    case PassGet(t) => if s.freeConn > 0 { OwnedGet(s, t, all); }
    case Release(t) => if s.pc[t] == Holding { OwnedRelease(s, t, all); }
    case _ =>
  }

  lemma {:induction false} InvAlways(s: State, es: seq<Step>, all: set<Handle>)
    requires Inv(s, all) && Trace(s, es)
    ensures Inv(After(s, es), all) && After(s, es).maxConn == s.maxConn
    decreases |es|
  {
    if es != [] {
      InvStep(s, es[0], all);
      InvAlways(Next(s, es[0]), es[1..], all);
    }
  }

  ghost function SetOf(l: seq<Handle>): set<Handle> { set h | h in l }

  lemma InitInv(handles: seq<Handle>)
    requires Distinct(handles)
    ensures Inv(Init(handles), SetOf(handles))
  {
    assert At(Init(handles).pc, WaitConn) == {};
  }

  /** Exclusive ownership over every interleaving: each connection opened by init is in the list once or held by
      exactly one user, and the two counters add up to the number of connections. */
  lemma ExclusiveOwnership(handles: seq<Handle>, es: seq<Step>)
    requires Distinct(handles) && Trace(Init(handles), es)
    ensures var s := After(Init(handles), es);
      && Owned(s, SetOf(handles)) && s.freeConn == |s.connList| && s.curConn == |s.held|
      && s.freeConn + s.curConn == |handles|
  {
    InitInv(handles);
    InvAlways(Init(handles), es, SetOf(handles));
  }

  /** No lost signal, although it is sent after the unlock: when a user waits and nobody is woken or about to signal,
      no connection is free and every one of them is held by a user who has yet to release it. */
  lemma WaitersHaveCause(handles: seq<Handle>, es: seq<Step>)
    requires Distinct(handles) && Trace(Init(handles), es)
    ensures var s := After(Init(handles), es);
      At(s.pc, WaitConn) != {} && At(s.pc, WokenConn) == {} && At(s.pc, Signalling) == {} ==>
        s.connList == [] && |s.held| == |handles| > 0
  {
    InitInv(handles);
    InvAlways(Init(handles), es, SetOf(handles));
  }

  // ---- the order in which connections are handed out ----

  ghost function GivenBy(s: State, es: seq<Step>): seq<Handle>
    requires Consistent(s) && Trace(s, es)
    decreases |es|
  {
    if es == [] then [] else GivenOne(s, es[0]) + GivenBy(Next(s, es[0]), es[1..])
  }

  ghost function ReturnedBy(s: State, es: seq<Step>): seq<Handle>
    requires Consistent(s) && Trace(s, es)
    decreases |es|
  {
    if es == [] then [] else ReturnedOne(s, es[0]) + ReturnedBy(Next(s, es[0]), es[1..])
  }

  /** The handle a user holds after the step and not before, and the other way round. */
  ghost function GivenOne(s: State, e: Step): seq<Handle>
    requires Consistent(s) && Enabled(s, e)
  {
    if e.t in Next(s, e).held && e.t !in s.held then [Next(s, e).held[e.t]] else []
  }

  ghost function ReturnedOne(s: State, e: Step): seq<Handle>
    requires Consistent(s) && Enabled(s, e)
  {
    if e.t in s.held && e.t !in Next(s, e).held then [s.held[e.t]] else []
  }

  lemma FifoStep(s: State, e: Step)
    requires Consistent(s) && Enabled(s, e)
    ensures s.connList + ReturnedOne(s, e) == GivenOne(s, e) + Next(s, e).connList
  {
    if e.PassGet? && s.freeConn != 0 {
      assert s.connList == [s.connList[0]] + s.connList[1..];
    }
  }

  /** First in, first out: the connections handed out, followed by the list, are the initial list followed by the
      connections returned, in that order. */
  lemma {:induction false} PoolFifo(s: State, es: seq<Step>)
    requires Consistent(s) && Trace(s, es)
    ensures s.connList + ReturnedBy(s, es) == GivenBy(s, es) + After(s, es).connList
    decreases |es|
  {
    hide Next, Enabled, Consistent, GivenOne, ReturnedOne;
    if es == [] {
      assert s.connList + [] == [] + s.connList;
    } else {
      var s' := Next(s, es[0]);
      FifoStep(s, es[0]);
      PoolFifo(s', es[1..]);
      Regroup(s.connList, ReturnedOne(s, es[0]), ReturnedBy(s', es[1..]),
              GivenOne(s, es[0]), s'.connList, GivenBy(s', es[1..]), After(s, es).connList);
    }
  }

  lemma Regroup(l: seq<Handle>, r1: seq<Handle>, r: seq<Handle>, g1: seq<Handle>, m: seq<Handle>, g: seq<Handle>,
                n: seq<Handle>)
    requires l + r1 == g1 + m && m + r == g + n
    ensures l + (r1 + r) == (g1 + g) + n
  {
    assert l + (r1 + r) == (l + r1) + r == g1 + (m + r);
  }

  // ---- the object ----

  class ConnectionPool {
    var connList: seq<Handle>
    var m_FreeConn: int
    var m_CurConn: int
    var m_MaxConn: int
    ghost var pc: map<Tid, Point>
    ghost var held: map<Tid, Handle>

    ghost function Abs(): State
      reads this
    {
      State(connList, m_FreeConn, m_CurConn, m_MaxConn, pc, held)
    }

    constructor ()
      ensures Abs() == Init([])
    {
      connList, m_FreeConn, m_CurConn, m_MaxConn := [], 0, 0, 0;
      pc, held := map[], map[];
    }

    /** init: opens the connections; `cons` are the handles the database returns. */
    method Open(cons: seq<Handle>)
      requires Abs() == Init([])
      modifies this
      ensures Abs() == Init(cons)
    {
      for i := 0 to |cons|
        invariant connList == cons[..i] && m_FreeConn == i && m_CurConn == 0 && pc == map[] && held == map[]
      {
        connList := connList + [cons[i]];
        m_FreeConn := m_FreeConn + 1;
      }
      m_MaxConn := m_FreeConn;
    }

    /** The unlocked test: true when GetConnection returns NULL at once. */
    method TestEmpty(ghost t: Tid) returns (isNull: bool)
      requires Consistent(Abs()) && Enabled(Abs(), Test(t))
      modifies this`pc
      ensures Abs() == Next(old(Abs()), Test(t)) && isNull == (connList == [])
    {
      isNull := |connList| == 0;
      pc := pc[t := if isNull then HoldingNull else WantLock];
    }

    /** One pass of the locked part of GetConnection: a handle, or nothing when the user has to wait. */
    method GetPass(ghost t: Tid) returns (con: seq<Handle>)
      requires Consistent(Abs()) && Enabled(Abs(), PassGet(t))
      modifies this
      ensures Abs() == Next(old(Abs()), PassGet(t))
      ensures con + connList == old(connList) && (con == [] <==> old(m_FreeConn) == 0)
      ensures con != [] ==> t in held && con == [held[t]]
    {
      if m_FreeConn == 0 {
        pc := pc[t := WaitConn];
        return [];
      }
      con := [connList[0]];
      connList := connList[1..];
      m_FreeConn, m_CurConn := m_FreeConn - 1, m_CurConn + 1;
      pc, held := pc[t := Holding], held[t := con[0]];
    }

    /** The locked part of ReleaseConnection for a handle that is not NULL. */
    method ReleaseLocked(con: Handle, ghost t: Tid)
      requires Consistent(Abs()) && t in held && held[t] == con && Enabled(Abs(), Release(t))
      modifies this
      ensures Abs() == Next(old(Abs()), Release(t))
    {
      connList := connList + [con];
      m_FreeConn, m_CurConn := m_FreeConn + 1, m_CurConn - 1;
      pc, held := pc[t := Signalling], held - {t};
    }
  }
}
