/** net/TimerQueue.cc: the ordered timer map and one pass over its due entries. */
module TimerQueues {

  const MICROSECONDS_PER_SECOND: int := 1_000_000

  datatype Timespec = Timespec(sec: int, nsec: int)

  /** howMuchTimeFromNow: never less than 100 microseconds. */
  function HowMuchTimeFromNow(when: int, now: int): Timespec {
    var microseconds := if when - now < 100 then 100 else when - now;
    Timespec(microseconds / MICROSECONDS_PER_SECOND, microseconds % MICROSECONDS_PER_SECOND * 1000)
  }

  /** The pair handed to timerfd_settime is a proper one and denotes the distance to `when`, or 100 microseconds. */
  lemma DelayExact(when: int, now: int)
    ensures var t := HowMuchTimeFromNow(when, now);
      && t.sec >= 0 && 0 <= t.nsec < 1_000_000_000
      && t.sec * 1_000_000_000 + t.nsec == 1000 * if when - now < 100 then 100 else when - now
  {
  }

  // ---- the map, a std::map keyed by expiration alone ----

  /** insert: nothing happens when the expiration is already a key. */
  function Inserted<T>(m: map<int, T>, when: int, timer: T): map<int, T> {
    if when in m then m else m[when := timer]
  }

  function Erased<T>(m: map<int, T>, t: int): map<int, T> {
    m - {t}
  }

  /** Deleting a timer by its expiration undoes its insertion exactly when the expiration was free; otherwise it
      deletes the timer that was there. */
  lemma InsertErase<T>(m: map<int, T>, when: int, timer: T)
    ensures Erased(Inserted(m, when, timer), when) == m <==> when !in m
    ensures when in m ==> Erased(Inserted(m, when, timer), when).Keys == m.Keys - {when}
  {
    if when in m {
      assert when !in Erased(Inserted(m, when, timer), when);
    }
  }

  /** The order in which two timers are inserted does not matter, exactly when they do not compete for a free key. */
  lemma InsertOrder<T>(m: map<int, T>, a: int, x: T, b: int, y: T)
    ensures Inserted(Inserted(m, a, x), b, y) == Inserted(Inserted(m, b, y), a, x) <==> a != b || x == y || a in m
  {
    if a == b && x != y && a !in m {
      assert Inserted(Inserted(m, a, x), b, y)[a] == x && Inserted(Inserted(m, b, y), a, x)[a] == y;
    }
  }

  predicate LeastKey<T>(k: int, m: map<int, T>) {
    k in m && forall j :: j in m ==> k <= j
  }

  lemma {:induction false} LeastOf(s: set<int>)
    requires s != {}
    ensures exists k :: k in s && forall j :: j in s ==> k <= j
  {
    assert (forall x :: x !in s) ==> s == {};
    var x :| x in s;
    var rest := s - {x};
    if rest == {} {
      assert s == {x};
    } else {
      LeastOf(rest);
      var k :| k in rest && forall j :: j in rest ==> k <= j;
      var least := if k < x then k else x;
      assert forall j :: j in s ==> j == x || j in rest;
      assert least in s && forall j :: j in s ==> least <= j;
    }
  }

  lemma LeastKeyExists<T>(m: map<int, T>)
    requires m.Keys != {}
    ensures exists k :: LeastKey(k, m)
  {
    LeastOf(m.Keys);
    var k :| k in m.Keys && forall j :: j in m.Keys ==> k <= j;
    assert LeastKey(k, m);
  }

  /** fired lists exactly the entries of m with key at most now, in ascending key order (so each once). */
  ghost predicate Due<T>(m: map<int, T>, now: int, fired: seq<(int, T)>) {
    && (forall i, j :: 0 <= i < j < |fired| ==> fired[i].0 < fired[j].0)
    && (forall i :: 0 <= i < |fired| ==> fired[i].0 in m && m[fired[i].0] == fired[i].1 && fired[i].0 <= now)
    && (forall k :: k in m && k <= now ==> (k, m[k]) in fired)
  }

  lemma {:induction false} DueUnique<T>(m: map<int, T>, now: int, a: seq<(int, T)>, b: seq<(int, T)>)
    requires Due(m, now, a) && Due(m, now, b)
    ensures a == b
    decreases |a|
  {
    DueHeads(m, now, a, b);
    if a != [] {
      DueRest(m, now, a);
      DueRest(m, now, b);
      hide Due;
      DueUnique(m - {a[0].0}, now, a[1..], b[1..]);
      assert a == [a[0]] + a[1..] && b == [b[0]] + b[1..];
    }
  }

  lemma DueHeads<T>(m: map<int, T>, now: int, a: seq<(int, T)>, b: seq<(int, T)>)
    requires Due(m, now, a) && Due(m, now, b)
    ensures a == [] <==> b == []
    ensures a != [] ==> a[0] == b[0]
  {
    if a != [] {
      HeadIn(m, now, a, b);
    }
    if b != [] {
      HeadIn(m, now, b, a);
    }
  }

  lemma HeadIn<T>(m: map<int, T>, now: int, a: seq<(int, T)>, b: seq<(int, T)>)
    requires Due(m, now, a) && Due(m, now, b) && a != []
    ensures b != [] && b[0].0 <= a[0].0
  {
    assert (a[0].0, m[a[0].0]) in b;
  }

  lemma DueRest<T>(m: map<int, T>, now: int, a: seq<(int, T)>)
    requires Due(m, now, a) && a != []
    ensures Due(m - {a[0].0}, now, a[1..])
  {
    var m' := m - {a[0].0};
    forall k | k in m' && k <= now ensures (k, m'[k]) in a[1..] {
      assert (k, m[k]) in a;
    }
  }

  /** The timers whose callback asked to be added again, in the order they fired. */
  function Readded<T>(fired: seq<(int, T)>, again: (int, T) -> bool): seq<T> {
    if fired == [] then []
    else
      var last := fired[|fired| - 1];
      Readded(fired[..|fired| - 1], again) + if again(last.0, last.1) then [last.1] else []
  }

  lemma ReaddedMore<T>(fired: seq<(int, T)>, e: (int, T), again: (int, T) -> bool)
    ensures Readded(fired + [e], again) == Readded(fired, again) + if again(e.0, e.1) then [e.1] else []
  {
    assert (fired + [e])[..|fired|] == fired;
  }

  lemma ReaddedNone<T>(again: (int, T) -> bool)
    ensures Readded([], again) == []
  {
  }

  /** In the middle of a pass over m: rest is what is left of it, fired what has fired. */
  ghost predicate Progress<T>(m: map<int, T>, rest: map<int, T>, now: int, fired: seq<(int, T)>) {
    && (forall k :: k in rest ==> k in m && rest[k] == m[k])
    && (forall i, j :: 0 <= i < j < |fired| ==> fired[i].0 < fired[j].0)
    && (forall i :: 0 <= i < |fired| ==> fired[i].0 in m && m[fired[i].0] == fired[i].1 && fired[i].0 <= now)
    && (forall i, k :: 0 <= i < |fired| && k in rest ==> fired[i].0 < k)
    && (forall k :: k in m && k !in rest ==> k <= now && (k, m[k]) in fired)
  }

  lemma ProgressStart<T>(m: map<int, T>, now: int)
    ensures Progress(m, m, now, [])
  {
  }

  lemma ProgressStep<T>(m: map<int, T>, rest: map<int, T>, now: int, fired: seq<(int, T)>, key: int)
    requires Progress(m, rest, now, fired) && LeastKey(key, rest) && key <= now
    ensures Progress(m, rest - {key}, now, fired + [(key, rest[key])])
  {
    var fired' := fired + [(key, rest[key])];
    forall k | k in m && k !in rest - {key} ensures k <= now && (k, m[k]) in fired' {
      if k == key {
        assert fired'[|fired|] == (k, m[k]);
      } else {
        assert (k, m[k]) in fired;
      }
    }
  }

  lemma ProgressDone<T>(m: map<int, T>, rest: map<int, T>, now: int, fired: seq<(int, T)>)
    requires Progress(m, rest, now, fired) && forall k :: k in rest ==> now < k
    ensures Due(m, now, fired) && rest == map k | k in m && now < k :: m[k]
  {
    var late := map k | k in m && now < k :: m[k];
    assert forall k :: k in late ==> k in rest;
    assert forall k :: k in rest ==> k in late;
    assert rest.Keys == late.Keys;
  }

  class TimerQueue<T(==)> {
    var timers_: map<int, T>

    constructor ()
      ensures timers_ == map[]
    {
      timers_ := map[];
    }

    method AddTimerInLoop(when: int, timer: T)
      modifies this`timers_
      ensures timers_ == Inserted(old(timers_), when, timer)
    {
      if when !in timers_ {
        timers_ := timers_[when := timer];
      }
    }

    method DeleteTimer(t: int)
      modifies this`timers_
      ensures timers_ == Erased(old(timers_), t)
    {
      if t in timers_ {
        timers_ := timers_ - {t};
      }
    }

    /** One tick. Whatever the callbacks decide and to whatever time they re-arm, every entry with key at most now
        fires exactly once, in key order; the entries left are those with later keys; what was re-armed (addTimer only
        queues in the loop) is returned in `posted`. The pass ends because nothing is inserted meanwhile. */
    method HandleRead(now: int, again: (int, T) -> bool) returns (fired: seq<(int, T)>, posted: seq<T>)
      modifies this
      ensures Due(old(timers_), now, fired)
      ensures timers_ == map k | k in old(timers_) && now < k :: old(timers_)[k]
      ensures posted == Readded(fired, again)
    {
      hide Progress, Due, Readded;
      fired, posted := [], [];
      ghost var all := timers_;
      ProgressStart(all, now);
      ReaddedNone<T>(again);
      while timers_.Keys != {}
        invariant Progress(all, timers_, now, fired)
        invariant posted == Readded(fired, again)
        decreases |timers_|
      {
        LeastKeyExists(timers_);
        var key: int :| LeastKey(key, timers_);
        if key <= now {
          var timer := timers_[key];
          if again(key, timer) {
            posted := posted + [timer];
          }
          ReaddedMore(fired, (key, timer), again);
          ProgressStep(all, timers_, now, fired, key);
          fired := fired + [(key, timer)];
          timers_ := timers_ - {key};
        } else {
          break;
        }
      }
      ProgressDone(all, timers_, now, fired);
    }
  }
}
