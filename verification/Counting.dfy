/** Counting the threads at a program point. */
module Counting {
  type Tid = nat

  /** The threads at point p. */
  function At<P(==)>(pc: map<Tid, P>, p: P): set<Tid> {
    set t | t in pc && pc[t] == p
  }

  lemma AtMove<P>(pc: map<Tid, P>, t: Tid, to: P, p: P)
    ensures |At(pc[t := to], p)|
      == |At(pc, p)| - (if t in pc && pc[t] == p then 1 else 0) + (if to == p then 1 else 0)
  {
    var a, b := At(pc, p), At(pc[t := to], p);
    if to == p {
      assert b == a + {t};
    } else {
      assert b == a - {t};
    }
  }

  lemma AtLeave<P>(pc: map<Tid, P>, t: Tid, p: P)
    ensures |At(pc - {t}, p)| == |At(pc, p)| - (if t in pc && pc[t] == p then 1 else 0)
  {
    assert At(pc - {t}, p) == At(pc, p) - {t};
  }

  /** The threads of w are moved to point `to`: what a signal on a condition variable does. */
  function Moved<P>(pc: map<Tid, P>, w: set<Tid>, to: P): map<Tid, P> {
    map t | t in pc :: if t in w then to else pc[t]
  }

  lemma AtMovedSets<P>(pc: map<Tid, P>, w: set<Tid>, from: P, to: P, p: P)
    requires w <= At(pc, from) && from != to
    ensures At(Moved(pc, w, to), p)
      == if p == to then At(pc, p) + w else if p == from then At(pc, p) - w else At(pc, p)
    ensures p == to ==> At(pc, p) !! w
  {
  }

  lemma AtMoved<P>(pc: map<Tid, P>, w: set<Tid>, from: P, to: P, p: P)
    requires w <= At(pc, from) && from != to
    ensures |At(Moved(pc, w, to), p)|
      == |At(pc, p)| + (if p == to then |w| else 0) - (if p == from then |w| else 0)
  {
    hide At, Moved;
    AtMovedSets(pc, w, from, to, p);
    var a := At(pc, p);
    assert a == (a - w) + a * w;
    if p == from {
      assert a * w == w;
    }
  }

  /** pthread_cond_signal wakes at least one of the waiting threads, if there are any. */
  ghost predicate Signals<P>(pc: map<Tid, P>, waiting: P, w: set<Tid>) {
    w <= At(pc, waiting) && (At(pc, waiting) != {} ==> w != {})
  }
}
