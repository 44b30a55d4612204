/** net/EventLoopThreadPool.cc: starting the loops and dispatching connections to them in turn. */
module LoopPools {
  import opened Wrappers

  /** The slot picked by the next call, after slot cur (-1 before the first call). */
  function NextSlot(n: nat, cur: int): (i: int)
    requires n > 0 && -1 <= cur < n
    ensures 0 <= i < n
  {
    (cur + 1) % n
  }

  /** The slots picked by m calls. */
  function Picks(n: nat, cur: int, m: nat): (p: seq<int>)
    requires n > 0 && -1 <= cur < n
    ensures |p| == m
    decreases m
  {
    if m == 0 then [] else [NextSlot(n, cur)] + Picks(n, NextSlot(n, cur), m - 1)
  }

  function CountOf(p: seq<int>, i: int): nat {
    if p == [] then 0 else (if p[0] == i then 1 else 0) + CountOf(p[1..], i)
  }

  lemma NextIs(n: nat, cur: int)
    requires n > 0 && -1 <= cur < n
    ensures NextSlot(n, cur) == if cur + 1 == n then 0 else cur + 1
  {
  }

  /** How many of m picks after cur fall on slot i: q full rounds and the first r slots of one more. */
  function Share(n: nat, cur: int, q: nat, r: nat, i: int): nat
    requires n > 0 && -1 <= cur < n && r < n && 0 <= i < n
  {
    q + if (if i > cur then i - cur - 1 else i + n - cur - 1) < r then 1 else 0
  }

  lemma {:induction false} PicksShare(n: nat, cur: int, q: nat, r: nat, m: nat, i: int)
    requires n > 0 && -1 <= cur < n && r < n && 0 <= i < n && m == q * n + r
    ensures CountOf(Picks(n, cur, m), i) == Share(n, cur, q, r, i)
    decreases m
  {
    if m == 0 {
      assert q > 0 ==> q * n >= n;
    } else {
      var next := NextSlot(n, cur);
      NextIs(n, cur);
      var p := Picks(n, cur, m);
      assert p[1..] == Picks(n, next, m - 1);
      if r > 0 {
        PicksShare(n, next, q, r - 1, m - 1, i);
      } else {
        assert q > 0;
        assert m - 1 == (q - 1) * n + (n - 1);
        PicksShare(n, next, q - 1, n - 1, m - 1, i);
      }
    }
  }

  /** Balanced dispatch. Of any m calls after start, each of the n slots gets the quotient of m by n, or one more: the
      first (m modulo n) slots get one more. */
  lemma BalancedDispatch(n: nat, m: nat, i: int)
    requires n > 0 && 0 <= i < n
    ensures CountOf(Picks(n, -1, m), i) == m / n + if i < m % n then 1 else 0
  {
    assert m == (m / n) * n + m % n;
    PicksShare(n, -1, m / n, m % n, m, i);
  }

  class EventLoopThreadPool<Loop(==)> {
    const num_: nat
    const loop_: Loop
    var loops_: seq<Option<Loop>>
    var index_: nat
    var currentLoop: int

    ghost predicate Valid()
      reads this
    {
      && |loops_| == num_ && index_ <= num_ && -1 <= currentLoop && (num_ > 0 ==> currentLoop < num_)
      && (forall i :: 0 <= i < num_ ==> (loops_[i].Some? <==> i < index_))
    }

    ghost predicate Started()
      reads this
    {
      Valid() && index_ == num_
    }

    constructor (loop: Loop, num: nat)
      ensures Valid() && index_ == 0 && currentLoop == -1 && num_ == num && loop_ == loop
    {
      loop_, num_, index_, currentLoop := loop, num, 0, -1;
      loops_ := seq(num, _ => None);
    }

    /** threadFunc up to the signal: the thread enters its loop into the next slot. */
    method Register(loop: Loop)
      requires Valid() && index_ < num_
      modifies this`loops_, this`index_
      ensures Valid() && index_ == old(index_) + 1
      ensures loops_ == old(loops_)[old(index_) := Some(loop)]
    {
      loops_ := loops_[index_ := Some(loop)];
      index_ := index_ + 1;
    }

    /** start: each thread is started and waited for before the next; `threads` are the loops they run. */
    method Start(threads: seq<Loop>)
      requires Valid() && index_ == 0 && |threads| == num_
      modifies this`loops_, this`index_
      ensures Started() && currentLoop == old(currentLoop)
      ensures forall i :: 0 <= i < num_ ==> loops_[i] == Some(threads[i])
    {
      for i := 0 to num_
        invariant Valid() && index_ == i
        invariant forall j :: 0 <= j < i ==> loops_[j] == Some(threads[j])
      {
        Register(threads[i]);
      }
    }

    /** The caller's own loop when the pool is empty, otherwise the next started loop; never NULL. */
    method GetNextLoop() returns (loop: Option<Loop>)
      requires Started()
      modifies this`currentLoop
      ensures Started() && loop.Some?
      ensures num_ == 0 ==> loop == Some(loop_) && currentLoop == old(currentLoop)
      ensures num_ > 0 ==> currentLoop == NextSlot(num_, old(currentLoop)) && loop == loops_[currentLoop]
    {
      if num_ == 0 {
        return Some(loop_);
      }
      currentLoop := (currentLoop + 1) % num_;
      return loops_[currentLoop];
    }

    /** m calls in a row pick the slots of Picks. */
    method GetLoops(m: nat) returns (picked: seq<Option<Loop>>, ghost slots: seq<int>)
      requires Started() && num_ > 0 && currentLoop == -1
      modifies this`currentLoop
      ensures Started() && slots == Picks(num_, -1, m) && |picked| == m
      ensures forall j :: 0 <= j < m ==> 0 <= slots[j] < num_ && picked[j] == loops_[slots[j]] && picked[j].Some?
    {
      picked, slots := [], [];
      for k := 0 to m
        invariant Started() && |picked| == |slots| == k
        invariant slots + Picks(num_, currentLoop, m - k) == Picks(num_, -1, m)
        invariant forall j :: 0 <= j < k ==> 0 <= slots[j] < num_ && picked[j] == loops_[slots[j]] && picked[j].Some?
      {
        var loop := GetNextLoop();
        picked, slots := picked + [loop], slots + [currentLoop];
      }
    }
  }
}
