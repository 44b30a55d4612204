/** net/Buffer.h, net/Buffer.cc: the growable byte buffer with a read and a write index. */
module Buffers {
  import opened Wrappers
  import opened Text

  /** The whole state of a buffer: the vector and the two indices. */
  datatype Buf = Buf(store: string, r: nat, w: nat) {
    ghost predicate Valid() { r <= w <= |store| }

    /** The readable bytes. */
    function Contents(): string
      requires r <= w <= |store|
    { store[r..w] }

    function Readable(): nat
      requires r <= w
    { w - r }

    function Writable(): nat
      requires w <= |store|
    { |store| - w }
  }

  function Zeros(n: nat): string { seq(n, _ => NUL) }

  predicate AllNul(s: string) { forall i :: 0 <= i < |s| ==> s[i] == NUL }

  /** resize copies [beginRead, begin + readableBytes) to the front of a vector twice the size and leaves the
      indices alone; the range is one only when the end does not precede the start. */
  ghost predicate CanResize(b: Buf)
    requires b.Valid()
  {
    b.r <= b.w - b.r
  }

  function Resized(b: Buf): (g: Buf)
    requires b.r <= b.w - b.r && b.w <= |b.store|
    ensures g.Valid() && |g.store| == 2 * |b.store| && g.r == b.r && g.w == b.w
  {
    Buf(b.store[b.r..b.w - b.r] + Zeros(2 * |b.store| - (b.w - 2 * b.r)), b.r, b.w)
  }

  /** The growth loop of append: resize until len bytes fit. */
  function Grown(b: Buf, len: nat): (g: Buf)
    requires b.Valid() && |b.store| > 0
    requires len <= b.Writable() || CanResize(b)
    ensures g.Valid() && len <= g.Writable() && g.r == b.r && g.w == b.w && |g.store| > 0
    decreases if len <= b.Writable() then 0 else len - b.Writable()
  {
    if len <= b.Writable() then b else Grown(Resized(b), len)
  }

  function Stored(b: Buf, s: string): (g: Buf)
    requires b.Valid() && |s| <= b.Writable()
    ensures g.Valid()
  {
    Buf(b.store[..b.w] + s + b.store[b.w + |s|..], b.r, b.w + |s|)
  }

  function Appended(b: Buf, s: string): (g: Buf)
    requires b.Valid() && |b.store| > 0
    requires |s| <= b.Writable() || CanResize(b)
    ensures g.Valid()
  {
    Stored(Grown(b, |s|), s)
  }

  lemma AppendedIs(b: Buf, s: string)
    requires b.Valid() && |b.store| > 0
    requires |s| <= b.Writable() || CanResize(b)
    ensures Appended(b, s) == Stored(Grown(b, |s|), s)
  {
  }

  /** retrieveLen: at most the readable bytes; a drained buffer starts again at index 0. */
  function Retrieved(b: Buf, len: nat): (g: Buf)
    requires b.Valid()
    ensures g.Valid()
  {
    var n := if len < b.Readable() then len else b.Readable();
    if b.r + n == b.w then Buf(b.store, 0, 0) else Buf(b.store, b.r + n, b.w)
  }

  lemma RetrievedContents(b: Buf, len: nat)
    requires b.Valid()
    ensures len <= b.Readable() ==> Retrieved(b, len).Contents() == b.Contents()[len..]
    ensures len > b.Readable() ==> Retrieved(b, len).Contents() == []
    ensures Retrieved(b, len).Contents() == [] ==> Retrieved(b, len).r == 0
    ensures |Retrieved(b, len).store| == |b.store|
  {
  }

  // ---- when growth keeps the readable bytes ----

  ghost predicate NulFrom(s: string, p: int) { forall k :: 0 <= k < |s| && p <= k ==> s[k] == NUL }

  /** With the read index away from 0 a resize moves the contents left by r, so the trailing run of NULs grows. */
  lemma ResizeShifts(b: Buf, p: int)
    requires b.Valid() && CanResize(b) && b.r > 0
    requires NulFrom(b.Contents(), p + 1)
    ensures NulFrom(Resized(b).Contents(), p)
  {
    var c, d := b.Contents(), Resized(b).Contents();
    forall k | 0 <= k < |d| && p <= k ensures d[k] == NUL {
      if k + 2 * b.r < |c| {
        assert d[k] == Resized(b).store[b.r + k] == b.store[b.r..b.w - b.r][b.r + k] == b.store[2 * b.r + k];
        assert d[k] == c[b.r + k];
      } else {
        assert d[k] == Resized(b).store[b.r + k] == NUL;
      }
    }
  }

  lemma ResizeKeeps(b: Buf)
    requires b.Valid() && CanResize(b)
    requires b.r == 0 || AllNul(b.Contents())
    ensures Resized(b).Contents() == b.Contents()
  {
    var c, d := b.Contents(), Resized(b).Contents();
    if b.r > 0 {
      assert NulFrom(c, 0);
      ResizeShifts(b, -1);
    }
  }

  /** One resize keeps the readable bytes exactly when they start at index 0 or are all NUL. */
  lemma ResizeExact(b: Buf)
    requires b.Valid() && CanResize(b)
    ensures Resized(b).Contents() == b.Contents() <==> b.r == 0 || AllNul(b.Contents())
  {
    if b.r == 0 || AllNul(b.Contents()) {
      ResizeKeeps(b);
    } else {
      ResizeShifts(b, LastNonNul(b.Contents()));
    }
  }

  /** What one resize leaves when the read index is r > 0: the first r readable bytes are gone, the last r were not
      copied, and NULs follow. */
  lemma ResizeLoses(b: Buf)
    requires b.Valid() && CanResize(b) && b.r > 0
    ensures var c := b.Contents();
      Resized(b).Contents() == if 2 * b.r <= |c| then c[b.r..|c| - b.r] + Zeros(2 * b.r) else Zeros(|c|)
  {
    var c, d := b.Contents(), Resized(b).Contents();
    forall k | 0 <= k < |d| ensures d[k] == if b.r + k < |c| - b.r then c[b.r + k] else NUL {
      if b.r + k < |c| - b.r {
        assert d[k] == b.store[b.r..b.w - b.r][b.r + k];
      }
    }
  }

  lemma {:induction false} GrowKeeps(b: Buf, len: nat)
    requires b.Valid() && |b.store| > 0
    requires len <= b.Writable() || CanResize(b)
    requires len <= b.Writable() || b.r == 0 || AllNul(b.Contents())
    ensures Grown(b, len).Contents() == b.Contents()
    decreases if len <= b.Writable() then 0 else len - b.Writable()
  {
    if len > b.Writable() {
      ResizeKeeps(b);
      GrowKeeps(Resized(b), len);
    }
  }

  lemma {:induction false} GrowShifts(b: Buf, len: nat, p: nat)
    requires b.Valid() && |b.store| > 0 && CanResize(b)
    requires len > b.Writable() && b.r > 0
    requires NulFrom(b.Contents(), p + 1)
    ensures NulFrom(Grown(b, len).Contents(), p)
    decreases len - b.Writable()
  {
    ResizeShifts(b, p);
    if len > Resized(b).Writable() {
      GrowShifts(Resized(b), len, p);
    }
  }

  /** The last byte that is not NUL. */
  function LastNonNul(s: string): (p: nat)
    requires !AllNul(s)
    ensures p < |s| && s[p] != NUL && NulFrom(s, p + 1)
  {
    if s[|s| - 1] != NUL then |s| - 1
    else
      assert s == s[..|s| - 1] + [NUL];
      LastNonNul(s[..|s| - 1])
  }

  /** Exactly when append keeps the bytes already in the buffer: no growth is needed, or the read index is 0,
      or there is nothing but NULs to keep. */
  ghost predicate AppendSafe(b: Buf, len: nat)
    requires b.Valid()
  {
    len <= b.Writable() || b.r == 0 || AllNul(b.Contents())
  }

  lemma AppendExact(b: Buf, s: string)
    requires b.Valid() && |b.store| > 0
    requires |s| <= b.Writable() || CanResize(b)
    ensures Appended(b, s).Contents() == b.Contents() + s <==> AppendSafe(b, |s|)
  {
    var g := Grown(b, |s|);
    assert Appended(b, s).Contents() == g.Contents() + s;
    if AppendSafe(b, |s|) {
      GrowKeeps(b, |s|);
    } else {
      var p := LastNonNul(b.Contents());
      GrowShifts(b, |s|, p);
      assert g.Contents()[p] == NUL;
      assert (g.Contents() + s)[p] != (b.Contents() + s)[p];
    }
  }

  /** A concrete loss: one of two pending bytes has been written out, then the buffer must grow. */
  lemma AppendLosesBytes()
    ensures Appended(Buf("abc\0", 1, 3), "de").Contents() == "\0\0de"
    ensures Buf("abc\0", 1, 3).Contents() == "bc"
  {
    var b := Buf("abc\0", 1, 3);
    assert b.store[1..2] == "b";
    assert Resized(b).store == "b" + Zeros(7);
    assert Grown(b, 2) == Resized(b);
  }

  // ---- the size the growth loop stops at ----

  /** n doubled k times. */
  function Doubled(n: nat, k: nat): nat
    decreases k
  {
    if k == 0 then n else Doubled(2 * n, k - 1)
  }

  /** The loop stops at the smallest power-of-two multiple of the old size with room for len more bytes. */
  lemma {:induction false} GrownSize(b: Buf, len: nat) returns (k: nat)
    requires b.Valid() && |b.store| > 0
    requires len <= b.Writable() || CanResize(b)
    ensures |Grown(b, len).store| == Doubled(|b.store|, k)
    ensures b.w + len <= Doubled(|b.store|, k)
    ensures forall j: nat :: j < k ==> Doubled(|b.store|, j) < b.w + len
    decreases if len <= b.Writable() then 0 else len - b.Writable()
  {
    if len <= b.Writable() {
      k := 0;
    } else {
      var m := GrownSize(Resized(b), len);
      k := m + 1;
      forall j: nat | j < k ensures Doubled(|b.store|, j) < b.w + len {
        if j > 0 {
          assert Doubled(|b.store|, j) == Doubled(2 * |b.store|, j - 1);
        }
      }
    }
  }

  // ---- the buffer as a queue of bytes ----

  datatype BufOp = AppendOp(s: string) | RetrieveOp(len: nat) | ResetOp

  ghost predicate CanApply(b: Buf, op: BufOp) {
    b.Valid() && |b.store| > 0 && (op.AppendOp? ==> |op.s| <= b.Writable() || CanResize(b))
  }

  ghost function Applied(b: Buf, op: BufOp): Buf
    requires CanApply(b, op)
  {
    match op
    case AppendOp(s) => Appended(b, s)
    case RetrieveOp(len) => Retrieved(b, len)
    case ResetOp => Buf(b.store, 0, 0)
  }

  /** The same operation on a plain byte queue. */
  function QueueOp(q: string, op: BufOp): string {
    match op
    case AppendOp(s) => q + s
    case RetrieveOp(len) => if len < |q| then q[len..] else []
    case ResetOp => []
  }

  ghost predicate CanRun(b: Buf, ops: seq<BufOp>)
    decreases |ops|
  {
    ops == [] || (CanApply(b, ops[0]) && CanRun(Applied(b, ops[0]), ops[1..]))
  }

  /** Growth happens only when it keeps the contents. */
  ghost predicate SafeRun(b: Buf, ops: seq<BufOp>)
    requires CanRun(b, ops)
    decreases |ops|
  {
    ops == [] || ((ops[0].AppendOp? ==> AppendSafe(b, |ops[0].s|)) && SafeRun(Applied(b, ops[0]), ops[1..]))
  }

  ghost function RunOps(b: Buf, ops: seq<BufOp>): Buf
    requires CanRun(b, ops)
    decreases |ops|
  {
    if ops == [] then b else RunOps(Applied(b, ops[0]), ops[1..])
  }

  function RunQueue(q: string, ops: seq<BufOp>): string
    decreases |ops|
  {
    if ops == [] then q else RunQueue(QueueOp(q, ops[0]), ops[1..])
  }

  /** One operation does what it does on a queue, exactly when it is not an append that loses bytes by growing. */
  lemma OpExact(b: Buf, op: BufOp)
    requires CanApply(b, op)
    ensures Applied(b, op).Valid() && |Applied(b, op).store| > 0
    ensures Applied(b, op).Contents() == QueueOp(b.Contents(), op)
       <==> (op.AppendOp? ==> AppendSafe(b, |op.s|))
  {
    match op
    case AppendOp(s) => AppendExact(b, s);
    case RetrieveOp(len) => RetrievedContents(b, len);
    case ResetOp =>
  }

  /** Every sequence of appends, retrievals and resets that grows safely behaves as a first-in first-out queue. */
  lemma {:induction false} BufferIsQueue(b: Buf, ops: seq<BufOp>)
    requires b.Valid() && CanRun(b, ops) && SafeRun(b, ops)
    ensures RunOps(b, ops).Valid() && RunOps(b, ops).Contents() == RunQueue(b.Contents(), ops)
    decreases |ops|
  {
    hide Applied, QueueOp, CanApply, AppendSafe;
    if ops != [] {
      OpExact(b, ops[0]);
      BufferIsQueue(Applied(b, ops[0]), ops[1..]);
    }
  }

  /** The buffer object. */
  class Buffer {
    var buffer_: array<char>
    var readIndex_: nat
    var writeIndex_: nat

    ghost predicate Valid()
      reads this
    {
      readIndex_ <= writeIndex_ <= buffer_.Length
    }

    ghost function Abs(): Buf
      reads this, buffer_
    {
      Buf(buffer_[..], readIndex_, writeIndex_)
    }

    ghost function Contents(): (s: string)
      requires Valid()
      reads this, buffer_
      ensures s == Abs().Contents()
    {
      buffer_[readIndex_..writeIndex_]
    }

    constructor (size: nat)
      ensures Valid() && fresh(buffer_)
      ensures Abs() == Buf(Zeros(size), 0, 0)
    {
      buffer_ := new char[size](_ => NUL);
      readIndex_, writeIndex_ := 0, 0;
      new;
      assert buffer_[..] == Zeros(size);
    }

    function ReadableBytes(): nat
      requires Valid()
      reads this
    {
      writeIndex_ - readIndex_
    }

    function WritableBytes(): nat
      requires Valid()
      reads this
    {
      buffer_.Length - writeIndex_
    }

    method Reset()
      modifies this`readIndex_, this`writeIndex_
      ensures Abs() == Buf(old(buffer_[..]), 0, 0)
    {
      readIndex_, writeIndex_ := 0, 0;
    }

    method AddReadIndex(len: nat)
      requires Valid() && len <= ReadableBytes()
      modifies this`readIndex_
      ensures Valid() && Abs() == old(Abs()).(r := old(readIndex_) + len)
      ensures Contents() == old(Contents())[len..]
    {
      readIndex_ := readIndex_ + len;
    }

    method AddWriteIndex(len: nat)
      requires Valid() && len <= WritableBytes()
      modifies this`writeIndex_
      ensures Valid() && Abs() == old(Abs()).(w := old(writeIndex_) + len)
    {
      writeIndex_ := writeIndex_ + len;
    }

    method Resize()
      requires Valid() && CanResize(Abs())
      modifies this`buffer_
      ensures Valid() && fresh(buffer_)
      ensures Abs() == Resized(old(Abs()))
    {
      var n := writeIndex_ - 2 * readIndex_;
      var other := new char[2 * buffer_.Length](_ => NUL);
      forall i | 0 <= i < n {
        other[i] := buffer_[readIndex_ + i];
      }
      ghost var b := Abs();
      assert other[..] == b.store[b.r..b.w - b.r] + Zeros(2 * |b.store| - n);
      buffer_ := other;
    }

    /** Appends s after growing as needed. A zero-sized vector could never grow, and a resize must be possible. */
    method Append(s: string)
      requires Valid() && buffer_.Length > 0
      requires |s| <= WritableBytes() || CanResize(Abs())
      modifies this, buffer_
      ensures Valid() && (buffer_ == old(buffer_) || fresh(buffer_)) && buffer_.Length > 0
      ensures Abs() == Appended(old(Abs()), s)
      ensures AppendSafe(old(Abs()), |s|) <==> Contents() == old(Contents()) + s
    {
      hide Resized, Appended;
      ghost var b0 := Abs();
      while |s| > WritableBytes()
        invariant Valid() && buffer_.Length > 0
        invariant |s| <= WritableBytes() || CanResize(Abs())
        invariant buffer_ == old(buffer_) || fresh(buffer_)
        invariant Grown(Abs(), |s|) == Grown(b0, |s|)
        decreases |s| - WritableBytes()
      {
        Resize();
      }
      Put(s);
      AppendedIs(b0, s);
      AppendExact(b0, s);
    }

    /** std::copy to the write index, which then moves. */
    method Put(s: string)
      requires Valid() && |s| <= WritableBytes()
      modifies this`writeIndex_, buffer_
      ensures Valid() && Abs() == Stored(old(Abs()), s)
    {
      ghost var g := Abs();
      forall i | 0 <= i < |s| {
        buffer_[writeIndex_ + i] := s[i];
      }
      assert buffer_[..] == g.store[..g.w] + s + g.store[g.w + |s|..];
      writeIndex_ := writeIndex_ + |s|;
    }

    method RetrieveLen(len: nat) returns (s: string)
      requires Valid()
      modifies this`readIndex_, this`writeIndex_
      ensures Valid() && Abs() == Retrieved(old(Abs()), len)
      ensures old(Contents()) == s + Contents()
      ensures |s| == if len < old(ReadableBytes()) then len else old(ReadableBytes())
    {
      RetrievedContents(Abs(), len);
      var n := if len < ReadableBytes() then len else ReadableBytes();
      s := buffer_[readIndex_..readIndex_ + n];
      readIndex_ := readIndex_ + n;
      if readIndex_ == writeIndex_ {
        Reset();
      }
    }

    method RetrieveAll() returns (s: string)
      requires Valid()
      modifies this`readIndex_, this`writeIndex_
      ensures Valid() && buffer_ == old(buffer_) && s == old(Contents()) && Contents() == []
    {
      s := RetrieveLen(ReadableBytes());
    }

    /** The offset of the first CRLF among the readable bytes; std::search's end value becomes None. */
    method FindCRLF() returns (at: Option<nat>)
      requires Valid()
      ensures at == None <==> NoCRLF(Contents())
      ensures at.Some? ==> at.value == SearchCRLF(Contents()) && CrlfAt(Contents(), at.value)
    {
      var s := buffer_[readIndex_..writeIndex_];
      var i := SearchCRLF(s);
      SearchNone(s);
      at := if i == |s| then None else Some(i);
    }
  }
}
