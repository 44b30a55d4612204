/** net/TcpConnection.cc: the byte streams through the write buffer and the read buffer. */
module TcpConnections {
  import opened Wrappers
  import opened Text
  import opened Buffers
  import opened HttpContexts
  import opened ChunkSplits

  datatype Mode = LevelTriggered | EdgeTriggered

  /** The output side: the write buffer, whether EPOLLOUT is enabled, the bytes the kernel took, the bytes sent. */
  datatype Output = Output(mode: Mode, buf: Buf, interest: bool, wire: string, sent: string)

  /** What write() may return for len bytes: -1, or a positive number of bytes taken (0 for no bytes at all). */
  predicate KernelTakes(len: nat, n: int) {
    n == -1 || (0 < n <= len) || (n == 0 && len == 0)
  }

  datatype Event =
    | Send(data: string, n: int)           // send(); n is write()'s result if it is called
    | Writable(n: int)                     // handleWrite() in level-triggered mode
    | Drain(taken: nat, again: bool)       // handleWrite() in edge-triggered mode: bytes taken, stopped by EAGAIN

  /** The part of data that send() has to queue. */
  function Queued(o: Output, data: string, n: int): string
    requires o.buf.r <= o.buf.w && n <= |data|
  {
    data[if o.buf.Readable() == 0 && n > 0 then n else 0..]
  }

  /** The kernel's answer is possible. */
  ghost predicate Possible(o: Output, e: Event) {
    && o.buf.Valid() && |o.buf.store| > 0
    && match e
       case Send(data, n) => KernelTakes(|data|, n)
       case Writable(n) => o.mode == LevelTriggered && KernelTakes(o.buf.Readable(), n)
       case Drain(taken, again) =>
         o.mode == EdgeTriggered && taken <= o.buf.Readable() && (taken < o.buf.Readable() ==> again)
  }

  /** The kernel's answer is possible, and growing the write buffer, if needed, copies a range whose end does not
      precede its start. Anything else is undefined behaviour, and no run goes through it. */
  ghost predicate Enabled(o: Output, e: Event) {
    && Possible(o, e)
    && (e.Send? ==> |Queued(o, e.data, e.n)| <= o.buf.Writable() || CanResize(o.buf))
  }

  /** A send is defined whatever the kernel answers, exactly when the data fits behind the write index or the bytes
      already read from the buffer are no more than the bytes pending in it. */
  lemma SendDefinedExact(o: Output, data: string)
    requires o.buf.Valid() && |o.buf.store| > 0
    ensures (forall n :: KernelTakes(|data|, n) ==> Enabled(o, Send(data, n)))
       <==> |data| <= |o.buf.store| - o.buf.w || o.buf.r <= o.buf.w - o.buf.r
  {
    assert KernelTakes(|data|, -1);
    assert Queued(o, data, -1) == data;
    assert Enabled(o, Send(data, -1)) ==> |data| <= o.buf.Writable() || CanResize(o.buf);
  }

  ghost function Apply(o: Output, e: Event): Output
    requires Enabled(o, e)
  {
    match e
    case Send(data, n) =>
      var rest := Queued(o, data, n);
      var o1 := o.(wire := o.wire + data[..|data| - |rest|], sent := o.sent + data);
      if rest == [] then o1 else o1.(buf := Appended(o.buf, rest), interest := true)
    case Writable(n) =>
      if n <= 0 then o
      else
        o.(buf := o.buf.(r := o.buf.r + n), wire := o.wire + o.buf.Contents()[..n],
           interest := if n == o.buf.Readable() then false else o.interest)
    case Drain(taken, again) => Drained(o, taken, again)
  }

  function Drained(o: Output, taken: nat, again: bool): Output
    requires o.buf.r + taken <= o.buf.w <= |o.buf.store|
  {
    o.(buf := o.buf.(r := o.buf.r + taken), wire := o.wire + o.buf.Contents()[..taken],
       interest := o.interest || again)
  }

  lemma DrainMore(o: Output, taken: nat, n: nat, again: bool)
    requires o.buf.r + taken + n <= o.buf.w <= |o.buf.store|
    ensures Drained(o, taken + n, again)
      == Drained(Drained(o, taken, again), n, again)
  {
    var c := o.buf.Contents();
    assert Drained(o, taken, again).buf.Contents() == c[taken..];
    assert c[..taken] + c[taken..][..n] == c[..taken + n];
  }

  /** Nothing lost, duplicated or reordered: what the kernel took and what is pending is what was sent. */
  ghost predicate Conserved(o: Output) {
    o.buf.Valid() && |o.buf.store| > 0 && o.wire + o.buf.Contents() == o.sent
  }

  /** In level-triggered mode EPOLLOUT is enabled exactly while bytes are pending; in edge-triggered mode it is
      enabled whenever bytes are pending (and never disabled). */
  ghost predicate InterestTracks(o: Output) {
    o.buf.Valid()
    && (o.buf.Readable() > 0 ==> o.interest)
    && (o.mode == LevelTriggered && o.interest ==> o.buf.Readable() > 0)
  }

  /** A step that does not make the buffer grow while its read index is away from 0 (or has only NULs to lose). */
  ghost predicate SafeStep(o: Output, e: Event)
    requires Enabled(o, e)
  {
    match e
    case Send(data, n) => AppendSafe(o.buf, |Queued(o, data, n)|)
    case _ => true
  }

  lemma SplitAt(s: string, k: nat)
    requires k <= |s|
    ensures s[..k] + s[k..] == s
  {
  }

  /** The arithmetic of send(): the prefix goes to the wire only when nothing is pending. */
  lemma SendSplits(o: Output, data: string, n: int) returns (c: string, rest: string)
    requires Conserved(o) && Enabled(o, Send(data, n))
    ensures c == o.buf.Contents() && rest == Queued(o, data, n)
    ensures Apply(o, Send(data, n)).wire + (c + rest) == Apply(o, Send(data, n)).sent
  {
    hide Appended, AppendSafe;
    c, rest := o.buf.Contents(), Queued(o, data, n);
    var k := |data| - |rest|;
    SplitAt(data, k);
    assert data[k..] == rest;
    assert k > 0 ==> c == [];
    Rejoin(o.wire, data[..k], c, rest);
  }

  lemma Rejoin(wire: string, head: string, c: string, rest: string)
    requires head == [] || c == []
    ensures wire + head + (c + rest) == (wire + c) + (head + rest)
  {
    if head == [] {
      assert wire + head == wire && head + rest == rest;
      Assoc(wire, c, rest);
    } else {
      assert c + rest == rest && wire + c == wire;
      Assoc(wire, head, rest);
    }
  }

  lemma SamePrefix(w: string, a: string, b: string)
    ensures w + a == w + b <==> a == b
  {
    assert (w + a)[|w|..] == a && (w + b)[|w|..] == b;
  }

  lemma SendConserves(o: Output, data: string, n: int)
    requires Conserved(o) && Enabled(o, Send(data, n))
    ensures Conserved(Apply(o, Send(data, n))) <==> SafeStep(o, Send(data, n))
  {
    var c, rest := SendSplits(o, data, n);
    var o' := Apply(o, Send(data, n));
    SamePrefix(o'.wire, o'.buf.Contents(), c + rest);
    if rest == [] {
      assert c + rest == c;
      assert AppendSafe(o.buf, 0);
    } else {
      AppendExact(o.buf, rest);
    }
  }

  lemma TakeConserves(o: Output, k: nat)
    requires Conserved(o) && k <= o.buf.Readable()
    ensures o.wire + o.buf.Contents()[..k] + o.buf.(r := o.buf.r + k).Contents() == o.sent
  {
    SplitAt(o.buf.Contents(), k);
    assert o.buf.(r := o.buf.r + k).Contents() == o.buf.Contents()[k..];
  }

  /** One step keeps the stream exactly when it is safe; only a send that grows the buffer can be unsafe. */
  lemma StepConserves(o: Output, e: Event)
    requires Conserved(o) && Enabled(o, e)
    ensures Conserved(Apply(o, e)) <==> SafeStep(o, e)
  {
    match e
    case Send(data, n) => SendConserves(o, data, n);
    case Writable(n) => if n > 0 { TakeConserves(o, n); }
    case Drain(taken, _) => TakeConserves(o, taken);
  }

  lemma StepTracks(o: Output, e: Event)
    requires InterestTracks(o) && Enabled(o, e)
    ensures InterestTracks(Apply(o, e)) && Apply(o, e).mode == o.mode
  {
  }

  /** send() in terms of what write() returned: nwrote is 0 unless write() took something. */
  lemma SendStep(o: Output, s: string, n: int, nwrote: nat, o': Output)
    requires o.buf.Valid() && |o.buf.store| > 0 && KernelTakes(|s|, n)
    requires |s| <= o.buf.Writable() || CanResize(o.buf)
    requires nwrote == (if o.buf.Readable() == 0 && n > 0 then n else 0)
    requires o'.mode == o.mode && o'.sent == o.sent + s && o'.wire == o.wire + s[..nwrote]
    requires if nwrote < |s| then o'.buf == Appended(o.buf, s[nwrote..]) && o'.interest
             else o'.buf == o.buf && o'.interest == o.interest
    ensures Enabled(o, Send(s, n)) && o' == Apply(o, Send(s, n))
  {
    hide Appended;
  }

  // ---- whole runs ----

  ghost predicate Runs(o: Output, es: seq<Event>)
    decreases |es|
  {
    es == [] || (Enabled(o, es[0]) && Runs(Apply(o, es[0]), es[1..]))
  }

  ghost predicate SafeRun(o: Output, es: seq<Event>)
    requires Runs(o, es)
    decreases |es|
  {
    es == [] || (SafeStep(o, es[0]) && SafeRun(Apply(o, es[0]), es[1..]))
  }

  ghost function After(o: Output, es: seq<Event>): Output
    requires Runs(o, es)
    decreases |es|
  {
    if es == [] then o else After(Apply(o, es[0]), es[1..])
  }

  function SentBy(es: seq<Event>): string {
    if es == [] then [] else (if es[0].Send? then es[0].data else []) + SentBy(es[1..])
  }

  /** The bytes the kernel takes in one event, when `pending` bytes are waiting: send() writes only when none are. */
  function TookOne(pending: int, e: Event): int {
    match e
    case Send(_, n) => if pending == 0 && n > 0 then n else 0
    case Writable(n) => if n > 0 then n else 0
    case Drain(taken, _) => taken
  }

  /** The bytes the kernel takes in a run, read off its events. */
  function TookBy(pending: int, es: seq<Event>): int
    decreases |es|
  {
    if es == [] then 0
    else
      var took := TookOne(pending, es[0]);
      took + TookBy(pending + |SentBy([es[0]])| - took, es[1..])
  }

  lemma StepTook(o: Output, e: Event)
    requires Enabled(o, e)
    ensures var o' := Apply(o, e);
      && o'.buf.Valid() && |o'.wire| == |o.wire| + TookOne(o.buf.Readable(), e)
      && o'.buf.Readable() == o.buf.Readable() + |SentBy([e])| - TookOne(o.buf.Readable(), e)
  {
    SentOne(e);
    if e.Send? && Queued(o, e.data, e.n) != [] {
      AppendedLength(o.buf, Queued(o, e.data, e.n));
    }
    hide Appended;
  }

  lemma AppendedLength(b: Buf, s: string)
    requires b.Valid() && |b.store| > 0 && (|s| <= b.Writable() || CanResize(b))
    ensures Appended(b, s).Readable() == b.Readable() + |s|
  {
  }

  lemma {:induction false} WireLength(o: Output, es: seq<Event>)
    requires o.buf.Valid() && Runs(o, es)
    ensures |After(o, es).wire| == |o.wire| + TookBy(o.buf.Readable(), es)
    decreases |es|
  {
    hide Enabled, Apply, SentBy, TookOne;
    if es != [] {
      StepTook(o, es[0]);
      WireLength(Apply(o, es[0]), es[1..]);
    }
  }

  /** The output of a safe run, exactly: the wire is the first bytes of everything sent, as many as the kernel took,
      and the rest is pending. */
  lemma OutputExact(o: Output, es: seq<Event>)
    requires Conserved(o) && InterestTracks(o) && Runs(o, es) && SafeRun(o, es)
    ensures var o', all, k := After(o, es), o.sent + SentBy(es), |o.wire| + TookBy(o.buf.Readable(), es);
      0 <= k <= |all| && o'.wire == all[..k] && o'.buf.Valid() && o'.buf.Contents() == all[k..]
  {
    OutputConserved(o, es);
    WireLength(o, es);
    var o' := After(o, es);
    hide After, Runs, SafeRun, SentBy, TookBy;
    assert (o'.wire + o'.buf.Contents())[..|o'.wire|] == o'.wire;
  }

  lemma StepSent(o: Output, e: Event)
    requires Enabled(o, e)
    ensures Apply(o, e).sent == o.sent + SentBy([e])
  {
    assert SentBy([e]) == if e.Send? then e.data else [];
    assert o.sent + [] == o.sent;
  }

  lemma SentOne(e: Event)
    ensures SentBy([e]) == if e.Send? then e.data else []
  {
    assert [e][1..] == [];
  }

  lemma Assoc(a: string, b: string, c: string)
    ensures a + (b + c) == a + b + c
  {
  }

  lemma SentFirst(es: seq<Event>, sent: string)
    requires es != []
    ensures sent + SentBy(es) == sent + SentBy([es[0]]) + SentBy(es[1..])
  {
    SentOne(es[0]);
    Assoc(sent, SentBy([es[0]]), SentBy(es[1..]));
  }

  /** Output conservation over every defined run of sends and write events with arbitrary partial writes: as long as
      the buffer grows only at read index 0, the wire followed by the pending bytes is everything sent so far, in
      order, and EPOLLOUT tracks the pending bytes. */
  lemma {:induction false} OutputConserved(o: Output, es: seq<Event>)
    requires Conserved(o) && InterestTracks(o) && Runs(o, es) && SafeRun(o, es)
    ensures var o' := After(o, es);
      Conserved(o') && InterestTracks(o') && o'.mode == o.mode && o'.sent == o.sent + SentBy(es)
    decreases |es|
  {
    if es != [] {
      StepSent(o, es[0]);
      StepConserves(o, es[0]);
      StepTracks(o, es[0]);
      SentFirst(es, o.sent);
      hide Conserved, InterestTracks, Enabled, Apply, SafeStep, SentBy;
      OutputConserved(Apply(o, es[0]), es[1..]);
    }
  }

  /** EPOLLOUT tracks the pending bytes on every defined run, safe or not. */
  lemma {:induction false} InterestOnRuns(o: Output, es: seq<Event>)
    requires InterestTracks(o) && Runs(o, es)
    ensures InterestTracks(After(o, es))
    decreases |es|
  {
    if es != [] {
      StepTracks(o, es[0]);
      InterestOnRuns(Apply(o, es[0]), es[1..]);
    }
  }

  /** The event leaves bytes queued by a send, or is stopped by EAGAIN. */
  predicate AsksOne(pending: int, e: Event) {
    (e.Send? && TookOne(pending, e) < |e.data|) || (e.Drain? && e.again)
  }

  function PendingAfter(pending: int, e: Event): int {
    pending + |SentBy([e])| - TookOne(pending, e)
  }

  /** Some event of the run does. */
  predicate AsksBy(pending: int, es: seq<Event>)
    decreases |es|
  {
    es != [] && (AsksOne(pending, es[0]) || AsksBy(PendingAfter(pending, es[0]), es[1..]))
  }

  lemma StepAsks(o: Output, e: Event)
    requires o.mode == EdgeTriggered && Enabled(o, e)
    ensures var o' := Apply(o, e);
      && o'.mode == EdgeTriggered && o'.buf.Valid() && o'.buf.Readable() == PendingAfter(o.buf.Readable(), e)
      && (o'.interest <==> o.interest || AsksOne(o.buf.Readable(), e))
  {
    StepTook(o, e);
    hide Appended, SentBy;
  }

  /** In edge-triggered mode EPOLLOUT is enabled exactly from the first time bytes were queued, or a write was stopped
      by EAGAIN. */
  lemma {:induction false} EdgeInterest(o: Output, es: seq<Event>)
    requires o.mode == EdgeTriggered && o.buf.Valid() && Runs(o, es)
    ensures After(o, es).interest <==> o.interest || AsksBy(o.buf.Readable(), es)
    decreases |es|
  {
    hide Enabled, Apply, AsksOne, PendingAfter;
    if es != [] {
      StepAsks(o, es[0]);
      EdgeInterest(Apply(o, es[0]), es[1..]);
    }
  }

  const INIT_BUF_SIZE: nat := 1024

  function NewOutput(mode: Mode): Output {
    Output(mode, Buf(Zeros(INIT_BUF_SIZE), 0, 0), false, [], [])
  }

  /** One more event at the end of a run. */
  lemma {:induction false} RunMore(o: Output, es: seq<Event>, e: Event)
    requires Runs(o, es) && Enabled(After(o, es), e)
    ensures Runs(o, es + [e]) && After(o, es + [e]) == Apply(After(o, es), e)
    ensures SafeRun(o, es) && SafeStep(After(o, es), e) ==> SafeRun(o, es + [e])
    decreases |es|
  {
    hide Enabled, Apply, SafeStep;
    if es == [] {
      assert [e][1..] == [] && [] + [e] == [e];
      assert Runs(Apply(o, e), []);
    } else {
      assert (es + [e])[0] == es[0] && (es + [e])[1..] == es[1..] + [e];
      RunMore(Apply(o, es[0]), es[1..], e);
    }
  }

  /** Two bytes queued by a new connection. */
  lemma TwoQueued() returns (o: Output)
    ensures var o0, e := NewOutput(LevelTriggered), Send("ab", -1);
      Enabled(o0, e) && SafeStep(o0, e) && Conserved(o0) && Conserved(o) && o == Apply(o0, e)
    ensures o.mode == LevelTriggered && |o.buf.store| == INIT_BUF_SIZE && o.buf.r == 0 && o.buf.w == 2
    ensures o.buf.Contents() == "ab"
  {
    var o0, e := NewOutput(LevelTriggered), Send("ab", -1);
    NewEmpty(LevelTriggered);
    o := Apply(o0, e);
    FitsInPlace(o0.buf, "ab");
    AppendExact(o0.buf, "ab");
    assert Queued(o0, "ab", -1) == "ab";
    hide Grown, Appended, NewOutput, Queued;
    StepConserves(o0, e);
    assert [] + "ab" == "ab";
  }

  lemma NewEmpty(mode: Mode)
    ensures Conserved(NewOutput(mode)) && NewOutput(mode).buf.Contents() == []
  {
  }

  /** Conservation does fail on a run a new connection can make: two bytes queued, one of them written, then 1023
      more bytes queued make the buffer grow at read index 1. */
  lemma OutputLoses() returns (es: seq<Event>)
    ensures Runs(NewOutput(LevelTriggered), es) && Conserved(NewOutput(LevelTriggered))
    ensures !Conserved(After(NewOutput(LevelTriggered), es))
  {
    hide Runs, After, Grown, Appended, NewOutput;
    var o0, big := NewOutput(LevelTriggered), seq(1023, _ => 'x');
    var o1 := TwoQueued();
    es := [Send("ab", -1)];
    RunStart(o0, es[0]);
    var e1, e2 := Writable(1), Send(big, -1);
    var o2 := Apply(o1, e1);
    StepConserves(o1, e1);
    RunMore(o0, es, e1);
    assert o2.buf.Contents() == "b" && !AllNul("b") by { assert "b"[0] != NUL; }
    assert Queued(o2, big, -1) == big;
    StepConserves(o2, e2);
    RunMore(o0, es + [e1], e2);
    es := es + [e1] + [e2];
  }

  lemma RunStart(o: Output, e: Event)
    requires Enabled(o, e)
    ensures Runs(o, [e]) && After(o, [e]) == Apply(o, e)
    ensures SafeStep(o, e) ==> SafeRun(o, [e])
  {
    assert [] + [e] == [e];
    RunMore(o, [], e);
  }

  /** A run a new connection can make without losing anything, after which the next send is undefined: two bytes
      queued and both written leave the read index at 2, and 1023 more bytes must grow the drained buffer. */
  lemma SafeRunToUndefined() returns (es: seq<Event>, e: Event)
    ensures Runs(NewOutput(LevelTriggered), es) && SafeRun(NewOutput(LevelTriggered), es)
    ensures Possible(After(NewOutput(LevelTriggered), es), e) && !Enabled(After(NewOutput(LevelTriggered), es), e)
  {
    hide Runs, SafeRun, After, Grown, Appended, NewOutput;
    var o0, big := NewOutput(LevelTriggered), seq(1023, _ => 'x');
    var o1 := TwoQueued();
    es, e := [Send("ab", -1)], Send(big, -1);
    RunStart(o0, es[0]);
    RunMore(o0, es, Writable(2));
    es := es + [Writable(2)];
    assert KernelTakes(1023, -1) && Queued(After(o0, es), big, -1) == big;
  }

  lemma FitsInPlace(b: Buf, s: string)
    requires b.Valid() && |b.store| > 0 && |s| <= b.Writable()
    ensures |Appended(b, s).store| == |b.store| && Appended(b, s).r == b.r && Appended(b, s).w == b.w + |s|
  {
  }

  // ---- the input side ----

  /** handleRead: the bytes land at the write index; a read that fills the buffer resizes it before the write
      index is advanced. */
  ghost function ReadInto(b: Buf, data: string): (g: Buf)
    requires b.Valid() && |data| <= b.Writable()
    requires |data| == b.Writable() ==> CanResize(b)
    ensures g.Valid()
  {
    if |data| == b.Writable() then Resized(Landed(b, data)).(w := b.w + |data|)
    else Landed(b, data).(w := b.w + |data|)
  }

  function Landed(b: Buf, data: string): Buf
    requires b.Valid() && |data| <= b.Writable()
  {
    Buf(b.store[..b.w] + data + b.store[b.w + |data|..], b.r, b.w)
  }

  lemma FullRead(b: Buf, data: string)
    requires b.Valid() && |data| == b.Writable() && CanResize(b)
    ensures ReadInto(b, data).Contents() == Resized(Landed(b, data)).Contents() + Zeros(|data|)
  {
  }

  lemma JoinExact(c: string, d: string, a: string, b: string)
    requires |c| == |a|
    ensures c + d == a + b <==> c == a && d == b
  {
    assert (c + d)[..|c|] == c && (c + d)[|c|..] == d;
    assert (a + b)[..|a|] == a && (a + b)[|a|..] == b;
  }

  /** Exactly when a read is appended to the unread bytes: it leaves room in the buffer, or there was nothing but
      NULs to lose. A read that fills the buffer is overwritten with NULs. */
  lemma ReadExact(b: Buf, data: string)
    requires b.Valid() && |data| <= b.Writable()
    requires |data| == b.Writable() ==> CanResize(b)
    ensures ReadInto(b, data).Contents() == b.Contents() + data
       <==> |data| < b.Writable() || (AllNul(data) && (b.r == 0 || AllNul(b.Contents())))
  {
    var landed := Landed(b, data);
    assert landed.Contents() == b.Contents();
    if |data| == b.Writable() {
      FullRead(b, data);
      ResizeExact(landed);
      JoinExact(Resized(landed).Contents(), Zeros(|data|), b.Contents(), data);
      assert AllNul(data) <==> Zeros(|data|) == data;
    } else {
      assert ReadInto(b, data).Contents() == b.Contents() + data;
    }
  }

  /** The reads of one edge-triggered event: each lands behind the one before, until end of stream or EAGAIN. */
  ghost predicate CanRead(b: Buf, got: seq<string>)
    decreases |got|
  {
    b.Valid()
    && (got == [] || got[0] == []
        || (|got[0]| <= b.Writable() && (|got[0]| == b.Writable() ==> CanResize(b))
            && CanRead(ReadInto(b, got[0]), got[1..])))
  }

  ghost function ReadsInto(b: Buf, got: seq<string>): (g: Buf)
    requires CanRead(b, got)
    ensures g.Valid()
    decreases |got|
  {
    if got == [] || got[0] == [] then b else ReadsInto(ReadInto(b, got[0]), got[1..])
  }

  /** Reads that together leave room are all appended, in order. */
  lemma {:induction false} ReadsAppend(b: Buf, got: seq<string>)
    requires b.Valid() && |Flatten(got)| < b.Writable()
    requires forall i :: 0 <= i < |got| ==> got[i] != []
    ensures CanRead(b, got) && ReadsInto(b, got).Contents() == b.Contents() + Flatten(got)
    decreases |got|
  {
    if got == [] {
      assert b.Contents() + [] == b.Contents();
    } else {
      ReadExact(b, got[0]);
      ReadsAppend(ReadInto(b, got[0]), got[1..]);
      assert b.Contents() + got[0] + Flatten(got[1..]) == b.Contents() + (got[0] + Flatten(got[1..]));
    }
  }

  // ---- the object ----

  class TcpConnection {
    const mode_: Mode
    const writeBuffer: Buffer
    const readBuffer: Buffer
    var writing: bool           // EPOLLOUT in the channel's event mask
    ghost var wire: string      // bytes the kernel has taken
    ghost var sent: string      // bytes passed to send()

    ghost predicate Valid()
      reads this, writeBuffer, readBuffer
    {
      && writeBuffer != readBuffer && writeBuffer.Valid() && readBuffer.Valid()
      && writeBuffer.buffer_ != readBuffer.buffer_
      && writeBuffer.buffer_.Length > 0 && readBuffer.buffer_.Length > 0
    }

    ghost function Abs(): Output
      reads this, writeBuffer, writeBuffer.buffer_
    {
      Output(mode_, writeBuffer.Abs(), writing, wire, sent)
    }

    constructor (mode: Mode)
      ensures Valid() && Abs() == NewOutput(mode)
      ensures fresh(writeBuffer) && fresh(readBuffer) && fresh(writeBuffer.buffer_) && fresh(readBuffer.buffer_)
    {
      mode_, writing, wire, sent := mode, false, [], [];
      writeBuffer := new Buffer(INIT_BUF_SIZE);
      readBuffer := new Buffer(INIT_BUF_SIZE);
      new;
      hide Zeros;
      assert writeBuffer.Abs() == NewOutput(mode).buf && |Zeros(INIT_BUF_SIZE)| == INIT_BUF_SIZE;
    }

    /** write() on the connection's socket: the kernel takes any part of the data it likes. */
    method WriteFd(data: string) returns (n: int)
      modifies this`wire
      ensures KernelTakes(|data|, n)
      ensures wire == old(wire) + if n > 0 then data[..n] else []
    {
      assert KernelTakes(|data|, -1);
      var taken: int :| KernelTakes(|data|, taken);
      assert KernelTakes(|data|, taken);
      assert taken == -1 || (0 < taken <= |data|) || (taken == 0 && |data| == 0);
      n := taken;
      wire := wire + if n > 0 then data[..n] else [];
    }

    /** Growing must be possible in case the kernel takes nothing. */
    method SendData(s: string)
      requires Valid() && (|s| <= writeBuffer.WritableBytes() || CanResize(writeBuffer.Abs()))
      modifies this`writing, this`wire, this`sent, writeBuffer, writeBuffer.buffer_
      ensures Valid()
      ensures exists n :: Enabled(old(Abs()), Send(s, n)) && Abs() == Apply(old(Abs()), Send(s, n))
    {
      hide Appended;
      ghost var n := -1;
      ghost var o := Abs();
      var nwrote := 0;
      sent := sent + s;
      if writeBuffer.ReadableBytes() == 0 {
        nwrote := WriteFd(s);
        n := nwrote;
        if nwrote < 0 {
          nwrote := 0;
        }
      }
      if nwrote < |s| {
        writeBuffer.Append(s[nwrote..]);
        writing := true;
      }
      SendStep(o, s, n, nwrote, Abs());
    }

    method HandleWriteLevel()
      requires Valid() && mode_ == LevelTriggered
      modifies this`writing, this`wire, writeBuffer`readIndex_
      ensures Valid()
      ensures exists n :: Enabled(old(Abs()), Writable(n)) && Abs() == Apply(old(Abs()), Writable(n))
    {
      var pending := writeBuffer.buffer_[writeBuffer.readIndex_..writeBuffer.writeIndex_];
      var n := WriteFd(pending);
      if n > 0 {
        if n == writeBuffer.ReadableBytes() {
          writing := false;
        }
        writeBuffer.AddReadIndex(n);
      }
      assert Enabled(old(Abs()), Writable(n));
      assert Abs() == Apply(old(Abs()), Writable(n));
    }

    /** Write until the kernel would block or everything is written; only EAGAIN makes write() fail here. */
    method HandleWriteEdge()
      requires Valid() && mode_ == EdgeTriggered
      modifies this`writing, this`wire, writeBuffer`readIndex_
      ensures Valid()
      ensures exists k, a :: Enabled(old(Abs()), Drain(k, a)) && Abs() == Apply(old(Abs()), Drain(k, a))
    {
      var bytesToSend := writeBuffer.ReadableBytes();
      ghost var o, again := Abs(), false;
      ghost var taken: nat := 0;
      assert Drained(o, 0, false) == o;
      var busy := true;
      while busy
        invariant Valid() && bytesToSend == writeBuffer.ReadableBytes()
        invariant taken <= o.buf.Readable() && Abs() == Drained(o, taken, again)
        invariant again ==> !busy
        invariant !busy && bytesToSend > 0 ==> again
        decreases busy, bytesToSend
      {
        var n := WriteOnce();
        if n == -1 {
          writing, again, busy := true, true, false;
        } else {
          bytesToSend := bytesToSend - n;
          DrainMore(o, taken, n, false);
          taken := taken + n;
          if bytesToSend == 0 {
            busy := false;
          }
        }
      }
      assert Enabled(o, Drain(taken, again));
      assert Abs() == Apply(o, Drain(taken, again));
    }

    /** One write() of the pending bytes. */
    method WriteOnce() returns (n: int)
      requires Valid()
      modifies this`wire, writeBuffer`readIndex_
      ensures Valid() && KernelTakes(old(writeBuffer.ReadableBytes()), n)
      ensures n == -1 ==> Abs() == old(Abs())
      ensures n != -1 ==> Abs() == Drained(old(Abs()), n, false)
    {
      var pending := writeBuffer.buffer_[writeBuffer.readIndex_..writeBuffer.writeIndex_];
      n := WriteFd(pending);
      if n > 0 {
        writeBuffer.AddReadIndex(n);
      }
    }

    /** The level-triggered read path: data is what read() delivered, empty at the end of the stream (or into a full
        buffer); None is a failed read. */
    method HandleReadLevel(data: Option<string>) returns (closed: bool)
      requires Valid() && (data.Some? ==> CanRead(readBuffer.Abs(), [data.value]))
      modifies readBuffer, readBuffer.buffer_
      ensures Valid() && (readBuffer.buffer_ == old(readBuffer.buffer_) || fresh(readBuffer.buffer_))
      ensures closed <==> data == Some([])
      ensures data == None || closed ==> readBuffer.Abs() == old(readBuffer.Abs())
      ensures data.Some? && !closed ==> readBuffer.Abs() == ReadInto(old(readBuffer.Abs()), data.value)
    {
      closed := data == Some([]);
      if data.Some? && !closed {
        Land(data.value);
      }
    }

    /** The edge-triggered read path: read until the end of the stream (an empty read) or until EAGAIN (no more reads). */
    method HandleReadEdge(got: seq<string>) returns (closed: bool)
      requires Valid() && CanRead(readBuffer.Abs(), got)
      modifies readBuffer, readBuffer.buffer_
      ensures Valid() && (readBuffer.buffer_ == old(readBuffer.buffer_) || fresh(readBuffer.buffer_))
      ensures closed <==> [] in got
      ensures readBuffer.Abs() == ReadsInto(old(readBuffer.Abs()), got)
    {
      hide ReadInto;
      ghost var b := readBuffer.Abs();
      for i := 0 to |got|
        invariant Valid() && (readBuffer.buffer_ == old(readBuffer.buffer_) || fresh(readBuffer.buffer_))
        invariant forall j :: 0 <= j < i ==> got[j] != []
        invariant CanRead(readBuffer.Abs(), got[i..])
        invariant ReadsInto(readBuffer.Abs(), got[i..]) == ReadsInto(b, got)
      {
        assert got[i..][1..] == got[i + 1..];
        if got[i] == [] {
          return true;
        }
        Land(got[i]);
      }
      closed := false;
    }

    /** One read(): the bytes are stored at the write index, the buffer is resized if they fill it, and only then the
        write index moves. */
    method Land(data: string)
      requires Valid() && data != [] && |data| <= readBuffer.WritableBytes()
      requires |data| == readBuffer.WritableBytes() ==> CanResize(readBuffer.Abs())
      modifies readBuffer, readBuffer.buffer_
      ensures Valid() && (readBuffer.buffer_ == old(readBuffer.buffer_) || fresh(readBuffer.buffer_))
      ensures readBuffer.Abs() == ReadInto(old(readBuffer.Abs()), data)
    {
      var w := readBuffer.writeIndex_;
      ghost var b := readBuffer.Abs();
      forall i | 0 <= i < |data| {
        readBuffer.buffer_[w + i] := data[i];
      }
      assert readBuffer.Abs() == Landed(b, data);
      if |data| == readBuffer.WritableBytes() {
        readBuffer.Resize();
      }
      readBuffer.AddWriteIndex(|data|);
    }

    /** One read followed by the parser, as the read callback does. */
    method Receive(context: HttpContext, data: string, ghost before: Result) returns (out: Outcome)
      requires Valid() && data != [] && |data| < readBuffer.WritableBytes()
      requires before.ctx == context.Abs() && before.rest == readBuffer.Contents()
      modifies context, context.request_, readBuffer, readBuffer.buffer_
      ensures Valid() && (readBuffer.buffer_ == old(readBuffer.buffer_) || fresh(readBuffer.buffer_))
      ensures Result(context.Abs(), readBuffer.Contents(), out) == Run(before.ctx, before.rest + data)
    {
      hide Run, ReadInto;
      ReadExact(readBuffer.Abs(), data);
      var closed := HandleReadLevel(Some(data));
      out := context.ParseRequest(readBuffer);
    }

    /** The life of a new connection's input: reads followed by the parser, up to the first read that ends the stream
        or fills the buffer. The parser ends where ChunkSplits.FeedAll does, and on a tame stream, where one call on
        all the bytes at once does. */
    method ReceiveAll(context: HttpContext, chunks: seq<string>) returns (n: nat, out: Outcome)
      requires Valid() && context.Abs() == START && readBuffer.Contents() == []
      modifies context, context.request_, readBuffer, readBuffer.buffer_
      ensures Valid() && n <= |chunks|
      ensures n < |chunks| ==> chunks[n] == [] || |chunks[n]| >= readBuffer.WritableBytes()
      ensures Result(context.Abs(), readBuffer.Contents(), out) == FeedAll(IDLE, chunks[..n])
      ensures TameStream(START, Flatten(chunks[..n])) ==>
        Result(context.Abs(), readBuffer.Contents(), out) == Run(START, Flatten(chunks[..n]))
    {
      hide Run, FeedAll, Flatten, TameStream;
      n, out := 0, Ok;
      assert FeedAll(IDLE, []) == IDLE by { FeedNothing(); }
      while n < |chunks| && chunks[n] != [] && |chunks[n]| < readBuffer.WritableBytes()
        invariant Valid() && n <= |chunks|
        invariant readBuffer.buffer_ == old(readBuffer.buffer_) || fresh(readBuffer.buffer_)
        invariant Result(context.Abs(), readBuffer.Contents(), out) == FeedAll(IDLE, chunks[..n])
      {
        FeedMore(IDLE, chunks[..n], chunks[n]);
        assert chunks[..n + 1] == chunks[..n] + [chunks[n]];
        out := Receive(context, chunks[n], FeedAll(IDLE, chunks[..n]));
        n := n + 1;
      }
      ChunkIndependence(Flatten(chunks[..n]));
    }
  }

  lemma FeedNothing()
    ensures FeedAll(IDLE, []) == IDLE
  {
  }
}
