/** base/LogFile.cc: log files rolled by size and by day, written directly or by a thread fed through the queue. */
module LogFiles {
  import opened Counting
  import BQ = BlockQueues

  /** A segment is what is written between two rolls: its messages, and whether its size ended it (otherwise a new day
      did). Files are named by the second of the roll and opened for appending, so segments begun in one second share
      a file. */
  datatype Segment = Segment(messages: seq<string>, bySize: bool)

  datatype Config = Config(rollSize: int, checkEveryN: int)

  /** The fields of a log file that matter: the closed segments, the open one, writenBytes, count_, currentDay. */
  datatype File = File(closed: seq<Segment>, current: seq<string>, written: int, count: int, day: int)

  /** What the clock says in one call: the day read by the day test, and the day read again by rollFile. */
  datatype Clock = Clock(today: int, rollDay: int)

  function Opened(day: int): File {
    File([], [], 0, 0, day)
  }

  function Rolled(f: File, bySize: bool, day: int): File {
    File(f.closed + [Segment(f.current, bySize)], [], 0, 0, day)
  }

  /** What happens after a message is written: roll by size, else look at the day if enough messages were counted. */
  function AfterWrite(c: Config, f: File, k: Clock): File {
    if f.written >= c.rollSize then Rolled(f, true, k.rollDay)
    else if f.count >= c.checkEveryN && k.today != f.day then Rolled(f, false, k.rollDay)
    else f
  }

  /** One message handled by the writer thread (asyWrite): it does not count messages. */
  function WriteAsync(c: Config, f: File, s: string, k: Clock): File {
    AfterWrite(c, f.(current := f.current + [s], written := f.written + |s|), k)
  }

  /** One message appended directly. */
  function WriteSync(c: Config, f: File, s: string, k: Clock): File {
    AfterWrite(c, f.(current := f.current + [s], written := f.written + |s|, count := f.count + 1), k)
  }

  function Bytes(messages: seq<string>): nat {
    if messages == [] then 0 else Bytes(messages[..|messages| - 1]) + |messages[|messages| - 1]|
  }

  function Flat(segments: seq<Segment>): seq<string> {
    if segments == [] then [] else Flat(segments[..|segments| - 1]) + segments[|segments| - 1].messages
  }

  /** Everything written, in order, across all segments. */
  function Written(f: File): seq<string> {
    Flat(f.closed) + f.current
  }

  /** A segment ended by its size reached rollSize with its last message and not before; one ended by the day never
      reached it. */
  ghost predicate SegmentOk(c: Config, g: Segment) {
    && g.messages != []
    && Bytes(g.messages[..|g.messages| - 1]) < c.rollSize
    && (g.bySize <==> Bytes(g.messages) >= c.rollSize)
  }

  ghost predicate FileOk(c: Config, f: File) {
    && f.written == Bytes(f.current) < c.rollSize
    && (forall i :: 0 <= i < |f.closed| ==> SegmentOk(c, f.closed[i]))
  }

  lemma BytesMore(messages: seq<string>, s: string)
    ensures Bytes(messages + [s]) == Bytes(messages) + |s|
  {
    assert (messages + [s])[..|messages|] == messages;
  }

  lemma FlatMore(segments: seq<Segment>, g: Segment)
    ensures Flat(segments + [g]) == Flat(segments) + g.messages
  {
    assert (segments + [g])[..|segments|] == segments;
  }

  lemma AfterWriteAppends(c: Config, f: File, s: string, count: int, k: Clock)
    ensures Written(AfterWrite(c, File(f.closed, f.current + [s], f.written + |s|, count, f.day), k)) == Written(f) + [s]
  {
    var m := f.current + [s];
    FlatMore(f.closed, Segment(m, true));
    FlatMore(f.closed, Segment(m, false));
    assert Flat(f.closed) + m == Written(f) + [s];
    assert Flat(f.closed) + m + [] == Flat(f.closed) + m;
  }

  lemma AfterWriteKeeps(c: Config, f: File, s: string, count: int, k: Clock)
    requires c.rollSize > 0 && FileOk(c, f)
    ensures FileOk(c, AfterWrite(c, File(f.closed, f.current + [s], f.written + |s|, count, f.day), k))
  {
    var m := f.current + [s];
    BytesMore(f.current, s);
    assert m[..|m| - 1] == f.current;
  }

  /** Handling a message writes it once, after everything written before; with a positive rollSize it leaves
      writenBytes below rollSize and ends segments only as SegmentOk says; in both modes. */
  lemma WriteKeeps(c: Config, f: File, s: string, k: Clock)
    ensures Written(WriteAsync(c, f, s, k)) == Written(f) + [s] && Written(WriteSync(c, f, s, k)) == Written(f) + [s]
    ensures c.rollSize > 0 && FileOk(c, f) ==> FileOk(c, WriteAsync(c, f, s, k)) && FileOk(c, WriteSync(c, f, s, k))
  {
    hide AfterWrite, FileOk, Written;
    AfterWriteAppends(c, f, s, f.count, k);
    AfterWriteAppends(c, f, s, f.count + 1, k);
    if c.rollSize > 0 && FileOk(c, f) {
      AfterWriteKeeps(c, f, s, f.count, k);
      AfterWriteKeeps(c, f, s, f.count + 1, k);
    }
  }

  /** The bound on a segment ended by its size. */
  lemma SegmentSize(c: Config, g: Segment)
    requires SegmentOk(c, g) && g.bySize
    ensures c.rollSize <= Bytes(g.messages) < c.rollSize + |g.messages[|g.messages| - 1]|
  {
  }

  /** When a message ends a segment: its size has been reached, or checkEveryN messages were counted and the day is
      not the segment's. The next segment is empty and has the day of the roll. */
  lemma RollExact(c: Config, f: File, s: string, k: Clock)
    requires f.written == Bytes(f.current)
    ensures var full := Bytes(f.current) + |s| >= c.rollSize;
      && RolledTo(f, WriteSync(c, f, s, k), s, full || (f.count + 1 >= c.checkEveryN && k.today != f.day), f.count + 1, k)
      && RolledTo(f, WriteAsync(c, f, s, k), s, full || (f.count >= c.checkEveryN && k.today != f.day), f.count, k)
  {
    BytesMore(f.current, s);
  }

  ghost predicate RolledTo(f: File, g: File, s: string, ended: bool, count: int, k: Clock) {
    && g.written == Bytes(g.current)
    && if ended then
         |g.closed| == |f.closed| + 1 && g.closed[|f.closed|].messages == f.current + [s]
         && g.current == [] && g.day == k.rollDay && g.count == 0
       else
         g.closed == f.closed && g.current == f.current + [s] && g.day == f.day && g.count == count
  }

  // ---- the day test ----

  /** Directly appended messages: a segment that is still open after a message has the day of that message, or fewer
      than checkEveryN messages. */
  lemma SyncNoticesDay(c: Config, f: File, s: string, k: Clock)
    requires c.checkEveryN > 0
    ensures var g := WriteSync(c, f, s, k);
      g.day == k.today || g.count < c.checkEveryN
  {
  }

  function WriteAll(c: Config, f: File, ss: seq<string>, ks: seq<Clock>): File
    requires |ks| == |ss|
    decreases |ss|
  {
    if ss == [] then f else WriteAll(c, WriteAsync(c, f, ss[0], ks[0]), ss[1..], ks[1..])
  }

  ghost predicate AllBySize(f: File) {
    forall i :: 0 <= i < |f.closed| ==> f.closed[i].bySize
  }

  lemma {:induction false} AsyncBySize(c: Config, f: File, ss: seq<string>, ks: seq<Clock>)
    requires c.checkEveryN > 0 && |ks| == |ss| && f.count == 0 && AllBySize(f)
    ensures AllBySize(WriteAll(c, f, ss, ks))
    decreases |ss|
  {
    if ss != [] {
      AsyncBySize(c, WriteAsync(c, f, ss[0], ks[0]), ss[1..], ks[1..]);
    }
  }

  /** The header comment promises a day test every checkEveryN messages. The writer thread never counts messages,
      so in asynchronous mode a new day ends a segment in some run exactly when checkEveryN is not positive. */
  lemma AsyncDayRolls(c: Config, day: int)
    requires c.rollSize > 0
    ensures (exists ss: seq<string>, ks: seq<Clock> :: |ks| == |ss| && !AllBySize(WriteAll(c, Opened(day), ss, ks)))
       <==> c.checkEveryN <= 0
  {
    if c.checkEveryN > 0 {
      forall ss: seq<string>, ks: seq<Clock> | |ks| == |ss| ensures AllBySize(WriteAll(c, Opened(day), ss, ks)) {
        AsyncBySize(c, Opened(day), ss, ks);
      }
    } else {
      var ss: seq<string>, ks := [""], [Clock(day + 1, day + 1)];
      var g := WriteAsync(c, Opened(day), "", ks[0]);
      assert WriteAll(c, Opened(day), ss, ks) == WriteAll(c, g, ss[1..], ks[1..]) == g;
      assert !g.closed[0].bySize;
    }
  }

  // ---- the asynchronous log ----

  const WRITER: Tid := 0

  /** The queue shared with the logging threads, the message the writer has popped but not yet written, the log file object. */
  datatype Log = Log(q: BQ.State<string>, inFlight: seq<string>, file: File)

  datatype Step = Queue(e: BQ.Step<string>) | Write(k: Clock)

  /** Only the writer thread pops, and it pops again only after writing. */
  ghost predicate Enabled(l: Log, e: Step) {
    match e
    case Queue(e) =>
      && BQ.Enabled(l.q, e)
      && (e.CallPop? ==> e.t == WRITER && l.inFlight == [])
      && (e.PassPop? ==> e.t == WRITER && l.inFlight == [])
    case Write(_) => l.inFlight != []
  }

  ghost function Next(c: Config, l: Log, e: Step): Log
    requires l.q.Consistent() && Enabled(l, e)
  {
    match e
    case Queue(e) =>
      Log(BQ.Next(l.q, e), if e.PassPop? && l.q.used != 0 then [l.q.queue[0]] else l.inFlight, l.file)
    case Write(k) => Log(l.q, [], WriteAsync(c, l.file, l.inFlight[0], k))
  }

  ghost predicate Trace(c: Config, l: Log, es: seq<Step>)
    requires l.q.Consistent()
    decreases |es|
  {
    es == [] || (Enabled(l, es[0]) && Trace(c, Next(c, l, es[0]), es[1..]))
  }

  ghost function After(c: Config, l: Log, es: seq<Step>): Log
    requires l.q.Consistent() && Trace(c, l, es)
    decreases |es|
  {
    if es == [] then l else After(c, Next(c, l, es[0]), es[1..])
  }

  ghost predicate LogInv(c: Config, l: Log) {
    && BQ.Inv(l.q) && (c.rollSize > 0 ==> FileOk(c, l.file)) && |l.inFlight| <= 1
    && l.q.popped == Written(l.file) + l.inFlight
  }

  lemma LogStep(c: Config, l: Log, e: Step)
    requires LogInv(c, l) && Enabled(l, e)
    ensures LogInv(c, Next(c, l, e))
  {
    match e
    case Queue(e) =>
      BQ.InvStep(l.q, e);
      if e.PassPop? && l.q.used != 0 {
        assert Written(l.file) + [] == Written(l.file);
      }
    case Write(k) =>
      WriteKeeps(c, l.file, l.inFlight[0], k);
      assert l.inFlight == [l.inFlight[0]];
      assert Written(l.file) + l.inFlight + [] == Written(l.file) + l.inFlight;
  }

  lemma {:induction false} LogAlways(c: Config, l: Log, es: seq<Step>)
    requires LogInv(c, l) && Trace(c, l, es)
    ensures LogInv(c, After(c, l, es))
    decreases |es|
  {
    if es != [] {
      LogStep(c, l, es[0]);
      LogAlways(c, Next(c, l, es[0]), es[1..]);
    }
  }

  /** What the run does to the queue. */
  function QueueSteps(es: seq<Step>): seq<BQ.Step<string>> {
    if es == [] then [] else (if es[0].Queue? then [es[0].e] else []) + QueueSteps(es[1..])
  }

  lemma {:induction false} QueueOfLog(c: Config, l: Log, es: seq<Step>)
    requires l.q.Consistent() && Trace(c, l, es)
    ensures BQ.Trace(l.q, QueueSteps(es)) && BQ.After(l.q, QueueSteps(es)) == After(c, l, es).q
    decreases |es|
  {
    hide BQ.Enabled, BQ.Next;
    if es != [] {
      QueueOfLog(c, Next(c, l, es[0]), es[1..]);
      if es[0].Queue? {
        assert QueueSteps(es)[1..] == QueueSteps(es[1..]);
      } else {
        assert [] + QueueSteps(es[1..]) == QueueSteps(es[1..]);
      }
    }
  }

  function Start(capacity: int, day: int): Log {
    Log(BQ.Init(capacity), [], Opened(day))
  }

  /** The asynchronous log refines a plain one. In every interleaving of the logging threads with the writer, what is
      in the segments, then the message in flight, then the queue, is everything logged so far in order; with a positive
      rollSize segments are ended and bounded as in SegmentOk. */
  lemma AsyncLogRefines(c: Config, capacity: int, day: int, es: seq<Step>)
    requires Trace(c, Start(capacity, day), es)
    ensures BQ.Trace(BQ.Init<string>(capacity), QueueSteps(es))
    ensures var l := After(c, Start(capacity, day), es);
      && BQ.PushedBy(BQ.Init<string>(capacity), QueueSteps(es)) == Written(l.file) + l.inFlight + l.q.queue
      && (c.rollSize > 0 ==> FileOk(c, l.file))
  {
    var l0 := Start(capacity, day);
    assert Written(l0.file) + l0.inFlight == l0.q.popped;
    LogAlways(c, l0, es);
    QueueOfLog(c, l0, es);
    BQ.PushedIs(capacity, QueueSteps(es));
  }

  // ---- the object ----

  class LogFile {
    const rollSize_: int
    const checkEveryN_: int
    var writenBytes: int
    var count_: int
    var currentDay: int
    ghost var closed: seq<Segment>
    var current: seq<string>      // the open segment, as the messages written to it

    ghost function Abs(): File
      reads this
    {
      File(closed, current, writenBytes, count_, currentDay)
    }

    ghost function Cfg(): Config { Config(rollSize_, checkEveryN_) }

    constructor (rollSize: int, checkEveryN: int, day: int)
      ensures Abs() == Opened(day) && Cfg() == Config(rollSize, checkEveryN)
    {
      rollSize_, checkEveryN_ := rollSize, checkEveryN;
      writenBytes, count_, currentDay, closed, current := 0, 0, day, [], [];
    }

    method RollFile(day: int, ghost bySize: bool)
      modifies this
      ensures Abs() == Rolled(old(Abs()), bySize, day)
    {
      closed, current := closed + [Segment(current, bySize)], [];
      currentDay, count_, writenBytes := day, 0, 0;
    }

    /** append_file in synchronous mode. */
    method AppendFile(s: string, k: Clock)
      modifies this
      ensures Abs() == WriteSync(Cfg(), old(Abs()), s, k)
    {
      count_ := count_ + 1;
      current := current + [s];
      writenBytes := writenBytes + |s|;
      if writenBytes >= rollSize_ {
        RollFile(k.rollDay, true);
      } else if count_ >= checkEveryN_ {
        if k.today != currentDay {
          RollFile(k.rollDay, false);
        }
      }
    }

    /** The body of asyWrite's loop, after pop_front. */
    method AsyWriteOne(s: string, k: Clock)
      modifies this
      ensures Abs() == WriteAsync(Cfg(), old(Abs()), s, k)
    {
      current := current + [s];
      writenBytes := writenBytes + |s|;
      if writenBytes >= rollSize_ {
        RollFile(k.rollDay, true);
      } else if count_ >= checkEveryN_ {
        if k.today != currentDay {
          RollFile(k.rollDay, false);
        }
      }
    }
  }
}
