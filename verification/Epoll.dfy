/** net/Epoll.cc, net/Channel.h: channel registration, mirrored against the kernel's interest set. */
module Epolls {

  /** The event bits. */
  datatype Flag = IN | PRI | OUT | ET

  const K_NEW: int := -1
  const K_ADDED: int := 1
  const K_DELETED: int := 2

  type Fd = int
  type ChanId = nat

  datatype Channel = Channel(fd: Fd, events: set<Flag>, index: int)

  datatype Op = ADD | MOD | DEL

  /** An epoll_ctl call, and whether the kernel accepts it: ADD needs an absent descriptor, MOD and DEL a present one. */
  datatype Ctl = Ctl(op: Op, fd: Fd, events: set<Flag>, accepted: bool)

  datatype State = State(
    chans: map<ChanId, Channel>,       // the channel objects
    channels: map<Fd, ChanId>,         // Epoll::channels
    kernel: map<Fd, set<Flag>>,        // the interest set
    calls: seq<Ctl>)

  function Control(s: State, op: Op, fd: Fd, events: set<Flag>): State {
    var ok := if op == ADD then fd !in s.kernel else fd in s.kernel;
    s.(calls := s.calls + [Ctl(op, fd, events, ok)],
       kernel := if !ok then s.kernel else if op == DEL then s.kernel - {fd} else s.kernel[fd := events])
  }

  /** updateChannel. */
  function Update(s: State, id: ChanId): State
    requires id in s.chans
  {
    var ch := s.chans[id];
    if ch.fd in s.channels then
      var s1 := s.(channels := s.channels[ch.fd := id]);
      if ch.index == K_ADDED then Control(s1, MOD, ch.fd, ch.events)
      else if ch.index == K_DELETED then
        var s2 := Control(s1, DEL, ch.fd, ch.events);
        s2.(channels := s2.channels - {ch.fd})
      else s1
    else
      Control(s.(chans := s.chans[id := ch.(index := K_ADDED)], channels := s.channels[ch.fd := id]),
              ADD, ch.fd, ch.events)
  }

  datatype Step =
    | Create(id: ChanId, fd: Fd)
    | Enable(id: ChanId, flags: set<Flag>)     // enableReading, enableWriting, enableET
    | Disable(id: ChanId, flags: set<Flag>)    // disableReading, disableWriting, diableET
    | DisableAll(id: ChanId)
    | Destroy(id: ChanId)

  /** Channels that exist have distinct descriptors; a channel is destroyed, and its descriptor closed, after
      disableAll has unregistered it. The descriptor may then be used again. */
  predicate Enabled(s: State, e: Step) {
    match e
    case Create(id, fd) => id !in s.chans && forall i :: i in s.chans ==> s.chans[i].fd != fd
    case Destroy(id) => id in s.chans && s.chans[id].fd !in s.channels
    case _ => e.id in s.chans
  }

  /** Closing a descriptor takes it out of the kernel's interest set. */
  function Destroyed(s: State, id: ChanId): State
    requires id in s.chans
  {
    s.(chans := s.chans - {id}, kernel := s.kernel - {s.chans[id].fd})
  }

  function WithChannel(s: State, id: ChanId, ch: Channel): State {
    s.(chans := s.chans[id := ch])
  }

  function Next(s: State, e: Step): State
    requires Enabled(s, e)
  {
    match e
    case Create(id, fd) => WithChannel(s, id, Channel(fd, {}, K_NEW))
    case Enable(id, flags) =>
      Update(WithChannel(s, id, s.chans[id].(events := s.chans[id].events + flags)), id)
    case Disable(id, flags) =>
      Update(WithChannel(s, id, s.chans[id].(events := s.chans[id].events - flags)), id)
    case DisableAll(id) => Update(WithChannel(s, id, s.chans[id].(index := K_DELETED)), id)
    case Destroy(id) => Destroyed(s, id)
  }

  /** The mirror: the same descriptors in the map and in the kernel, with the event mask of the channel registered
      for them, whose index is K_ADDED; and the kernel has accepted every call. */
  ghost predicate Mirror(s: State) {
    && s.channels.Keys == s.kernel.Keys
    && (forall fd :: fd in s.channels ==>
          && s.channels[fd] in s.chans
          && var ch := s.chans[s.channels[fd]];
             ch.fd == fd && ch.index == K_ADDED && s.kernel[fd] == ch.events)
    && (forall id :: id in s.chans && s.chans[id].index == K_ADDED ==>
          s.chans[id].fd in s.channels && s.channels[s.chans[id].fd] == id)
    && (forall i, j :: i in s.chans && j in s.chans && s.chans[i].fd == s.chans[j].fd ==> i == j)
    && (forall k :: 0 <= k < |s.calls| ==> s.calls[k].accepted)
  }

  /** Updating a channel whose mask changed, or which was marked deleted. */
  lemma UpdateMirrors(s: State, id: ChanId, ch: Channel)
    requires Mirror(s) && id in s.chans && ch.fd == s.chans[id].fd
    requires ch.index == s.chans[id].index || ch.index == K_DELETED
    ensures Mirror(Update(WithChannel(s, id, ch), id))
  {
    if ch.fd in s.channels {
      UpdatePresent(s, id, ch);
    } else {
      UpdateAbsent(s, id, ch);
    }
  }

  lemma UpdatePresent(s: State, id: ChanId, ch: Channel)
    requires Mirror(s) && id in s.chans && ch.fd == s.chans[id].fd && ch.fd in s.channels
    requires ch.index == s.chans[id].index || ch.index == K_DELETED
    ensures Mirror(Update(WithChannel(s, id, ch), id))
  {
    assert s.channels[ch.fd] == id;
    assert s.channels[ch.fd := id] == s.channels;
    var s' := Update(WithChannel(s, id, ch), id);
    assert s'.chans == s.chans[id := ch];
  }

  lemma UpdateAbsent(s: State, id: ChanId, ch: Channel)
    requires Mirror(s) && id in s.chans && ch.fd == s.chans[id].fd && ch.fd !in s.channels
    ensures Mirror(Update(WithChannel(s, id, ch), id))
  {
    var s' := Update(WithChannel(s, id, ch), id);
    assert s'.chans == s.chans[id := ch.(index := K_ADDED)];
    assert s'.channels == s.channels[ch.fd := id] && s'.kernel == s.kernel[ch.fd := ch.events];
  }

  /** Destroying a channel keeps the mirror exactly when the channel is unregistered; otherwise the map keeps an entry
      for a channel that is gone. */
  lemma DestroyExact(s: State, id: ChanId)
    requires Mirror(s) && id in s.chans
    ensures Mirror(Destroyed(s, id)) <==> s.chans[id].fd !in s.channels
  {
    var s' := Destroyed(s, id);
    if s.chans[id].fd in s.channels {
      assert s.channels[s.chans[id].fd] == id;
    } else {
      assert s'.kernel == s.kernel;
    }
  }

  lemma MirrorStep(s: State, e: Step)
    requires Mirror(s) && Enabled(s, e)
    ensures Mirror(Next(s, e))
  {
    match e
    case Create(_, _) =>
    case Destroy(id) => DestroyExact(s, id);
    case Enable(id, flags) =>
      hide Mirror, Update;
      UpdateMirrors(s, id, s.chans[id].(events := s.chans[id].events + flags));
    case Disable(id, flags) =>
      hide Mirror, Update;
      UpdateMirrors(s, id, s.chans[id].(events := s.chans[id].events - flags));
    case DisableAll(id) =>
      hide Mirror, Update;
      UpdateMirrors(s, id, s.chans[id].(index := K_DELETED));
  }

  ghost predicate Trace(s: State, es: seq<Step>)
    decreases |es|
  {
    es == [] || (Enabled(s, es[0]) && Trace(Next(s, es[0]), es[1..]))
  }

  ghost function After(s: State, es: seq<Step>): State
    requires Trace(s, es)
    decreases |es|
  {
    if es == [] then s else After(Next(s, es[0]), es[1..])
  }

  /** Whatever the sequence of enable, disable and disableAll calls, creations and destructions, the map mirrors the kernel's interest set, event
      masks included, and no epoll_ctl call is ever refused. */
  lemma {:induction false} MirrorAlways(s: State, es: seq<Step>)
    requires Mirror(s) && Trace(s, es)
    ensures Mirror(After(s, es))
    decreases |es|
  {
    hide Mirror, Next, Enabled;
    if es != [] {
      MirrorStep(s, es[0]);
      MirrorAlways(Next(s, es[0]), es[1..]);
    }
  }

  // ---- registration and masks, read off the calls ----

  lemma {:induction false} LastStep(s: State, es: seq<Step>)
    requires Trace(s, es) && es != []
    ensures var front, e := es[..|es| - 1], es[|es| - 1];
      Trace(s, front) && Enabled(After(s, front), e) && After(s, es) == Next(After(s, front), e)
    decreases |es|
  {
    hide Enabled, Next;
    if |es| > 1 {
      LastStep(Next(s, es[0]), es[1..]);
      assert es[..|es| - 1][0] == es[0] && es[..|es| - 1][1..] == es[1..][..|es| - 2];
    } else {
      assert es[..0] == [] && es[1..] == [];
    }
  }

  /** The last enable or disable of the channel, since it was created, whose flags hold f was an enable. */
  function BitSet(es: seq<Step>, id: ChanId, f: Flag): bool {
    if es == [] then false
    else
      var front, e := es[..|es| - 1], es[|es| - 1];
      if e.id != id then BitSet(front, id, f)
      else
        match e
        case Create(_, _) => false
        case Enable(_, flags) => f in flags || BitSet(front, id, f)
        case Disable(_, flags) => f !in flags && BitSet(front, id, f)
        case _ => BitSet(front, id, f)
  }

  /** Since its creation the channel was last enabled or disabled (which registers it), or a disableAll found it
      unregistered. */
  function Registered(es: seq<Step>, id: ChanId): bool {
    if es == [] then false
    else
      var front, e := es[..|es| - 1], es[|es| - 1];
      if e.id != id then Registered(front, id)
      else
        match e
        case Create(_, _) => false
        case Enable(_, _) => true
        case Disable(_, _) => true
        case DisableAll(_) => !Registered(front, id)
        case Destroy(_) => false
  }

  const EMPTY: State := State(map[], map[], map[], [])

  lemma MaskStep(s: State, e: Step, id: ChanId)
    requires Enabled(s, e) && id in Next(s, e).chans
    ensures id !in s.chans ==> e.Create? && e.id == id && Next(s, e).chans[id].events == {} && Next(s, e).chans[id].fd == e.fd
    ensures id in s.chans ==>
      && Next(s, e).chans[id].fd == s.chans[id].fd
      && Next(s, e).chans[id].events
        == if e.Enable? && e.id == id then s.chans[id].events + e.flags
           else if e.Disable? && e.id == id then s.chans[id].events - e.flags
           else s.chans[id].events
    ensures e.Create? && e.id == id ==> id !in s.chans
  {
  }

  lemma RegisteredStep(s: State, e: Step, id: ChanId)
    requires Mirror(s) && Enabled(s, e) && id in Next(s, e).chans && id in s.chans
    ensures Next(s, e).chans[id].fd in Next(s, e).channels
      <==> if e.id != id then s.chans[id].fd in s.channels
           else e.Enable? || e.Disable? || (e.DisableAll? && s.chans[id].fd !in s.channels)
  {
  }

  lemma NewUnregistered(s: State, e: Step, id: ChanId)
    requires Mirror(s) && Enabled(s, e) && id in Next(s, e).chans && id !in s.chans
    ensures Next(s, e).chans[id].fd !in Next(s, e).channels
  {
  }

  lemma {:induction false} ChannelHistory(es: seq<Step>, id: ChanId)
    requires Trace(EMPTY, es) && id in After(EMPTY, es).chans
    ensures var s := After(EMPTY, es);
      && (forall f :: f in s.chans[id].events <==> BitSet(es, id, f))
      && (s.chans[id].fd in s.channels <==> Registered(es, id))
    decreases |es|
  {
    if es != [] {
      var front, e := es[..|es| - 1], es[|es| - 1];
      LastStep(EMPTY, es);
      var s := After(EMPTY, front);
      MirrorAlways(EMPTY, front);
      MaskStep(s, e, id);
      if id in s.chans {
        ChannelHistory(front, id);
        RegisteredStep(s, e, id);
      } else {
        NewUnregistered(s, e, id);
      }
      hide Mirror, Trace, After, Next;
    }
  }

  /** The kernel's view, over every sequence of calls. A channel is in the interest set exactly when the calls since
      its creation registered it, and a bit is then in its kernel mask exactly when the last enable or disable that
      named the bit was an enable. */
  lemma KernelHistory(es: seq<Step>, id: ChanId)
    requires Trace(EMPTY, es) && id in After(EMPTY, es).chans
    ensures var s := After(EMPTY, es);
      && (s.chans[id].fd in s.kernel <==> Registered(es, id))
      && (Registered(es, id) ==> forall f :: f in s.kernel[s.chans[id].fd] <==> BitSet(es, id, f))
  {
    MirrorAlways(EMPTY, es);
    ChannelHistory(es, id);
    var s := After(EMPTY, es);
    assert s.chans[id].fd in s.channels ==> s.chans[s.channels[s.chans[id].fd]].fd == s.chans[id].fd;
  }

  /** disableAll takes a channel out of the interest set exactly when it was in it; on a channel that is not
      registered it registers it. */
  lemma DisableAllExact(s: State, id: ChanId)
    requires Mirror(s) && id in s.chans
    ensures var s' := Next(s, DisableAll(id));
      s.chans[id].fd !in s'.kernel <==> s.chans[id].fd in s.kernel
  {
  }

  /** A disabled channel can come back: enabling it again registers it with its whole mask. */
  lemma EnableRegisters(s: State, id: ChanId, flags: set<Flag>)
    requires Mirror(s) && id in s.chans
    ensures var s' := Next(s, Enable(id, flags));
      s.chans[id].fd in s'.kernel && s'.kernel[s.chans[id].fd] == s.chans[id].events + flags
  {
  }

  /** The poller's fields, with the kernel's answers recorded. */
  class Epoll {
    var chans: map<ChanId, Channel>
    var channels: map<Fd, ChanId>
    ghost var kernel: map<Fd, set<Flag>>
    ghost var calls: seq<Ctl>

    ghost function Abs(): State
      reads this
    {
      State(chans, channels, kernel, calls)
    }

    constructor ()
      ensures Abs() == EMPTY && Mirror(Abs())
    {
      chans, channels, kernel, calls := map[], map[], map[], [];
    }

    ghost method EpollCtl(op: Op, fd: Fd, events: set<Flag>)
      modifies this`kernel, this`calls
      ensures Abs() == Control(old(Abs()), op, fd, events)
    {
      var s := Control(Abs(), op, fd, events);
      kernel, calls := s.kernel, s.calls;
    }

    method UpdateChannel(id: ChanId)
      requires id in chans
      modifies this
      ensures Abs() == Update(old(Abs()), id)
    {
      var fd, index, events := chans[id].fd, chans[id].index, chans[id].events;
      if fd in channels {
        channels := channels[fd := id];
        if index == K_ADDED {
          EpollCtl(MOD, fd, events);
        } else if index == K_DELETED {
          EpollCtl(DEL, fd, events);
          channels := channels - {fd};
        }
      } else {
        chans := chans[id := chans[id].(index := K_ADDED)];
        channels := channels[fd := id];
        EpollCtl(ADD, fd, events);
      }
    }

    // Channel::enableReading, enableWriting, enableET; disableReading, disableWriting, diableET; disableAll.

    method EnableEvents(id: ChanId, flags: set<Flag>)
      requires id in chans && Mirror(Abs())
      modifies this
      ensures Abs() == Next(old(Abs()), Enable(id, flags)) && Mirror(Abs())
    {
      MirrorStep(Abs(), Enable(id, flags));
      chans := chans[id := chans[id].(events := chans[id].events + flags)];
      UpdateChannel(id);
    }

    method DisableEvents(id: ChanId, flags: set<Flag>)
      requires id in chans && Mirror(Abs())
      modifies this
      ensures Abs() == Next(old(Abs()), Disable(id, flags)) && Mirror(Abs())
    {
      MirrorStep(Abs(), Disable(id, flags));
      chans := chans[id := chans[id].(events := chans[id].events - flags)];
      UpdateChannel(id);
    }

    method DisableAllEvents(id: ChanId)
      requires id in chans && Mirror(Abs())
      modifies this
      ensures Abs() == Next(old(Abs()), DisableAll(id)) && Mirror(Abs())
    {
      MirrorStep(Abs(), DisableAll(id));
      chans := chans[id := chans[id].(index := K_DELETED)];
      UpdateChannel(id);
    }
  }
}
