/** Channel interest masks: netlib/net/Chnnel.h and Chnnel.cc. */
module Interest {
  type Mask = bv8

  const NON_EVENT: Mask := 0
  const READ_EVENT: Mask := 3
  const WRITE_EVENT: Mask := 4

  function IsWriting(events: Mask): bool { events & WRITE_EVENT != 0 }
  function IsReading(events: Mask): bool { events & READ_EVENT != 0 }

  datatype Change = EnableReading | DisableReading | EnableWriting | DisableWriting | DisableAll

  function Changed(events: Mask, change: Change): Mask {
    match change
    case EnableReading => events | READ_EVENT
    case DisableReading => events & !READ_EVENT
    case EnableWriting => events | WRITE_EVENT
    case DisableWriting => events & !WRITE_EVENT
    case DisableAll => NON_EVENT
  }

  /** Each change sets or clears its own interest and leaves the other alone. */
  lemma ChangedBits(events: Mask, change: Change)
    ensures IsReading(Changed(events, change)) ==
            (change.EnableReading? || (IsReading(events) && !change.DisableReading? && !change.DisableAll?))
    ensures IsWriting(Changed(events, change)) ==
            (change.EnableWriting? || (IsWriting(events) && !change.DisableWriting? && !change.DisableAll?))
  {
    match change
    case EnableReading =>
    case DisableReading =>
    case EnableWriting =>
    case DisableWriting =>
    case DisableAll =>
  }
}

/** The channel index of netlib/net/Epoller.cc against the interest set of the kernel. */
module Epoller {
  import opened Interest

  /** cNew, cAdded and cDeleted. */
  datatype Flag = New | Added | Deleted

  datatype CtlOp = Add | Mod | Del
  datatype Ctl = Ctl(op: CtlOp, fd: int, events: Mask)

  type Kernel = map<int, Mask>

  /** epoll_ctl succeeds: no EEXIST on Add, no ENOENT on Mod or Del. */
  predicate CtlSucceeds(kernel: Kernel, ctl: Ctl) {
    ctl.op.Add? <==> ctl.fd !in kernel
  }

  function CtlEffect(kernel: Kernel, ctl: Ctl): Kernel {
    if !CtlSucceeds(kernel, ctl) then kernel
    else if ctl.op.Del? then kernel - {ctl.fd}
    else kernel[ctl.fd := ctl.events]
  }

  // ---- The index as a value ----

  datatype Chan = Chan(events: Mask, flag: Flag)

  /** Open channels by descriptor, the poller's index, the kernel's set, and every epoll_ctl issued. */
  datatype Poll = Poll(chans: map<int, Chan>, index: set<int>, kernel: Kernel, calls: seq<Ctl>) {
    function Call(op: CtlOp, fd: int): Poll
      requires fd in chans
    {
      var ctl := Ctl(op, fd, chans[fd].events);
      this.(kernel := CtlEffect(kernel, ctl), calls := calls + [ctl])
    }

    function SetFlag(fd: int, flag: Flag): Poll
      requires fd in chans
    {
      this.(chans := chans[fd := chans[fd].(flag := flag)])
    }

    function Update(fd: int): Poll
      requires fd in chans
    {
      var c := chans[fd];
      if !c.flag.Added? then SetFlag(fd, Added).(index := index + {fd}).Call(Add, fd)
      else if c.events == NON_EVENT then Call(Del, fd).SetFlag(fd, Deleted)
      else Call(Mod, fd)
    }

    function Remove(fd: int): Poll
      requires fd in chans
    {
      var p := this.(index := index - {fd});
      (if chans[fd].flag.Added? then p.Call(Del, fd) else p).SetFlag(fd, New)
    }

    function Change(fd: int, change: Change): Poll
      requires fd in chans
    {
      var c := chans[fd];
      this.(chans := chans[fd := c.(events := Changed(c.events, change))]).Update(fd)
    }
  }

  const EMPTY := Poll(map[], {}, map[], [])

  /** Channels come and go with their descriptors; at any time one open channel owns a descriptor. */
  datatype Op = Open(fd: int) | Interest(fd: int, change: Change) | Remove(fd: int) | Close(fd: int)

  /** What the asserts of Chnnel.cc and Epoller.cc demand of the caller. */
  predicate Legal(p: Poll, op: Op) {
    match op
    case Open(fd) => fd !in p.chans
    case Interest(fd, _) => fd in p.chans
    case Remove(fd) => fd in p.chans && fd in p.index && p.chans[fd].events == NON_EVENT
    case Close(fd) => fd in p.chans && fd !in p.index
  }

  function Step(p: Poll, op: Op): Poll
    requires Legal(p, op)
  {
    match op
    case Open(fd) => p.(chans := p.chans[fd := Chan(NON_EVENT, New)])
    case Interest(fd, change) => p.Change(fd, change)
    case Remove(fd) => p.Remove(fd)
    case Close(fd) => p.(chans := p.chans - {fd})
  }

  predicate LegalRun(p: Poll, ops: seq<Op>)
    decreases |ops|
  {
    ops == [] || (Legal(p, ops[0]) && LegalRun(Step(p, ops[0]), ops[1..]))
  }

  function Run(p: Poll, ops: seq<Op>): Poll
    requires LegalRun(p, ops)
    decreases |ops|
  {
    if ops == [] then p else Run(Step(p, ops[0]), ops[1..])
  }

  /** The poller's view and the kernel's agree, and no interest goes unregistered. */
  ghost predicate Mirrors(p: Poll) {
    && (forall fd :: fd in p.index <==> fd in p.chans && !p.chans[fd].flag.New?)
    && (forall fd :: fd in p.kernel <==> fd in p.chans && p.chans[fd].flag.Added?)
    && (forall fd | fd in p.kernel :: p.kernel[fd] == p.chans[fd].events)
    && (forall fd | fd in p.chans && p.chans[fd].events != NON_EVENT :: fd in p.kernel)
  }

  /** Every call succeeds against the effects of the calls before it, and together they leave kernel. */
  ghost predicate AllSucceed(calls: seq<Ctl>, kernel: Kernel) {
    if calls == [] then kernel == map[]
    else
      var before, last := calls[..|calls| - 1], calls[|calls| - 1];
      exists k :: AllSucceed(before, k) && CtlSucceeds(k, last) && kernel == CtlEffect(k, last)
  }

  lemma CallSucceeds(p: Poll, op: CtlOp, fd: int)
    requires fd in p.chans && AllSucceed(p.calls, p.kernel)
    requires op.Add? <==> fd !in p.kernel
    ensures AllSucceed(p.Call(op, fd).calls, p.Call(op, fd).kernel)
  {
    assert p.Call(op, fd).calls[..|p.calls|] == p.calls;
  }

  lemma StepMirrors(p: Poll, op: Op)
    requires Legal(p, op) && Mirrors(p) && AllSucceed(p.calls, p.kernel)
    ensures Mirrors(Step(p, op)) && AllSucceed(Step(p, op).calls, Step(p, op).kernel)
  {
    hide AllSucceed, Changed;
    match op
    case Open(_) =>
    case Close(_) =>
    case Remove(fd) =>
      if p.chans[fd].flag.Added? {
        CallSucceeds(p.(index := p.index - {fd}), Del, fd);
      }
    case Interest(fd, change) =>
      UpdateMirrors(p, fd, Changed(p.chans[fd].events, change));
  }

  lemma UpdateMirrors(p: Poll, fd: int, events: Mask)
    requires fd in p.chans && Mirrors(p) && AllSucceed(p.calls, p.kernel)
    ensures var q := p.(chans := p.chans[fd := p.chans[fd].(events := events)]).Update(fd);
            Mirrors(q) && AllSucceed(q.calls, q.kernel)
  {
    hide AllSucceed;
    var q := p.(chans := p.chans[fd := p.chans[fd].(events := events)]);
    if !q.chans[fd].flag.Added? {
      CallSucceeds(q.SetFlag(fd, Added).(index := q.index + {fd}), Add, fd);
    } else {
      CallSucceeds(q, if events == NON_EVENT then Del else Mod, fd);
    }
  }

  /** Over any sequence of opens, interest changes, removals and closes, the index holds exactly the channels
      that are not new, the kernel exactly the added ones with their masks, and no epoll_ctl ever fails. */
  lemma {:induction false} RunMirrors(p: Poll, ops: seq<Op>)
    requires LegalRun(p, ops) && Mirrors(p) && AllSucceed(p.calls, p.kernel)
    ensures Mirrors(Run(p, ops)) && AllSucceed(Run(p, ops).calls, Run(p, ops).kernel)
    decreases |ops|
  {
    if ops != [] {
      StepMirrors(p, ops[0]);
      RunMirrors(Step(p, ops[0]), ops[1..]);
    }
  }

  lemma EveryRunMirrors(ops: seq<Op>)
    requires LegalRun(EMPTY, ops)
    ensures Mirrors(Run(EMPTY, ops)) && AllSucceed(Run(EMPTY, ops).calls, Run(EMPTY, ops).kernel)
  {
    RunMirrors(EMPTY, ops);
  }

  /** A change of interest is registered with one epoll_ctl: the channel leaves the kernel's set
      only when it was there and wants nothing more. */
  lemma InterestOutcome(p: Poll, fd: int, change: Change)
    requires fd in p.chans && Mirrors(p)
    ensures var q := Step(p, Interest(fd, change)); var mask := Changed(p.chans[fd].events, change);
            && fd in q.chans && q.chans[fd].events == mask && fd in q.index
            && (fd in q.kernel <==> fd !in p.kernel || mask != NON_EVENT)
            && (fd in q.kernel ==> q.kernel[fd] == mask)
            && q.calls == p.calls + [Ctl(if fd !in p.kernel then Add else if fd in q.kernel then Mod else Del, fd, mask)]
  {
    hide Changed;
  }

  /** A removed channel is new again, outside the index and the kernel's set, and deleted only if it was there. */
  lemma RemoveOutcome(p: Poll, fd: int)
    requires Legal(p, Remove(fd)) && Mirrors(p)
    ensures var q := Step(p, Remove(fd));
            && fd in q.chans && q.chans[fd] == Chan(NON_EVENT, New) && fd !in q.index && fd !in q.kernel
            && q.calls == p.calls + if fd in p.kernel then [Ctl(Del, fd, NON_EVENT)] else []
  {
  }

  /** A channel opens with no interest and unregistered, and is gone when it closes. */
  lemma OpenCloseOutcome(p: Poll, fd: int)
    requires Mirrors(p)
    ensures Legal(p, Open(fd)) ==>
              var q := Step(p, Open(fd));
              fd in q.chans && q.chans[fd] == Chan(NON_EVENT, New) && fd !in q.index && fd !in q.kernel && q.calls == p.calls
    ensures Legal(p, Close(fd)) ==>
              var q := Step(p, Close(fd)); fd !in q.chans && fd !in q.index && fd !in q.kernel && q.calls == p.calls
  {
  }

  /** No operation on one descriptor touches another. */
  lemma OthersUntouched(p: Poll, op: Op, fd: int)
    requires Legal(p, op) && fd != op.fd
    ensures var q := Step(p, op);
            && (fd in q.chans <==> fd in p.chans) && (fd in p.chans ==> q.chans[fd] == p.chans[fd])
            && (fd in q.index <==> fd in p.index)
            && (fd in q.kernel <==> fd in p.kernel) && (fd in p.kernel ==> q.kernel[fd] == p.kernel[fd])
  {
    hide Changed;
  }

  // ---- What the kernel watches after a run ----

  /** The kernel watches fd for reading, or for writing. */
  predicate Watches(p: Poll, fd: int, writing: bool) {
    fd in p.kernel && if writing then IsWriting(p.kernel[fd]) else IsReading(p.kernel[fd])
  }

  predicate TurnsOn(op: Op, fd: int, writing: bool) {
    op == Interest(fd, if writing then EnableWriting else EnableReading)
  }

  predicate TurnsOff(op: Op, fd: int, writing: bool) {
    op == Interest(fd, DisableAll) || op == Interest(fd, if writing then DisableWriting else DisableReading)
  }

  predicate StaysOn(ops: seq<Op>, fd: int, writing: bool) {
    forall i | 0 <= i < |ops| :: !TurnsOff(ops[i], fd, writing)
  }

  predicate TurnedOn(ops: seq<Op>, fd: int, writing: bool) {
    exists i :: 0 <= i < |ops| && TurnsOn(ops[i], fd, writing) && StaysOn(ops[i + 1..], fd, writing)
  }

  lemma StepWatches(p: Poll, op: Op, fd: int, writing: bool)
    requires Legal(p, op) && Mirrors(p)
    ensures Watches(Step(p, op), fd, writing) <==>
            TurnsOn(op, fd, writing) || (Watches(p, fd, writing) && !TurnsOff(op, fd, writing))
  {
    hide Changed, Step, IsWriting, IsReading;
    if fd != op.fd {
      OthersUntouched(p, op, fd);
    } else {
      match op
      case Interest(_, change) =>
        InterestOutcome(p, fd, change);
        ChangedBits(p.chans[fd].events, change);
        NoInterest();
      case Remove(_) =>
        RemoveOutcome(p, fd);
        NoInterest();
      case _ => OpenCloseOutcome(p, fd);
    }
  }

  lemma NoInterest()
    ensures !IsReading(NON_EVENT) && !IsWriting(NON_EVENT)
  {
  }

  lemma TurnedOnHead(ops: seq<Op>, fd: int, writing: bool)
    requires ops != []
    ensures StaysOn(ops, fd, writing) <==> !TurnsOff(ops[0], fd, writing) && StaysOn(ops[1..], fd, writing)
    ensures TurnedOn(ops, fd, writing) <==>
            (TurnsOn(ops[0], fd, writing) && StaysOn(ops[1..], fd, writing)) || TurnedOn(ops[1..], fd, writing)
  {
    hide TurnsOn, TurnsOff;
    var tail := ops[1..];
    assert forall i | 0 <= i < |tail| :: tail[i] == ops[i + 1];
    assert forall i | 0 < i < |ops| :: ops[i] == tail[i - 1];
    hide StaysOn;
    if i :| 0 <= i < |ops| && TurnsOn(ops[i], fd, writing) && StaysOn(ops[i + 1..], fd, writing) {
      if i > 0 {
        assert tail[i..] == ops[i + 1..] && TurnsOn(tail[i - 1], fd, writing);
      }
    }
    if i :| 0 <= i < |tail| && TurnsOn(tail[i], fd, writing) && StaysOn(tail[i + 1..], fd, writing) {
      assert ops[i + 2..] == tail[i + 1..] && TurnsOn(ops[i + 1], fd, writing);
    }
  }

  /** The kernel watches a descriptor for reading, or for writing, exactly when that interest was enabled
      and not disabled since. */
  lemma {:induction false} WatchedIff(p: Poll, ops: seq<Op>, fd: int, writing: bool)
    requires LegalRun(p, ops) && Mirrors(p) && AllSucceed(p.calls, p.kernel)
    ensures Watches(Run(p, ops), fd, writing) <==>
            (Watches(p, fd, writing) && StaysOn(ops, fd, writing)) || TurnedOn(ops, fd, writing)
    decreases |ops|
  {
    hide Mirrors, AllSucceed, Legal, Step, Watches, StaysOn, TurnedOn, TurnsOn, TurnsOff;
    if ops == [] {
      NothingTurned(fd, writing);
    } else {
      StepMirrors(p, ops[0]);
      StepWatches(p, ops[0], fd, writing);
      TurnedOnHead(ops, fd, writing);
      WatchedIff(Step(p, ops[0]), ops[1..], fd, writing);
    }
  }

  lemma NothingTurned(fd: int, writing: bool)
    ensures StaysOn([], fd, writing) && !TurnedOn([], fd, writing)
  {
  }

  /** Disabling everything over and over adds and deletes the descriptor in turn. */
  lemma RepeatedDisableAll(p: Poll, fd: int)
    requires fd in p.chans && Mirrors(p)
    ensures var q := p.Change(fd, DisableAll); var r := q.Change(fd, DisableAll);
            && (fd in q.kernel <==> fd !in p.kernel)
            && (fd in r.kernel <==> fd in p.kernel)
            && (fd in r.kernel ==> r.kernel[fd] == NON_EVENT)
  {
    DisableAllToggles(p, fd);
    var q := p.Change(fd, DisableAll);
    assert fd in q.chans && (fd in q.kernel <==> q.chans[fd].flag.Added?);
    DisableAllToggles(q, fd);
  }

  lemma DisableAllToggles(p: Poll, fd: int)
    requires fd in p.chans && (fd in p.kernel <==> p.chans[fd].flag.Added?)
    ensures var q := p.Change(fd, DisableAll);
            && fd in q.chans && (fd in q.kernel <==> q.chans[fd].flag.Added?)
            && (fd in q.kernel <==> fd !in p.kernel)
            && (fd in q.kernel ==> q.kernel[fd] == NON_EVENT)
  {
  }

  // ---- The objects ----

  class Channel {
    const fd: int
    const poller: EventPoller
    var events: Mask
    var flag: Flag

    constructor (poller: EventPoller, fd: int)
      requires poller.Valid() && fd !in poller.open
      modifies poller`open
      ensures this.fd == fd && this.poller == poller && poller.Valid()
      ensures poller.open == old(poller.open)[fd := this]
      ensures poller.Model() == Step(old(poller.Model()), Open(fd))
    {
      this.fd := fd;
      this.poller := poller;
      events := NON_EVENT;
      flag := New;
      new;
      poller.open := poller.open[fd := this];
    }

    /** enableReading, disableReading, enableWriting, disableWriting and diableAll. */
    method SetInterest(change: Change)
      requires poller.Valid() && poller.Owns(this)
      modifies this, poller`channels, poller`kernel, poller`calls
      ensures poller.Valid() && poller.Model() == Step(old(poller.Model()), Interest(fd, change))
    {
      hide Changed;
      events := Changed(events, change);
      poller.OnlyChanged(this);
      poller.UpdateChannel(this);
    }

    method Remove()
      requires poller.Valid() && poller.Owns(this) && events == NON_EVENT && fd in poller.channels
      modifies this, poller`channels, poller`kernel, poller`calls
      ensures poller.Valid() && poller.Model() == Step(old(poller.Model()), Op.Remove(fd))
    {
      poller.RemoveChannel(this);
    }
  }

  class EventPoller {
    var channels: map<int, Channel>
    ghost var open: map<int, Channel>
    ghost var kernel: Kernel
    ghost var calls: seq<Ctl>

    ghost predicate Owns(c: Channel)
      reads this
    {
      c.poller == this && c.fd in open && open[c.fd] == c
    }

    /** Descriptors of open channels are distinct; the index holds the open channels that are not new. */
    ghost predicate Valid()
      reads this, open.Values
    {
      && (forall fd | fd in open :: open[fd].fd == fd && open[fd].poller == this)
      && (forall fd | fd in channels :: fd in open && channels[fd] == open[fd])
      && (forall fd | fd in open :: open[fd].flag.New? <==> fd !in channels)
    }

    ghost function Model(): Poll
      reads this, open.Values
    {
      Poll(Chans(), channels.Keys, kernel, calls)
    }

    ghost function Chans(): map<int, Chan>
      reads this, open.Values
    {
      map fd | fd in open :: Chan(open[fd].events, open[fd].flag)
    }

    twostate lemma OnlyChanged(c: Channel)
      requires Owns(c) && open == old(open)
      requires forall other | other in open.Values && other != c :: unchanged(other)
      requires forall fd | fd in open :: open[fd].fd == fd
      ensures Chans() == old(Chans())[c.fd := Chan(c.events, c.flag)]
    {
      forall fd | fd in open && fd != c.fd ensures unchanged(open[fd]) {
        assert open[fd] in open.Values;
      }
    }

    constructor ()
      ensures Valid() && Model() == EMPTY
    {
      channels := map[];
      open, kernel, calls := map[], map[], [];
    }

    ghost method EpollCtl(op: CtlOp, c: Channel)
      modifies this`kernel, this`calls
      ensures kernel == CtlEffect(old(kernel), Ctl(op, c.fd, c.events))
      ensures calls == old(calls) + [Ctl(op, c.fd, c.events)]
    {
      var ctl := Ctl(op, c.fd, c.events);
      kernel := CtlEffect(kernel, ctl);
      calls := calls + [ctl];
    }

    method UpdateChannel(c: Channel)
      requires Valid() && Owns(c)
      modifies this`channels, this`kernel, this`calls, c`flag
      ensures Valid() && Model() == old(Model().Update(c.fd))
    {
      hide CtlEffect;
      if c.flag.New? || c.flag.Deleted? {
        if c.flag.New? {
          assert c.fd !in channels;
          channels := channels[c.fd := c];
        } else {
          assert c.fd in channels && channels[c.fd] == c;
        }
        c.flag := Added;
        EpollCtl(Add, c);
      } else {
        assert c.fd in channels && channels[c.fd] == c && c.flag.Added?;
        if c.events == NON_EVENT {
          EpollCtl(Del, c);
          c.flag := Deleted;
        } else {
          EpollCtl(Mod, c);
        }
      }
      OnlyChanged(c);
    }

    method RemoveChannel(c: Channel)
      requires Valid() && Owns(c) && c.fd in channels && c.events == NON_EVENT
      modifies this`channels, this`kernel, this`calls, c`flag
      ensures Valid() && Model() == old(Model().Remove(c.fd))
    {
      hide CtlEffect;
      assert channels[c.fd] == c && !c.flag.New?;
      var flag := c.flag;
      channels := channels - {c.fd};
      if flag.Added? {
        EpollCtl(Del, c);
      }
      c.flag := New;
      OnlyChanged(c);
    }

    method HasChannel(c: Channel) returns (has: bool)
      requires Valid() && Owns(c)
      ensures has <==> c.fd in Model().index
    {
      has := c.fd in channels && channels[c.fd] == c;
    }
  }
}
