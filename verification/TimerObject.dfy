/** The class of netlib/net/TimerQueue.h, whose methods are steps of the machine in TimerQueue. */
module TimerObject {
  import opened Options
  import opened Machine = TimerQueue
  import opened TimerRuns

  lemma LeastIsUnique(e: Entry, es: set<Entry>)
    requires IsLeast(e, es)
    ensures e == Least(es)
  {
  }

  /** What a callback may do to the queue. */
  predicate IsCall(e: Event) {
    e.Add? || e.Cancel?
  }

  class TimerQueue {
    var heap: Heap
    var timers: set<Entry>
    var active: set<Id>
    var cancelling: set<Id>
    var calling: bool
    var index: nat
    var wake: Option<Wake>
    ghost var phase: Phase
    var now: int
    ghost var batch: seq<Entry>
    ghost var created: seq<bool>
    ghost var ran: seq<nat>
    ghost var freed: seq<nat>

    ghost function Model(): State
      reads this
    {
      State(heap, timers, active, cancelling, calling, index, wake, phase, now, batch, created, ran, freed)
    }

    constructor ()
      ensures Model() == START && Inv(Model())
    {
      heap, timers, active, cancelling, calling, index, wake := map[], {}, {}, {}, false, 0, None;
      phase, now, batch, created, ran, freed := Idle, 0, [], [], [], [];
      new;
      StartKeeps();
    }

    method ResetTimerFd(when: int, at: int)
      modifies this`wake
      ensures Model() == Arm(old(Model()), when, at)
    {
      var microSeconds := when - at;
      if microSeconds < 100 {
        microSeconds := 100;
      }
      wake := Some(Wake(at + microSeconds, at));
    }

    method InsertTimer(addr: nat) returns (earliestChange: bool)
      requires |timers| == |active| && addr in heap
      modifies this`timers, this`active
      ensures earliestChange == EarlierThanAll(heap[addr].expiration, old(timers))
      ensures Model() == Insert(old(Model()), addr)
    {
      assert |timers| == |active|;
      var when := heap[addr].expiration;
      earliestChange := EarlierThanAll(when, timers);
      timers := timers + {Entry(when, addr)};
      active := active + {Id(addr, heap[addr].sequence)};
    }

    /** delete on a timer: addr must be allocated, so nothing is freed twice. */
    method DeleteTimer(addr: nat)
      requires addr in heap
      modifies this`heap, this`freed
      ensures Model() == Delete(old(Model()), addr)
    {
      freed := freed + [heap[addr].sequence];
      heap := heap - {addr};
    }

    /** addr is what the allocator returns. */
    method AddTimer(addr: nat, when: int, interval: nat, repeat: bool, at: int) returns (id: Id)
      requires Inv(Model()) && Enabled(Model(), Add(addr, when, interval, repeat, at))
      modifies this
      ensures Inv(Model()) && Model() == Step(old(Model()), Add(addr, when, interval, repeat, at))
      ensures id == Id(addr, index) && id in active
    {
      hide Inv, Enabled, Step, EarlierThanAll;
      AddFacts(Model(), addr, when, interval, repeat, at);
      index := index + 1;
      heap := heap[addr := Timer(when, interval, repeat, index)];
      created := created + [repeat];
      AddTimerInLoop(addr, at);
      id := Id(addr, heap[addr].sequence);
    }

    method AddTimerInLoop(addr: nat, at: int)
      requires |timers| == |active| && addr in heap
      modifies this`timers, this`active, this`wake
      ensures Model() == AfterInsert(old(Model()), addr, at)
    {
      var earliestChange := InsertTimer(addr);
      if earliestChange {
        ResetTimerFd(heap[addr].expiration, at);
      }
    }

    method CancelInLoop(id: Id)
      requires Inv(Model()) && Enabled(Model(), Cancel(id))
      modifies this
      ensures Inv(Model()) && Model() == Step(old(Model()), Cancel(id))
    {
      hide Covered, Numbered, FreedOnce, Woken, RanOnce, InHand;
      StepKeeps(Model(), Cancel(id));
      assert |timers| == |active|;
      if id in active {
        var entry := Entry(heap[id.addr].expiration, id.addr);
        assert entry in timers;
        timers := timers - {entry};
        DeleteTimer(id.addr);
        active := active - {id};
      } else if calling {
        cancelling := cancelling + {id};
      }
      assert |timers| == |active|;
    }

    /** Copies the entries before lower_bound, in order, and erases them from both indexes. */
    method GetExpired(now: int) returns (expired: seq<Entry>)
      requires Indexed(Model()) && Numbered(Model())
      modifies this`timers, this`active
      ensures expired == Ordered(Due(old(timers), now)) && timers == old(timers) - Due(old(timers), now)
      ensures active == DropActive(old(Model()), now) && |timers| == |active|
    {
      hide Indexed, Numbered, Due, DropActive, DropIds, Ordered, Less;
      ExpireFacts(Model(), now);
      assert |timers| == |active|;
      var due := Due(timers, now);
      assert forall e | e in timers - due :: now < e.when;
      expired := [];
      var rest := due;
      while rest != {}
        invariant timers == old(timers) && active == old(active)
        invariant expired + Ordered(rest) == Ordered(due)
        decreases |rest|
      {
        LeastExists(rest);
        var e :| e in rest && IsLeast(e, rest);
        OrderedHead(e, rest);
        assert expired + Ordered(rest) == expired + [e] + Ordered(rest - {e});
        expired := expired + [e];
        rest := rest - {e};
      }
      OrderedEmpty();
      assert rest == {} && expired == expired + [] == Ordered(due);
      timers := timers - due;
      EraseActive(expired);
      assert |timers| == |active|;
    }

    /** The loop of getExpired over _activeTimers: every erase finds its timer. */
    method EraseActive(expired: seq<Entry>)
      requires forall i | 0 <= i < |expired| :: expired[i].addr in heap && IdOf(heap, expired[i].addr) in active
      requires forall i, j | 0 <= i < j < |expired| :: expired[i].addr != expired[j].addr
      modifies this`active
      ensures active == DropIds(heap, old(active), expired)
    {
      var i := 0;
      while i < |expired|
        invariant 0 <= i <= |expired|
        invariant forall j | i <= j < |expired| :: IdOf(heap, expired[j].addr) in active
        invariant DropIds(heap, active, expired[i..]) == DropIds(heap, old(active), expired)
      {
        var timer := IdOf(heap, expired[i].addr);
        assert timer in active;
        active := active - {timer};
        assert expired[i..][1..] == expired[i + 1..];
        i := i + 1;
      }
    }

    /** handleRead before its loop. */
    method BeginRead(now: int) returns (expired: seq<Entry>)
      requires Inv(Model()) && Enabled(Model(), Expire(now))
      modifies this
      ensures Inv(Model()) && Model() == Step(old(Model()), Expire(now)) && expired == batch
    {
      hide Inv, Indexed, Numbered, Enabled, Step, Ordered, Due, DropActive;
      BeginFacts(Model(), now);
      ExpireIgnoresWake(Model(), None, now);
      if wake.Some? && wake.value.deadline <= now {
        wake := None;
      }
      expired := GetExpired(now);
      calling := true;
      cancelling := {};
      phase, this.now, batch := Calling(0), now, expired;
    }

    /** Calling the i-th expired timer. What its callback does to the queue follows as adds and cancels. */
    method RunTimer(expired: seq<Entry>, i: nat)
      requires Inv(Model()) && Enabled(Model(), RunNext) && expired == batch && i == phase.i
      modifies this`phase, this`ran
      ensures Inv(Model()) && Model() == Step(old(Model()), RunNext)
    {
      hide Indexed, InHand, Covered, Numbered, FreedOnce, Woken, RanOnce;
      BatchLives(Model());
      StepKeeps(Model(), RunNext);
      ran := ran + [heap[expired[i].addr].sequence];
      phase := Calling(i + 1);
    }

    method ResetOneTimer(expired: seq<Entry>, i: nat)
      requires Inv(Model()) && Enabled(Model(), ResetOne) && i < |expired| && batch == expired[i..]
      modifies this
      ensures Inv(Model()) && Model() == Step(old(Model()), ResetOne)
    {
      hide Inv, Step, Enabled, Restart, Indexed, InHand, EarlierThanAll;
      ResetOneIs(Model());
      var addr := expired[i].addr;
      batch := batch[1..];
      if heap[addr].repeat && Id(addr, heap[addr].sequence) !in cancelling {
        heap := heap[addr := Restart(heap[addr], now)];
        var _ := InsertTimer(addr);
      } else {
        DeleteTimer(addr);
      }
    }

    /** The end of handleRead, and reset. */
    method Reset(expired: seq<Entry>, at: int)
      requires Inv(Model()) && phase == Calling(|batch|) && expired == batch
      modifies this
      ensures Inv(Model()) && phase.Idle?
      ensures Model() == Settled(old(Model()), at)
    {
      hide Indexed, InHand, Covered, Numbered, FreedOnce, Woken, RanOnce;
      ghost var s := CallsOver(Model());
      calling, phase := false, Resetting;
      var i := 0;
      while i < |expired|
        invariant 0 <= i <= |expired| && batch == expired[i..] && phase.Resetting?
        invariant Inv(Model()) && ResetLoop(Model()) == ResetLoop(s)
      {
        ResetOneFacts(Model(), 0);
        ResetOneTimer(expired, i);
        i := i + 1;
      }
      assert ResetLoop(Model()) == Model();
      RearmKeeps(Model(), at);
      ghost var t := Model();
      phase := Idle;
      if timers != {} {
        LeastExists(timers);
        var least :| least in timers && IsLeast(least, timers);
        LeastIsUnique(least, timers);
        EntryIsCurrent(t, least);
        var nextExpired := heap[least.addr].expiration;
        if nextExpired > 0 {
          ResetTimerFd(nextExpired, at);
        }
      }
    }

    /** handleRead whole: scripts[i] is what the i-th callback does. An add at an address in use is passed over:
        no allocator returns one. */
    method HandleRead(now: int, at: int, scripts: seq<seq<Event>>) returns (ghost calls: seq<Event>)
      requires Inv(Model()) && Enabled(Model(), Expire(now))
      requires forall i, j | 0 <= i < |scripts| && 0 <= j < |scripts[i]| :: IsCall(scripts[i][j])
      modifies this
      ensures Inv(Model()) && phase.Idle?
      ensures HandledBy(old(Model()), now, calls, at, Model())
      ensures Inv(Step(old(Model()), Expire(now)))
      ensures Follows(Step(old(Model()), Expire(now)), scripts, |Due(old(timers), now)|, calls)
    {
      hide Inv, Step, LegalRun, Run, Within, IsCall, Follows, Obeys, Due, Ordered, Enabled, Settled, Indexed, InHand;
      BeginFacts(Model(), now);
      var expired := BeginRead(now);
      ghost var s := Model();
      calls := [];
      NoCalls(s, scripts);
      OrderedIsOrdered(Due(old(timers), now));
      var i := 0;
      while i < |expired|
        invariant 0 <= i <= |expired| && phase == Calling(i) && batch == expired
        invariant Inv(Model()) && Inv(s) && LegalRun(s, calls) && Within(calls) && Model() == Run(s, calls)
        invariant Follows(s, scripts, i, calls)
      {
        var script := if i < |scripts| then scripts[i] else [];
        ghost var before := calls;
        calls := RunCallBack(s, calls, expired, i, script);
        FollowsMore(s, scripts, i, before, calls);
        i := i + 1;
      }
      Reset(expired, at);
    }

    /** The i-th expired timer is run, and this is what its callback does. */
    method RunCallBack(ghost s: State, ghost before: seq<Event>, expired: seq<Entry>, i: nat, script: seq<Event>)
        returns (ghost calls: seq<Event>)
      requires forall j | 0 <= j < |script| :: IsCall(script[j])
      requires Inv(s) && LegalRun(s, before) && Within(before) && Model() == Run(s, before)
      requires phase == Calling(i) && expired == batch && i < |expired|
      modifies this
      ensures phase == Calling(i + 1) && batch == old(batch)
      ensures Inv(Model()) && LegalRun(s, calls) && Within(calls) && Model() == Run(s, calls)
      ensures Obeys(s, script, before + [RunNext], calls)
    {
      hide Inv, Step, LegalRun, Run, Within, IsCall, Obeys;
      CallStep(s, before, RunNext);
      RunTimer(expired, i);
      calls := RunScript(s, before + [RunNext], script);
    }

    /** What one callback does to the queue, as far as the allocator allows. */
    method RunScript(ghost s: State, ghost before: seq<Event>, script: seq<Event>) returns (ghost calls: seq<Event>)
      requires forall j | 0 <= j < |script| :: IsCall(script[j])
      requires Inv(s) && LegalRun(s, before) && Within(before) && Model() == Run(s, before)
      requires phase.Calling?
      modifies this
      ensures phase == old(phase) && batch == old(batch)
      ensures Inv(Model()) && LegalRun(s, calls) && Within(calls) && Model() == Run(s, calls)
      ensures Obeys(s, script, before, calls)
    {
      hide Inv, Step, LegalRun, Run, Within, Obeys, Refused;
      calls := before;
      RunKeeps(s, calls);
      ObeysNothing(s, before);
      var j := 0;
      while j < |script|
        invariant 0 <= j <= |script| && phase == old(phase) && batch == old(batch)
        invariant Obeys(s, script[..j], before, calls)
        invariant Inv(Model()) && LegalRun(s, calls) && Within(calls) && Model() == Run(s, calls)
      {
        var e := script[j];
        assert IsCall(e);
        ghost var now := calls;
        if e.Cancel? || (e.addr !in heap && e.addr < UINTPTR_MAX) {
          CallStep(s, calls, e);
          match e {
            case Add(addr, when, interval, repeat, at) =>
              var _ := AddTimer(addr, when, interval, repeat, at);
            case Cancel(id) =>
              CancelInLoop(id);
          }
          calls := calls + [e];
        } else {
          RefusedNow(s, calls, e);
        }
        ObeysMore(s, script, j, before, now, calls);
        j := j + 1;
      }
      assert script[..j] == script;
    }

    /** The destructor: deletes what is queued, and with it every timer created has been freed exactly once. */
    method Destroy()
      requires Inv(Model()) && phase.Idle?
      modifies this`heap, this`freed
      ensures heap == map[]
      ensures forall q | 1 <= q <= index :: Times(freed, q) == 1
    {
      hide Inv, Numbered, FreedOnce, Holds;
      var rest := timers;
      QueueHolds(Model());
      while rest != {}
        invariant Numbered(Model()) && FreedOnce(Model()) && Holds(heap, rest)
        decreases |rest|
      {
        var e :| e in rest;
        HoldsLess(heap, rest, e);
        DeleteNumbered(Model(), e.addr);
        DeleteTimer(e.addr);
        rest := rest - {e};
      }
      AllFreed(Model(), rest);
    }
  }

  lemma AddFacts(s: State, addr: nat, when: int, interval: nat, repeat: bool, at: int)
    requires Inv(s) && Enabled(s, Add(addr, when, interval, repeat, at))
    ensures |s.timers| == |s.active| && addr !in s.heap && Indexed(s) && InHand(s)
    ensures Inv(AfterAdd(s, addr, when, interval, repeat, at))
    ensures Step(s, Add(addr, when, interval, repeat, at)) == AfterAdd(s, addr, when, interval, repeat, at)
  {
    hide Covered, Numbered, FreedOnce, Woken, RanOnce, InHand, AfterAdd;
    StepKeeps(s, Add(addr, when, interval, repeat, at));
  }

  lemma ExpireFacts(s: State, now: int)
    requires Indexed(s) && Numbered(s)
    ensures var due := Due(s.timers, now); var batch := Ordered(due);
            && |s.timers| == |s.active|
            && (forall i | 0 <= i < |batch| :: batch[i].addr in s.heap && IdOf(s.heap, batch[i].addr) in s.active)
            && (forall i, j | 0 <= i < j < |batch| :: batch[i].addr != batch[j].addr)
            && (forall e | e in s.timers - due :: now < e.when)
            && DropActive(s, now) == DropIds(s.heap, s.active, batch)
            && |DropActive(s, now)| == |s.timers - due|
  {
    assert forall e | e in s.timers :: e.addr < UINTPTR_MAX;
    assert forall e | e in s.timers - Due(s.timers, now) :: now < e.when;
    assert Due(s.timers, now) <= s.timers;
    hide Numbered, Ordered, DropIds, Due;
    BatchFromQueue(s, now);
    ExpireActive(s, now);
  }

  lemma OrderedHead(e: Entry, es: set<Entry>)
    requires IsLeast(e, es)
    ensures Ordered(es) == [e] + Ordered(es - {e})
  {
  }

  lemma OrderedEmpty()
    ensures Ordered({}) == []
  {
  }

  lemma ExpireIgnoresWake(s: State, wake: Option<Wake>, now: int)
    requires Indexed(s) && Numbered(s)
    ensures var t := s.(wake := wake); Indexed(t) && Numbered(t) && DropActive(t, now) == DropActive(s, now)
  {
    SameIndexed(s, s.(wake := wake));
    hide Indexed;
  }

  /** One more call from within a batch. */
  lemma CallStep(s: State, calls: seq<Event>, e: Event)
    requires Inv(s) && LegalRun(s, calls) && Within(calls)
    requires Run(s, calls).phase.Calling? && Enabled(Run(s, calls), e) && !e.Expire? && !e.EndCalls?
    ensures LegalRun(s, calls + [e]) && Within(calls + [e])
    ensures Inv(Run(s, calls)) && Indexed(Run(s, calls)) && InHand(Run(s, calls))
    ensures var t := Run(s, calls);
            && Run(s, calls + [e]) == Step(t, e) && Inv(Step(t, e)) && t.phase.i <= |t.batch|
            && Step(t, e).phase.Calling? && Step(t, e).batch == t.batch
            && Step(t, e).phase.i == t.phase.i + (if e.RunNext? then 1 else 0)
  {
    hide Inv, Step, LegalRun, Run, Enabled;
    RunKeeps(s, calls);
    RunSnoc(s, calls, e);
    StepFacts(Run(s, calls), e);
  }

  lemma ObeysNothing(s: State, before: seq<Event>)
    requires Inv(s)
    ensures Obeys(s, [], before, before)
  {
  }

  lemma NoCalls(s: State, scripts: seq<seq<Event>>)
    requires Inv(s)
    ensures LegalRun(s, []) && Run(s, []) == s && Within([]) && Follows(s, scripts, 0, [])
  {
  }

  lemma RunKeeps(s: State, es: seq<Event>)
    requires Inv(s) && LegalRun(s, es)
    ensures Inv(Run(s, es))
  {
  }

  lemma EntryIsCurrent(s: State, e: Entry)
    requires Indexed(s) && e in s.timers
    ensures e.addr in s.heap && s.heap[e.addr].expiration == e.when
  {
  }

  lemma ResetOneIs(s: State)
    requires Inv(s) && Enabled(s, ResetOne)
    ensures s.batch != [] && s.batch[0].addr in s.heap && |s.timers| == |s.active|
    ensures Indexed(s) && InHand(s) && Inv(Step(s, ResetOne)) && Step(s, ResetOne) == AfterResetOne(s)
  {
    hide Covered, Numbered, FreedOnce, Woken, RanOnce, AfterResetOne;
    StepKeeps(s, ResetOne);
  }

  /** The heap holds the timers of these entries and no others. */
  ghost predicate Holds(heap: Heap, es: set<Entry>) {
    && (forall e | e in es :: e.addr in heap && heap[e.addr].expiration == e.when)
    && (forall a | a in heap :: Entry(heap[a].expiration, a) in es)
  }

  lemma QueueHolds(s: State)
    requires Inv(s) && s.phase.Idle?
    ensures Holds(s.heap, s.timers) && Numbered(s) && FreedOnce(s)
  {
    hide Numbered, FreedOnce, Woken, RanOnce;
  }

  lemma HoldsLess(heap: Heap, es: set<Entry>, e: Entry)
    requires Holds(heap, es) && e in es
    ensures e.addr in heap && Holds(heap - {e.addr}, es - {e})
  {
  }

  lemma AllFreed(s: State, es: set<Entry>)
    requires Numbered(s) && FreedOnce(s) && Holds(s.heap, es) && es == {}
    ensures s.heap == map[]
    ensures forall q | 1 <= q <= s.index :: Times(s.freed, q) == 1
  {
    forall q | 1 <= q <= s.index ensures Times(s.freed, q) == 1 {
      assert !Live(s.heap, q);
      NoDuplicates(s.freed, q);
      TimesAppend(s.freed, 0, q);
    }
  }
}
