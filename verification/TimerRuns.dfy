/** What runs of the timer queue do: wake-ups, batches, and the fate of every timer. */
module TimerRuns {
  import opened Options
  import opened TimerQueue

  // ---- What is queued ----

  predicate Queued(s: State, addr: nat, timer: Timer) {
    && addr in s.heap && s.heap[addr] == timer
    && Id(addr, timer.sequence) in s.active && Entry(timer.expiration, addr) in s.timers
  }

  lemma BatchLives(s: State)
    requires Inv(s)
    ensures forall i | 0 <= i < |s.batch| :: s.batch[i].addr in s.heap
    ensures s.phase.Calling? ==> s.phase.i <= |s.batch|
  {
  }

  /** What is queued after a step: exactly what was, a new timer as it was asked for, less what is cancelled
      or due, and a repeating timer of the batch that is restarted. */
  lemma QueuedIff(s: State, e: Event, addr: nat, timer: Timer)
    requires Inv(s) && Enabled(s, e)
    ensures Indexed(s) && InHand(s) && (e.ResetOne? ==> s.batch[0].addr in s.heap)
    ensures Queued(Step(s, e), addr, timer) <==>
      match e {
        case Add(a, when, interval, repeat, _) =>
          Queued(s, addr, timer) || (addr == a && timer == Timer(when, interval, repeat, |s.created| + 1))
        case Cancel(id) => Queued(s, addr, timer) && id != Id(addr, timer.sequence)
        case Expire(now) => Queued(s, addr, timer) && now < timer.expiration
        case ResetOne =>
          var was := s.heap[s.batch[0].addr];
          Queued(s, addr, timer) ||
          (addr == s.batch[0].addr && was.repeat && Id(addr, was.sequence) !in s.cancelling
           && timer == was.(expiration := s.now + was.interval))
        case _ => Queued(s, addr, timer)
      }
  {
    hide Covered, Numbered, FreedOnce, Woken, RanOnce, AfterAdd, AfterCancel, AfterExpire, AfterResetOne;
    BatchLives(s);
    match e
    case Add(a, when, interval, repeat, at) => QueuedByAdd(s, a, when, interval, repeat, at, addr, timer);
    case Cancel(id) => QueuedByCancel(s, id, addr, timer);
    case Expire(now) => QueuedByExpire(s, now, addr, timer);
    case ResetOne => QueuedByReset(s, addr, timer);
    case Rearm(_) =>
    case RunNext =>
    case EndCalls =>
  }

  lemma QueuedByAdd(s: State, a: nat, when: int, interval: nat, repeat: bool, at: int, addr: nat, timer: Timer)
    requires Inv(s) && Enabled(s, Add(a, when, interval, repeat, at))
    ensures Queued(AfterAdd(s, a, when, interval, repeat, at), addr, timer) <==>
            Queued(s, addr, timer) || (addr == a && timer == Timer(when, interval, repeat, |s.created| + 1))
  {
    hide InHand, Covered, FreedOnce, Woken, RanOnce, EarlierThanAll;
    AddNotQueued(s, a);
    NotQueuedEntries(s, a);
    assert s.index == |s.created|;
    hide Indexed, Numbered;
  }

  lemma QueuedByCancel(s: State, id: Id, addr: nat, timer: Timer)
    requires Inv(s)
    ensures id in s.active ==> id.addr in s.heap
    ensures Queued(AfterCancel(s, id), addr, timer) <==> Queued(s, addr, timer) && id != Id(addr, timer.sequence)
  {
    hide InHand, Covered, FreedOnce, Woken, RanOnce, Numbered;
    if id in s.active {
      ActiveIsLive(s, id);
      UnqueueIndexed(s, id);
    }
  }

  lemma QueuedByExpire(s: State, now: int, addr: nat, timer: Timer)
    requires Inv(s)
    ensures Queued(AfterExpire(s, now), addr, timer) <==> Queued(s, addr, timer) && now < timer.expiration
  {
    hide InHand, Covered, FreedOnce, Woken, RanOnce, Ordered, DropIds;
    ExpireActive(s, now);
    assert AfterExpire(s, now).active == DropActive(s, now);
    assert addr in s.heap ==> addr < UINTPTR_MAX;
    hide Indexed, Numbered;
  }

  lemma QueuedByReset(s: State, addr: nat, timer: Timer)
    requires Inv(s) && s.batch != [] && s.batch[0].addr in s.heap
    ensures var was := s.heap[s.batch[0].addr];
            Queued(AfterResetOne(s), addr, timer) <==>
              Queued(s, addr, timer) ||
              (addr == s.batch[0].addr && was.repeat && Id(addr, was.sequence) !in s.cancelling
               && timer == was.(expiration := s.now + was.interval))
  {
    hide Covered, FreedOnce, Woken, RanOnce, Numbered;
    BatchNotQueued(s, 0);
    NotQueuedEntries(s, s.batch[0].addr);
    hide Indexed, InHand;
  }

  /** An added timer is queued as it was asked for. */
  lemma AddedIsQueued(s: State, addr: nat, when: int, interval: nat, repeat: bool, at: int)
    requires Inv(s) && Enabled(s, Add(addr, when, interval, repeat, at))
    ensures Indexed(s) && InHand(s)
    ensures Queued(Step(s, Add(addr, when, interval, repeat, at)), addr, Timer(when, interval, repeat, s.index + 1))
  {
    hide InHand, Covered, FreedOnce, Woken, RanOnce, Step;
    QueuedIff(s, Add(addr, when, interval, repeat, at), addr, Timer(when, interval, repeat, s.index + 1));
    assert s.index == |s.created|;
  }

  /** A queued timer stays as it is over any run that neither cancels it nor takes a batch it is due for. */
  lemma {:induction false} WaitsForItsTime(s: State, es: seq<Event>, addr: nat, timer: Timer)
    requires Inv(s) && LegalRun(s, es) && Queued(s, addr, timer)
    requires Cancel(Id(addr, timer.sequence)) !in es
    requires forall e | e in es && e.Expire? :: e.now < timer.expiration
    ensures Queued(Run(s, es), addr, timer)
    decreases |es|
  {
    hide Inv, Step, Enabled, Queued;
    if es != [] {
      assert es[0] in es && forall e | e in es[1..] :: e in es;
      QueuedIff(s, es[0], addr, timer);
      StepKeeps(s, es[0]);
      WaitsForItsTime(Step(s, es[0]), es[1..], addr, timer);
    }
  }

  // ---- The timerfd ----

  /** Outside handleRead a non-empty queue always has a wake-up, armed or already fired, no later than
      its earliest expiration or 100 microseconds after it was set. */
  lemma NeverAsleep(s: State)
    requires Inv(s) && s.phase.Idle? && s.timers != {}
    ensures s.wake.Some?
    ensures forall e | IsLeast(e, s.timers) :: s.wake.value.deadline <= Max(e.when, s.wake.value.at + 100)
  {
  }

  /** The timerfd is set exactly by an add that precedes every queued timer and by a reset that leaves only timers
      of a valid time: for the earliest timer, at least 100 microseconds from then. A batch reads it once it has fired. */
  lemma WakeExactly(s: State, e: Event)
    requires Inv(s) && Enabled(s, e)
    ensures var t := Step(s, e);
            t.wake ==
            match e {
              case Add(_, when, _, _, at) =>
                if forall f | f in s.timers :: when < f.when then Some(Wake(Max(when, at + 100), at)) else s.wake
              case Expire(now) =>
                if s.wake.Some? && s.wake.value.deadline <= now then None else s.wake
              case Rearm(at) =>
                if t.timers != {} && forall f | f in t.timers :: f.when > 0
                then Some(Wake(Max(Least(t.timers).when, at + 100), at)) else s.wake
              case _ => s.wake
            }
  {
    hide Indexed, InHand, Covered, Numbered, FreedOnce, Woken, RanOnce, Ordered, DropIds, Due;
  }

  /** Whenever the timerfd is set, it is set for the earliest timer in the queue, or 100 microseconds ahead
      of the time of the call. */
  lemma ArmedForEarliest(s: State, e: Event)
    requires Inv(s) && Enabled(s, e)
    requires Step(s, e).wake != s.wake && Step(s, e).wake.Some?
    ensures var t := Step(s, e); var wake := t.wake.value;
            && t.timers != {} && wake.deadline == Max(Least(t.timers).when, wake.at + 100)
            && ((e.Add? && wake.at == e.at) || (e.Rearm? && wake.at == e.at))
  {
    hide Indexed, InHand, Covered, Numbered, FreedOnce, Woken, RanOnce, Ordered, DropIds, Due;
  }

  /** A batch is exactly the queued timers due by now, in (expiration, address) order; all others are due later. */
  lemma BatchIsExact(s: State, now: int)
    requires Inv(s) && Enabled(s, Expire(now))
    ensures var t := Step(s, Expire(now));
            && Ascending(t.batch)
            && (forall e :: e in t.batch <==> e in s.timers && e.when <= now)
            && (forall e :: e in t.timers <==> e in s.timers && e.when > now)
  {
    hide Ordered, DropIds, Covered, FreedOnce, Woken, RanOnce;
    BatchFromQueue(s, now);
    assert forall e | e in s.timers :: e.addr < UINTPTR_MAX;
  }

  function SequencesOf(heap: Heap, batch: seq<Entry>): seq<nat>
    requires forall i | 0 <= i < |batch| :: batch[i].addr in heap
  {
    seq(|batch|, i requires 0 <= i < |batch| => heap[batch[i].addr].sequence)
  }

  predicate Within(es: seq<Event>) {
    forall i | 0 <= i < |es| :: !es[i].Expire? && !es[i].EndCalls?
  }

  lemma WithinTail(es: seq<Event>)
    requires Within(es) && es != []
    ensures Within(es[1..]) && !es[0].Expire? && !es[0].EndCalls?
  {
    assert forall i | 0 <= i < |es[1..]| :: es[1..][i] == es[i + 1];
  }

  /** While callbacks are being called, the batch and its timers stay as they are. */
  lemma StepWithin(s: State, e: Event)
    requires Indexed(s) && InHand(s) && s.phase.Calling? && Enabled(s, e) && !e.Expire? && !e.EndCalls?
    ensures var t := Step(s, e);
            && t.phase.Calling? && t.batch == s.batch && t.now == s.now
            && t.phase.i == s.phase.i + (if e.RunNext? then 1 else 0)
            && (forall i | 0 <= i < |s.batch| ::
                  s.batch[i].addr in s.heap && s.batch[i].addr in t.heap &&
                  t.heap[s.batch[i].addr] == s.heap[s.batch[i].addr])
            && t.ran == s.ran + if e.RunNext? then [s.heap[s.batch[s.phase.i].addr].sequence] else []
  {
    hide Indexed, EarlierThanAll, Restart, DropIds, Due, Ordered, Least;
    if e.Cancel? {
      CancelMissesBatch(s, e.id);
    }
  }

  lemma StepFacts(s: State, e: Event)
    requires Inv(s) && s.phase.Calling? && Enabled(s, e) && !e.Expire? && !e.EndCalls?
    ensures Indexed(s) && InHand(s) && s.phase.i <= |s.batch| && (e.RunNext? ==> s.phase.i < |s.batch|)
    ensures var t := Step(s, e);
            && Inv(t) && t.phase.Calling? && t.batch == s.batch && t.now == s.now
            && t.phase.i == s.phase.i + (if e.RunNext? then 1 else 0)
            && (forall i | 0 <= i < |s.batch| ::
                  s.batch[i].addr in s.heap && s.batch[i].addr in t.heap &&
                  t.heap[s.batch[i].addr] == s.heap[s.batch[i].addr])
            && t.ran == s.ran + if e.RunNext? then [s.heap[s.batch[s.phase.i].addr].sequence] else []
  {
    hide Indexed, InHand, Covered, Numbered, FreedOnce, Woken, RanOnce, Step;
    BatchLives(s);
    StepWithin(s, e);
    StepKeeps(s, e);
  }

  /** Whatever the callbacks add and cancel, the timers run are those of the batch, in its order, once each. */
  lemma {:induction false} RunsTheBatch(s: State, es: seq<Event>)
    requires Inv(s) && s.phase.Calling? && LegalRun(s, es) && Within(es)
    ensures var t := Run(s, es);
            && t.phase.Calling? && s.phase.i <= t.phase.i <= |s.batch| && t.batch == s.batch && t.now == s.now
            && (forall i | 0 <= i < |s.batch| :: s.batch[i].addr in s.heap)
            && t.ran == s.ran + SequencesOf(s.heap, s.batch)[s.phase.i..t.phase.i]
    decreases |es|
  {
    hide Inv, Step, Enabled, IdOf;
    BatchLives(s);
    var all := SequencesOf(s.heap, s.batch);
    if es == [] {
      assert s.ran + all[s.phase.i..s.phase.i] == s.ran;
    } else {
      WithinTail(es);
      StepFacts(s, es[0]);
      var t := Step(s, es[0]);
      BatchLives(t);
      RunsTheBatch(t, es[1..]);
      assert SequencesOf(t.heap, t.batch) == all;
      var j := Run(t, es[1..]).phase.i;
      RunsOn(s.ran, all, s.phase.i, t.phase.i, j);
    }
  }

  lemma RunsOn(ran: seq<nat>, all: seq<nat>, i: nat, j: nat, k: nat)
    requires i <= j <= k <= |all|
    ensures ran + all[i..j] + all[j..k] == ran + all[i..k]
    ensures j == i + 1 ==> all[i..j] == [all[i]]
    ensures j == i ==> all[i..j] == []
  {
  }

  // ---- Over a whole run ----

  /** A freed sequence is never run and never comes back. */
  lemma StepAfterFree(s: State, e: Event, q: nat)
    requires Inv(s) && Enabled(s, e) && q in s.freed
    ensures q in Step(s, e).freed && Times(Step(s, e).ran, q) == Times(s.ran, q)
  {
    if e.RunNext? {
      var addr := s.batch[s.phase.i].addr;
      hide Covered, Numbered, Woken, RanOnce, Times;
      assert Live(s.heap, s.heap[addr].sequence);
      TimesAppend(s.ran, s.heap[addr].sequence, q);
    }
    hide Inv, EarlierThanAll, Ordered, Due, Least, DropIds;
  }

  lemma {:induction false} FreedNeverRuns(s: State, es: seq<Event>, q: nat)
    requires Inv(s) && LegalRun(s, es) && q in s.freed
    ensures q in Run(s, es).freed && Times(Run(s, es).ran, q) == Times(s.ran, q)
    decreases |es|
  {
    if es != [] {
      StepAfterFree(s, es[0], q);
      StepKeeps(s, es[0]);
      hide Inv, Step, Enabled, Times;
      FreedNeverRuns(Step(s, es[0]), es[1..], q);
    }
  }

  /** A timer cancelled while it is queued never runs again, whatever follows. */
  lemma CancelledNeverRuns(s: State, id: Id, es: seq<Event>)
    requires Inv(s) && Enabled(s, Cancel(id)) && id in s.active
    requires LegalRun(s, [Cancel(id)] + es)
    ensures Times(Run(s, [Cancel(id)] + es).ran, id.sequence) == Times(s.ran, id.sequence)
    ensures id.sequence in Run(s, [Cancel(id)] + es).freed
  {
    assert ([Cancel(id)] + es)[1..] == es;
    StepKeeps(s, Cancel(id));
    ActiveIsLive(s, id);
    var t := Step(s, Cancel(id));
    assert t.ran == s.ran && t.freed == s.freed + [id.sequence];
    hide Inv, Step, Times;
    FreedNeverRuns(t, es, id.sequence);
  }

  /** A one-shot timer runs at most once in any run; no timer is freed twice; and every timer created
      is freed, queued, or in the batch in hand. */
  lemma EveryRunAccounts(s: State, es: seq<Event>, q: nat)
    requires Inv(s) && LegalRun(s, es) && 1 <= q <= Run(s, es).index
    ensures var t := Run(s, es);
            && q <= |t.created| && (!t.created[q - 1] ==> Times(t.ran, q) <= 1)
            && Times(t.freed, q) <= 1
            && (q in t.freed || exists a :: a in t.heap && t.heap[a].sequence == q
                                           && (Id(a, q) in t.active || InBatch(t.batch, a)))
  {
    var t := Run(s, es);
    hide Times, InBatch;
    NoDuplicates(t.freed, q);
    if q !in t.freed {
      assert Live(t.heap, q);
      var a :| a in t.heap && t.heap[a].sequence == q;
      assert IdOf(t.heap, a) == Id(a, q);
    }
  }

  lemma {:induction false} NoDuplicates(xs: seq<nat>, q: nat)
    requires forall i, j | 0 <= i < j < |xs| :: xs[i] != xs[j]
    ensures Times(xs, q) <= 1
  {
    if xs != [] {
      var before, last := xs[..|xs| - 1], xs[|xs| - 1];
      NoDuplicates(before, q);
      assert xs == before + [last];
      TimesAppend(before, last, q);
      if q == last {
        assert q !in before;
      }
    }
  }

  /** What a stale cancel can leave behind: an id of a freed timer more in the cancelling set. */
  predicate StaleMore(s: State, c: set<Id>, id: Id) {
    id.sequence in s.freed && (c == s.cancelling || c == s.cancelling + {id})
  }

  lemma StaleStep(s: State, c: set<Id>, id: Id, e: Event)
    requires Inv(s) && Enabled(s, e) && StaleMore(s, c, id)
    ensures Inv(s.(cancelling := c)) && Enabled(s.(cancelling := c), e)
    ensures var t, u := Step(s, e), Step(s.(cancelling := c), e);
            u == t.(cancelling := u.cancelling) && StaleMore(t, u.cancelling, id)
  {
    SameButCancelling(s, c);
    StepAfterFree(s, e, id.sequence);
    FreedIsNotLive(s, id);
    hide Covered, Numbered, FreedOnce, Woken, RanOnce, Restart;
    StaleEffect(s, c, id, e);
  }

  lemma StaleEffect(s: State, c: set<Id>, id: Id, e: Event)
    requires Indexed(s) && InHand(s) && Enabled(s, e) && (c == s.cancelling || c == s.cancelling + {id})
    requires Indexed(s.(cancelling := c)) && InHand(s.(cancelling := c))
    requires forall a | a in s.heap :: IdOf(s.heap, a) != id
    ensures var t, u := Step(s, e), Step(s.(cancelling := c), e);
            && u == t.(cancelling := u.cancelling)
            && (u.cancelling == t.cancelling || u.cancelling == t.cancelling + {id})
  {
    hide Indexed, AfterExpire, AfterResetOne, EarlierThanAll, Least;
    match e
    case Expire(now) => StaleExpire(s, c, now);
    case ResetOne => StaleReset(s, c, id);
    case _ =>
  }

  lemma StaleExpire(s: State, c: set<Id>, now: int)
    requires Indexed(s) && Indexed(s.(cancelling := c))
    ensures AfterExpire(s.(cancelling := c), now) == AfterExpire(s, now)
  {
    hide Indexed, Due, DropIds, Ordered;
  }

  lemma StaleReset(s: State, c: set<Id>, id: Id)
    requires s.batch != [] && s.batch[0].addr in s.heap && IdOf(s.heap, s.batch[0].addr) != id
    requires c == s.cancelling || c == s.cancelling + {id}
    ensures AfterResetOne(s.(cancelling := c)) == AfterResetOne(s).(cancelling := c)
    ensures AfterResetOne(s).cancelling == s.cancelling
  {
    hide Restart;
  }

  lemma FreedIsNotLive(s: State, id: Id)
    requires Inv(s) && id.sequence in s.freed
    ensures id !in s.active && forall a | a in s.heap :: IdOf(s.heap, a) != id
  {
    hide InHand, Covered, Numbered, Woken, RanOnce;
    forall a | a in s.heap ensures IdOf(s.heap, a) != id {
      assert s.heap[a].sequence == id.sequence ==> Live(s.heap, id.sequence);
    }
    if id in s.active {
      ActiveIsLive(s, id);
    }
  }

  lemma {:induction false} StaleRun(s: State, c: set<Id>, id: Id, es: seq<Event>)
    requires Inv(s) && LegalRun(s, es) && StaleMore(s, c, id)
    ensures Inv(s.(cancelling := c)) && LegalRun(s.(cancelling := c), es)
    ensures var u := Run(s.(cancelling := c), es); u == Run(s, es).(cancelling := u.cancelling)
    decreases |es|
  {
    if es == [] {
      SameButCancelling(s, c);
    } else {
      hide Inv, Step, Enabled, StaleMore;
      StaleStep(s, c, id, es[0]);
      StepKeeps(s, es[0]);
      StaleRun(Step(s, es[0]), Step(s.(cancelling := c), es[0]).cancelling, id, es[1..]);
    }
  }

  lemma SameButCancelling(s: State, c: set<Id>)
    requires Inv(s)
    ensures Inv(s.(cancelling := c))
  {
    hide Indexed, Numbered, FreedOnce, RanOnce, Woken, Covered;
    var t := s.(cancelling := c);
    SameIndexed(s, t);
    SameNumbered(s, t);
    SameRanOnce(s, t);
    SameCovered(s, t);
    SameWoken(s, t);
  }

  lemma SameCovered(s: State, t: State)
    requires Covered(s) && t.heap == s.heap && t.active == s.active && t.batch == s.batch
    ensures Covered(t)
  {
  }

  lemma SameWoken(s: State, t: State)
    requires Woken(s) && t.timers == s.timers && t.phase == s.phase && t.now == s.now && t.wake == s.wake
    ensures Woken(t)
  {
  }

  /** Cancelling the id of a freed timer harms no other, even if its address has been given to another since:
      every run goes on as it would have without, but for the cancelling set. */
  lemma StaleCancelHarmless(s: State, id: Id, es: seq<Event>)
    requires Inv(s) && Enabled(s, Cancel(id)) && id.sequence in s.freed && LegalRun(s, es)
    ensures forall a | a in s.heap :: IdOf(s.heap, a) != id
    ensures LegalRun(s, [Cancel(id)] + es)
    ensures var u := Run(s, [Cancel(id)] + es); u == Run(s, es).(cancelling := u.cancelling)
  {
    FreedIsNotLive(s, id);
    var t := Step(s, Cancel(id));
    assert t == s.(cancelling := t.cancelling) && StaleMore(s, t.cancelling, id);
    StepKeeps(s, Cancel(id));
    hide Inv, Step, Enabled, StaleMore;
    StaleRun(s, t.cancelling, id, es);
    assert ([Cancel(id)] + es)[1..] == es;
  }

  // ---- What becomes of a batch ----

  /** An id is noted exactly by a cancel that finds no such timer queued while callbacks are being called,
      until the next batch. */
  lemma NotedExactly(s: State, e: Event, id: Id)
    requires Inv(s) && Enabled(s, e)
    ensures id in Step(s, e).cancelling <==>
            !e.Expire? && (id in s.cancelling || (e == Cancel(id) && id !in s.active && s.phase.Calling?))
  {
    hide Indexed, Covered, Numbered, FreedOnce, Woken, RanOnce, Ordered, DropIds, Due, Least, EarlierThanAll;
  }

  /** An id of the batch is being cancelled exactly when some callback of the batch has cancelled it. */
  lemma {:induction false} CancellingExactly(s: State, es: seq<Event>, i: nat)
    requires Inv(s) && s.phase.Calling? && LegalRun(s, es) && Within(es) && i < |s.batch|
    ensures s.batch[i].addr in s.heap
    ensures var id := IdOf(s.heap, s.batch[i].addr);
            id in Run(s, es).cancelling <==> id in s.cancelling || Cancel(id) in es
    decreases |es|
  {
    hide Inv, Step, Enabled;
    BatchLives(s);
    if es != [] {
      WithinTail(es);
      StepFacts(s, es[0]);
      StepCancelling(s, es[0], i);
      CancellingExactly(Step(s, es[0]), es[1..], i);
      assert es == [es[0]] + es[1..];
    }
  }

  lemma StepCancelling(s: State, e: Event, i: nat)
    requires Inv(s) && s.phase.Calling? && Enabled(s, e) && !e.Expire? && i < |s.batch|
    ensures s.batch[i].addr in s.heap
    ensures var id := IdOf(s.heap, s.batch[i].addr);
            id in Step(s, e).cancelling <==> id in s.cancelling || e == Cancel(id)
  {
    hide Indexed, Covered, Numbered, FreedOnce, Woken, RanOnce;
  }

  /** The loop of reset. */
  ghost function ResetLoop(s: State): (t: State)
    requires Inv(s) && s.phase.Resetting?
    ensures Inv(t) && t.phase.Resetting? && t.batch == []
    decreases |s.batch|
  {
    if s.batch == [] then s
    else
      StepKeeps(s, ResetOne);
      ResetLoop(Step(s, ResetOne))
  }

  lemma ResetOneKeeps(s: State)
    requires Indexed(s) && InHand(s) && Enabled(s, ResetOne)
    ensures var t := AfterResetOne(s);
            && t.phase.Resetting? && t.batch == s.batch[1..] && t.now == s.now && t.cancelling == s.cancelling
            && s.active <= t.active && s.freed <= t.freed
            && (forall a | a in s.heap && a != s.batch[0].addr :: a in t.heap && t.heap[a] == s.heap[a])
  {
    hide Indexed, Restart;
  }

  lemma ResetOneHead(s: State)
    requires Indexed(s) && InHand(s) && Enabled(s, ResetOne)
    ensures s.batch[0].addr in s.heap
    ensures var addr := s.batch[0].addr; var timer := s.heap[addr]; var t := AfterResetOne(s);
            if timer.repeat && IdOf(s.heap, addr) !in s.cancelling
            then addr in t.heap && t.heap[addr] == Restart(timer, s.now) && IdOf(s.heap, addr) in t.active
            else timer.sequence in t.freed
  {
    hide Indexed;
  }

  lemma {:induction false} ResetLoopKeepsQueued(s: State, id: Id)
    requires Inv(s) && s.phase.Resetting? && id in s.active
    ensures var t := ResetLoop(s);
            && id.addr in s.heap && id.addr in t.heap && t.heap[id.addr] == s.heap[id.addr] && id in t.active
            && IdOf(s.heap, id.addr) == id && Entry(s.heap[id.addr].expiration, id.addr) in t.timers
    decreases |s.batch|
  {
    ActiveIsLive(s, id);
    if s.batch != [] {
      StepKeeps(s, ResetOne);
      BatchNotQueued(s, 0);
      ResetOneKeeps(s);
      hide Indexed, InHand, Covered, Numbered, FreedOnce, Woken, RanOnce, AfterResetOne;
      ResetLoopKeepsQueued(Step(s, ResetOne), id);
    } else {
      assert ResetLoop(s) == s;
    }
  }

  lemma {:induction false} ResetLoopKeepsFreed(s: State, q: nat)
    requires Inv(s) && s.phase.Resetting? && q in s.freed
    ensures q in ResetLoop(s).freed
    decreases |s.batch|
  {
    if s.batch != [] {
      StepKeeps(s, ResetOne);
      hide Indexed, InHand, Covered, Numbered, FreedOnce, Woken, RanOnce;
      ResetLoopKeepsFreed(Step(s, ResetOne), q);
    }
  }

  /** A repeating timer nobody has cancelled is queued again at now + interval; any other is freed. */
  lemma {:induction false} ResetOutcome(s: State, i: nat)
    requires Inv(s) && s.phase.Resetting? && i < |s.batch|
    ensures s.batch[i].addr in s.heap
    ensures var addr := s.batch[i].addr; var timer := s.heap[addr];
            if timer.repeat && Id(addr, timer.sequence) !in s.cancelling
            then Queued(ResetLoop(s), addr, timer.(expiration := s.now + timer.interval))
            else timer.sequence in ResetLoop(s).freed
    decreases |s.batch|
  {
    hide Inv, AfterResetOne, Step, Enabled, Restart;
    ResetOneFacts(s, i);
    var t := Step(s, ResetOne);
    var addr, timer := s.batch[i].addr, s.heap[s.batch[i].addr];
    if i > 0 {
      ResetOutcome(t, i - 1);
    } else if timer.repeat && Id(addr, timer.sequence) !in s.cancelling {
      ResetLoopKeepsQueued(t, Id(addr, timer.sequence));
    } else {
      ResetLoopKeepsFreed(t, timer.sequence);
    }
  }

  lemma ResetOneFacts(s: State, i: nat)
    requires Inv(s) && s.phase.Resetting? && i < |s.batch|
    ensures Indexed(s) && InHand(s) && Enabled(s, ResetOne) && s.batch[i].addr in s.heap
    ensures var t := Step(s, ResetOne); var addr := s.batch[i].addr; var timer := s.heap[addr];
            && Inv(t) && t.phase.Resetting? && t.now == s.now && t.cancelling == s.cancelling
            && ResetLoop(s) == ResetLoop(t) && |t.batch| < |s.batch|
            && (i > 0 ==> i - 1 < |t.batch| && t.batch[i - 1] == s.batch[i] && addr in t.heap && t.heap[addr] == timer)
            && (i == 0 ==>
                  if timer.repeat && Id(addr, timer.sequence) !in s.cancelling
                  then addr in t.heap && t.heap[addr] == timer.(expiration := s.now + timer.interval)
                       && Id(addr, timer.sequence) in t.active
                  else timer.sequence in t.freed)
  {
    hide Indexed, InHand, Covered, Numbered, FreedOnce, Woken, RanOnce, AfterResetOne;
    BatchLives(s);
    StepKeeps(s, ResetOne);
    ResetOneKeeps(s);
    ResetOneHead(s);
    BatchApart(s, i);
  }

  lemma BatchApart(s: State, i: nat)
    requires InHand(s) && i < |s.batch|
    ensures i > 0 ==> s.batch[0].addr != s.batch[i].addr
  {
  }

  /** The end of the calls: reset may begin. */
  ghost function CallsOver(s: State): (t: State)
    requires Inv(s) && s.phase == Calling(|s.batch|)
    ensures Inv(t) && t.phase.Resetting? && t == s.(phase := Resetting, calling := false)
  {
    StepKeeps(s, EndCalls);
    Step(s, EndCalls)
  }

  /** The fate of each timer of a batch, however its callbacks re-enter the queue: unless it repeats and
      no callback of the batch cancels it, it is freed; otherwise it is queued again at now + interval. */
  lemma BatchFate(s: State, calls: seq<Event>, i: nat)
    requires Inv(s) && s.phase == Calling(0) && s.cancelling == {}
    requires LegalRun(s, calls) && Within(calls) && i < |s.batch|
    requires Run(s, calls).phase == Calling(|s.batch|) && Run(s, calls).batch == s.batch
    ensures s.batch[i].addr in s.heap
    ensures var t := ResetLoop(CallsOver(Run(s, calls)));
            var addr := s.batch[i].addr; var timer := s.heap[addr];
            if timer.repeat && Cancel(Id(addr, timer.sequence)) !in calls
            then Queued(t, addr, timer.(expiration := s.now + timer.interval))
            else timer.sequence in t.freed
  {
    hide Inv, Step, Within, Queued;
    BatchLives(s);
    RunsTheBatch(s, calls);
    BatchTimersStay(s, calls);
    CancellingExactly(s, calls, i);
    ResetOutcome(CallsOver(Run(s, calls)), i);
  }

  lemma {:induction false} BatchTimersStay(s: State, es: seq<Event>)
    requires Inv(s) && s.phase.Calling? && LegalRun(s, es) && Within(es)
    ensures forall i | 0 <= i < |s.batch| ::
              && s.batch[i].addr in s.heap && s.batch[i].addr in Run(s, es).heap
              && Run(s, es).heap[s.batch[i].addr] == s.heap[s.batch[i].addr]
    decreases |es|
  {
    hide Inv, Step, Enabled;
    BatchLives(s);
    if es != [] {
      WithinTail(es);
      StepFacts(s, es[0]);
      BatchTimersStay(Step(s, es[0]), es[1..]);
    }
  }

  // ---- handleRead whole ----

  lemma BeginFacts(s: State, now: int)
    requires Inv(s) && Enabled(s, Expire(now))
    ensures Indexed(s) && InHand(s) && Numbered(s)
    ensures var t := Step(s, Expire(now)); var due := Due(s.timers, now);
            && Inv(t)
            && t == s.(timers := s.timers - due, active := DropActive(s, now), cancelling := {}, calling := true,
                       wake := if s.wake.Some? && s.wake.value.deadline <= now then None else s.wake,
                       phase := Calling(0), now := now, batch := Ordered(due))
  {
    hide Covered, FreedOnce, Woken, RanOnce, Ordered, DropIds, Due;
    StepKeeps(s, Expire(now));
  }

  lemma {:induction false} RunSnoc(s: State, es: seq<Event>, e: Event)
    requires Inv(s) && LegalRun(s, es) && Enabled(Run(s, es), e)
    ensures Indexed(Run(s, es)) && InHand(Run(s, es))
    ensures LegalRun(s, es + [e]) && Run(s, es + [e]) == Step(Run(s, es), e)
    decreases |es|
  {
    hide Indexed, InHand, Covered, Numbered, FreedOnce, Woken, RanOnce, Step, Enabled;
    if es == [] {
      assert es + [e] == [e];
      StepKeeps(s, e);
      assert LegalRun(Step(s, e), [e][1..]);
      assert Run(Step(s, e), [e][1..]) == Step(s, e);
    } else {
      StepKeeps(s, es[0]);
      RunSnoc(Step(s, es[0]), es[1..], e);
      assert (es + [e])[1..] == es[1..] + [e] && (es + [e])[0] == es[0];
    }
  }

  /** reset whole: its loop, and the timerfd set again. */
  ghost function Settled(s: State, at: int): (t: State)
    requires Inv(s) && s.phase == Calling(|s.batch|)
    ensures Inv(t) && t.phase.Idle?
  {
    hide *;
    var t := ResetLoop(CallsOver(s));
    RearmKeeps(t, at);
    Step(t, Rearm(at))
  }

  lemma RearmKeeps(s: State, at: int)
    requires Inv(s) && s.phase.Resetting? && s.batch == []
    ensures Indexed(s) && InHand(s) && Enabled(s, Rearm(at))
    ensures Inv(Step(s, Rearm(at))) && Step(s, Rearm(at)).phase.Idle?
  {
    hide Indexed, InHand, Covered, Numbered, FreedOnce, Woken, RanOnce, Ordered, Least;
    StepKeeps(s, Rearm(at));
  }

  /** handleRead whole: the batch is taken out, every callback is called and may add and cancel, then reset. */
  ghost predicate HandledBy(s: State, now: int, calls: seq<Event>, at: int, t: State)
    requires Inv(s) && Enabled(s, Expire(now))
  {
    hide *;
    BeginFacts(s, now);
    var started := Step(s, Expire(now));
    && Inv(started) && LegalRun(started, calls) && Within(calls)
    && Run(started, calls).phase == Calling(|started.batch|) && Run(started, calls).batch == started.batch
    && t == Settled(Run(started, calls), at)
  }

  /** One of the first n scripts has e in it. */
  predicate Asked(scripts: seq<seq<Event>>, n: nat, e: Event) {
    exists i :: 0 <= i < |scripts| && i < n && e in scripts[i]
  }

  /** An add cannot be made at an address that is no object's or is in use when its turn comes. */
  ghost predicate Refused(s: State, calls: seq<Event>, e: Event)
    requires Inv(s)
  {
    e.Add? && (e.addr >= UINTPTR_MAX ||
               exists n: nat :: n <= |calls| && LegalRun(s, calls[..n]) && e.addr in Run(s, calls[..n]).heap)
  }

  /** The calls from s on are those of the first n scripts, and all of them but the adds refused. */
  ghost predicate Follows(s: State, scripts: seq<seq<Event>>, n: nat, calls: seq<Event>)
    requires Inv(s)
  {
    && (forall e | e in calls :: e.RunNext? || Asked(scripts, n, e))
    && (forall e | Asked(scripts, n, e) :: e in calls || Refused(s, calls, e))
  }

  /** The calls are those before and those of one script, and all of them but the adds refused. */
  ghost predicate Obeys(s: State, script: seq<Event>, before: seq<Event>, calls: seq<Event>)
    requires Inv(s)
  {
    && before <= calls
    && (forall e | e in calls :: e in before || e in script)
    && (forall e | e in script :: e in calls || Refused(s, calls, e))
  }

  lemma RefusedMore(s: State, before: seq<Event>, calls: seq<Event>, e: Event)
    requires Inv(s) && before <= calls && Refused(s, before, e)
    ensures Refused(s, calls, e)
  {
    if e.addr < UINTPTR_MAX {
      hide Inv;
      var n: nat :| n <= |before| && LegalRun(s, before[..n]) && e.addr in Run(s, before[..n]).heap;
      assert calls[..n] == before[..n];
    }
  }

  lemma FollowsMore(s: State, scripts: seq<seq<Event>>, n: nat, before: seq<Event>, calls: seq<Event>)
    requires Inv(s) && Follows(s, scripts, n, before)
    requires Obeys(s, if n < |scripts| then scripts[n] else [], before + [RunNext], calls)
    ensures Follows(s, scripts, n + 1, calls)
  {
    hide Inv;
    forall e ensures Asked(scripts, n + 1, e) <==> Asked(scripts, n, e) || (n < |scripts| && e in scripts[n]) {
    }
    hide Asked, Refused;
    forall e | e in before ensures e in calls {
      assert e in before + [RunNext];
    }
    forall e | Refused(s, before, e) ensures Refused(s, calls, e) {
      RefusedMore(s, before, calls, e);
    }
  }

  lemma ObeysMore(s: State, script: seq<Event>, j: nat, before: seq<Event>, now: seq<Event>, calls: seq<Event>)
    requires Inv(s) && j < |script| && Obeys(s, script[..j], before, now)
    requires calls == now + [script[j]] || (calls == now && Refused(s, now, script[j]))
    ensures Obeys(s, script[..j + 1], before, calls)
  {
    hide Inv, Refused;
    assert script[..j + 1] == script[..j] + [script[j]];
    forall e | Refused(s, now, e) ensures Refused(s, calls, e) {
      RefusedMore(s, now, calls, e);
    }
  }

  lemma RefusedNow(s: State, calls: seq<Event>, e: Event)
    requires Inv(s) && LegalRun(s, calls) && e.Add?
    requires e.addr in Run(s, calls).heap || e.addr >= UINTPTR_MAX
    ensures Refused(s, calls, e)
  {
    hide Inv;
    assert calls[..|calls|] == calls;
  }

  /** A batch from end to end: of the timers due, the repeating ones no callback cancelled are queued at
      now + interval, the others are freed. */
  lemma HandledFate(s: State, now: int, calls: seq<Event>, at: int, t: State, e: Entry)
    requires Inv(s) && Enabled(s, Expire(now)) && HandledBy(s, now, calls, at, t)
    requires e in s.timers && e.when <= now
    ensures e.addr in s.heap
    ensures var timer := s.heap[e.addr];
            if timer.repeat && Cancel(Id(e.addr, timer.sequence)) !in calls
            then Queued(t, e.addr, timer.(expiration := now + timer.interval))
            else timer.sequence in t.freed
  {
    hide Inv, Within, LegalRun, Run, Queued, Step, Settled, Enabled;
    var i := BatchIndex(s, now, e);
    var last := Run(Step(s, Expire(now)), calls);
    BatchFate(Step(s, Expire(now)), calls, i);
    SettledKeeps(last, at);
  }

  /** The same from the scripts of the callbacks alone: a repeating timer is queued again unless one of the
      callbacks of the batch asks to cancel it. */
  lemma ScriptedFate(s: State, now: int, scripts: seq<seq<Event>>, calls: seq<Event>, at: int, t: State, e: Entry)
    requires Inv(s) && Enabled(s, Expire(now)) && HandledBy(s, now, calls, at, t)
    requires (BeginFacts(s, now); Follows(Step(s, Expire(now)), scripts, |Due(s.timers, now)|, calls))
    requires e in s.timers && e.when <= now
    ensures e.addr in s.heap
    ensures var timer := s.heap[e.addr];
            if timer.repeat && !Asked(scripts, |Due(s.timers, now)|, Cancel(Id(e.addr, timer.sequence)))
            then Queued(t, e.addr, timer.(expiration := now + timer.interval))
            else timer.sequence in t.freed
  {
    hide Inv, Asked, HandledBy, Due, Queued, Enabled;
    HandledFate(s, now, calls, at, t, e);
  }

  /** A timer of a batch that does not repeat, or that some callback of its own batch cancels, never runs again. */
  lemma HandledNeverAgain(s: State, now: int, calls: seq<Event>, at: int, t: State, e: Entry, es: seq<Event>)
    requires Inv(s) && Enabled(s, Expire(now)) && HandledBy(s, now, calls, at, t)
    requires e in s.timers && e.when <= now && LegalRun(t, es)
    ensures e.addr in s.heap
    ensures var timer := s.heap[e.addr];
            !timer.repeat || Cancel(Id(e.addr, timer.sequence)) in calls ==>
              timer.sequence in Run(t, es).freed && Times(Run(t, es).ran, timer.sequence) == Times(t.ran, timer.sequence)
  {
    hide Inv, LegalRun, Run, Queued, Step, Settled, Enabled, Times, Within;
    HandledFate(s, now, calls, at, t, e);
    var q := s.heap[e.addr].sequence;
    if q in t.freed {
      FreedNeverRuns(t, es, q);
    }
  }

  // ---- handleRead as a run ----

  lemma {:induction false} RunAppend(s: State, a: seq<Event>, b: seq<Event>)
    requires Inv(s) && LegalRun(s, a) && LegalRun(Run(s, a), b)
    ensures LegalRun(s, a + b) && Run(s, a + b) == Run(Run(s, a), b)
    decreases |a|
  {
    hide Indexed, InHand, Covered, Numbered, FreedOnce, Woken, RanOnce, Step, Enabled;
    if a == [] {
      assert a + b == b;
    } else {
      StepKeeps(s, a[0]);
      RunAppend(Step(s, a[0]), a[1..], b);
      assert (a + b)[1..] == a[1..] + b && (a + b)[0] == a[0];
    }
  }

  lemma RunOne(s: State, e: Event)
    requires Inv(s) && Enabled(s, e)
    ensures Indexed(s) && InHand(s)
    ensures LegalRun(s, [e]) && Run(s, [e]) == Step(s, e)
  {
    hide Covered, Numbered, FreedOnce, Woken, RanOnce, Step, Enabled;
    StepKeeps(s, e);
    hide Indexed, InHand;
    assert [e][1..] == [];
    assert LegalRun(Step(s, e), []) && Run(Step(s, e), []) == Step(s, e);
  }

  function Resets(n: nat): (es: seq<Event>)
    ensures |es| == n
  {
    if n == 0 then [] else [ResetOne] + Resets(n - 1)
  }

  lemma {:induction false} ResetLoopIsRun(s: State)
    requires Inv(s) && s.phase.Resetting?
    ensures LegalRun(s, Resets(|s.batch|)) && Run(s, Resets(|s.batch|)) == ResetLoop(s)
    decreases |s.batch|
  {
    hide Inv, Step, Enabled;
    if s.batch != [] {
      ResetOneFacts(s, 0);
      ResetOneShrinks(s);
      ResetLoopIsRun(Step(s, ResetOne));
      assert Resets(|s.batch|)[1..] == Resets(|s.batch| - 1);
    }
  }

  lemma ResetOneShrinks(s: State)
    requires Inv(s) && s.phase.Resetting? && s.batch != []
    ensures Indexed(s) && InHand(s) && Enabled(s, ResetOne) && |Step(s, ResetOne).batch| == |s.batch| - 1
  {
    hide Covered, Numbered, FreedOnce, Woken, RanOnce, AfterResetOne;
    ResetOneKeeps(s);
  }

  /** The steps that handleRead is made of, given the calls of its callbacks. */
  function HandleEvents(now: int, calls: seq<Event>, n: nat, at: int): seq<Event> {
    [Expire(now)] + calls + [EndCalls] + Resets(n) + [Rearm(at)]
  }

  /** handleRead whole is a run of the machine, so all that is proved of runs holds across it. */
  lemma HandledIsRun(s: State, now: int, calls: seq<Event>, at: int, t: State)
    requires Inv(s) && Enabled(s, Expire(now)) && HandledBy(s, now, calls, at, t)
    ensures var es := HandleEvents(now, calls, |Step(s, Expire(now)).batch|, at);
            LegalRun(s, es) && Run(s, es) == t
  {
    hide Inv, Step, Enabled, LegalRun, Run, Within, Resets, ResetLoop;
    RunOne(s, Expire(now));
    var u := Step(s, Expire(now));
    RunAppend(s, [Expire(now)], calls);
    SettledIsRun(Run(u, calls), at);
    var rest := [EndCalls] + Resets(|u.batch|) + [Rearm(at)];
    RunAppend(s, [Expire(now)] + calls, rest);
    assert [Expire(now)] + calls + rest == HandleEvents(now, calls, |u.batch|, at);
  }

  lemma SettledIsRun(s: State, at: int)
    requires Inv(s) && s.phase == Calling(|s.batch|)
    ensures var es := [EndCalls] + Resets(|s.batch|) + [Rearm(at)];
            LegalRun(s, es) && Run(s, es) == Settled(s, at)
  {
    hide Inv, Step, LegalRun, Run, Resets, ResetLoop;
    CallsOverIs(s);
    RunOne(s, EndCalls);
    var t := CallsOver(s);
    ResetLoopIsRun(t);
    RunAppend(s, [EndCalls], Resets(|s.batch|));
    RunOne(ResetLoop(t), Rearm(at));
    RunAppend(s, [EndCalls] + Resets(|s.batch|), [Rearm(at)]);
  }

  lemma CallsOverIs(s: State)
    requires Inv(s) && s.phase == Calling(|s.batch|)
    ensures Indexed(s) && InHand(s) && Enabled(s, EndCalls) && CallsOver(s) == Step(s, EndCalls)
  {
  }

  lemma BatchIndex(s: State, now: int, e: Entry) returns (i: nat)
    requires Inv(s) && Enabled(s, Expire(now)) && e in s.timers && e.when <= now
    ensures Indexed(s) && InHand(s)
    ensures var t := Step(s, Expire(now));
            && i < |t.batch| && t.batch[i] == e
            && Inv(t) && t.phase == Calling(0) && t.cancelling == {} && t.now == now && t.heap == s.heap
  {
    hide Inv, Step;
    BeginFacts(s, now);
    BatchIsExact(s, now);
    var t := Step(s, Expire(now));
    assert e in t.batch;
    i :| 0 <= i < |t.batch| && t.batch[i] == e;
  }

  lemma SettledKeeps(s: State, at: int)
    requires Inv(s) && s.phase == Calling(|s.batch|)
    ensures var t := ResetLoop(CallsOver(s));
            && Settled(s, at).freed == t.freed
            && forall addr, timer | Queued(t, addr, timer) :: Queued(Settled(s, at), addr, timer)
  {
    hide Inv, Queued, Step;
    RearmKeepsTimers(ResetLoop(CallsOver(s)), at);
  }

  lemma RearmKeepsTimers(s: State, at: int)
    requires Inv(s) && s.phase.Resetting? && s.batch == []
    ensures Indexed(s) && InHand(s)
    ensures var t := Step(s, Rearm(at));
            && t.freed == s.freed
            && forall addr, timer | Queued(s, addr, timer) :: Queued(t, addr, timer)
  {
    hide Indexed, InHand, Covered, Numbered, FreedOnce, Woken, RanOnce, Ordered, Least;
  }
}
