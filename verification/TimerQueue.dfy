/** The timer queue of netlib/net/TimerQueue.cc and Timer.cc: two indexes over timers on a heap whose
    addresses are reused, with callbacks that add and cancel timers while a batch is being run. */
module TimerQueue {
  import opened Options

  /** No object lies at this address. */
  const UINTPTR_MAX := 0xFFFF_FFFF_FFFF_FFFF

  /** Intervals are whole microseconds; a positive interval shorter than one still repeats. */
  datatype Timer = Timer(expiration: int, interval: nat, repeat: bool, sequence: nat)

  datatype Entry = Entry(when: int, addr: nat)
  datatype Id = Id(addr: nat, sequence: nat)

  type Heap = map<nat, Timer>

  /** The timerfd: when it fires, and when it was set. */
  datatype Wake = Wake(deadline: int, at: int)

  /** Idle, inside handleRead with i callbacks begun, or inside reset. */
  datatype Phase = Idle | Calling(i: nat) | Resetting

  datatype State = State(
    heap: Heap,
    timers: set<Entry>,        // _timers
    active: set<Id>,           // _activeTimers
    cancelling: set<Id>,       // _canllingTimers
    calling: bool,             // _callingExpiredTimer
    index: nat,                // Timer::INDEX
    wake: Option<Wake>,        // the timerfd: armed, or fired and not yet read
    phase: Phase,
    now: int,                  // of the batch in hand
    batch: seq<Entry>,         // the expired timers in hand
    created: seq<bool>,        // history: whether the timer with sequence k + 1 repeats
    ran: seq<nat>,             // history: sequences of the timers run
    freed: seq<nat>)           // history: sequences of the timers deleted

  const START := State(map[], {}, {}, {}, false, 0, None, Idle, 0, [], [], [], [])

  // ---- The order of std::set<Entry> ----

  predicate Less(e: Entry, f: Entry) {
    e.when < f.when || (e.when == f.when && e.addr < f.addr)
  }

  predicate IsLeast(e: Entry, es: set<Entry>) {
    e in es && forall f | f in es :: !Less(f, e)
  }

  lemma {:induction false} LeastExists(es: set<Entry>)
    requires es != {}
    ensures exists e :: IsLeast(e, es)
  {
    var e :| e in es;
    var rest := es - {e};
    assert forall f | f in es :: f == e || f in rest;
    if rest == {} {
      assert IsLeast(e, es);
    } else {
      LeastExists(rest);
      var f :| IsLeast(f, rest);
      forall g | g in es ensures !Less(g, if Less(f, e) then f else e) {
        assert g == e || g in rest;
      }
      assert IsLeast(if Less(f, e) then f else e, es);
    }
  }

  ghost function Least(es: set<Entry>): (e: Entry)
    requires es != {}
    ensures IsLeast(e, es)
  {
    LeastExists(es);
    var e :| IsLeast(e, es);
    e
  }

  /** The entries of a set in iteration order. */
  ghost function Ordered(es: set<Entry>): seq<Entry>
    decreases |es|
  {
    if es == {} then [] else [Least(es)] + Ordered(es - {Least(es)})
  }

  predicate Ascending(es: seq<Entry>) {
    forall i, j | 0 <= i < j < |es| :: Less(es[i], es[j])
  }

  lemma {:induction false} OrderedIsOrdered(es: set<Entry>)
    ensures |Ordered(es)| == |es| && Ascending(Ordered(es))
    ensures forall e :: e in Ordered(es) <==> e in es
    decreases |es|
  {
    if es != {} {
      var least, rest := Least(es), es - {Least(es)};
      OrderedIsOrdered(rest);
      var tail := Ordered(rest);
      forall i, j | 0 <= i < j < |Ordered(es)| ensures Less(Ordered(es)[i], Ordered(es)[j]) {
        assert Ordered(es)[j] == tail[j - 1] && tail[j - 1] in tail;
        if i > 0 {
          assert Ordered(es)[i] == tail[i - 1];
        }
      }
    }
  }

  // ---- The steps ----

  function IdOf(heap: Heap, addr: nat): Id
    requires addr in heap
  {
    Id(addr, heap[addr].sequence)
  }

  /** Timer::restart. */
  function Restart(timer: Timer, now: int): Timer {
    timer.(expiration := if timer.repeat then now + timer.interval else 0)
  }

  /** resetTimerFd: never less than 100 microseconds ahead. */
  function Arm(s: State, when: int, at: int): State {
    var ahead := if when - at < 100 then 100 else when - at;
    s.(wake := Some(Wake(at + ahead, at)))
  }

  predicate EarlierThanAll(when: int, timers: set<Entry>) {
    forall e | e in timers :: when < e.when
  }

  function Insert(s: State, addr: nat): State
    requires addr in s.heap
  {
    s.(timers := s.timers + {Entry(s.heap[addr].expiration, addr)}, active := s.active + {IdOf(s.heap, addr)})
  }

  function Delete(s: State, addr: nat): State
    requires addr in s.heap
  {
    s.(heap := s.heap - {addr}, freed := s.freed + [s.heap[addr].sequence])
  }

  /** addTimer on the loop thread: a new Timer at an address the allocator chose, and its insertion. */
  function AfterAdd(s: State, addr: nat, when: int, interval: nat, repeat: bool, at: int): State {
    var timer := Timer(when, interval, repeat, s.index + 1);
    AfterInsert(s.(heap := s.heap[addr := timer], index := s.index + 1, created := s.created + [repeat]), addr, at)
  }

  /** addTimerInLoop: a timer that is due before all others sets the timerfd. */
  function AfterInsert(s: State, addr: nat, at: int): State
    requires addr in s.heap
  {
    var t, when := Insert(s, addr), s.heap[addr].expiration;
    if EarlierThanAll(when, s.timers) then Arm(t, when, at) else t
  }

  /** cancleInLoop. */
  function AfterCancel(s: State, id: Id): State
    requires id in s.active ==> id.addr in s.heap
  {
    if id in s.active then
      Delete(s.(timers := s.timers - {Entry(s.heap[id.addr].expiration, id.addr)}, active := s.active - {id}), id.addr)
    else if s.calling then s.(cancelling := s.cancelling + {id})
    else s
  }

  /** The entries before lower_bound((now, UINTPTR_MAX)). */
  function Due(timers: set<Entry>, now: int): set<Entry> {
    set e | e in timers && Less(e, Entry(now, UINTPTR_MAX))
  }

  /** Erasing the batch from _activeTimers one by one. */
  function DropIds(heap: Heap, active: set<Id>, batch: seq<Entry>): set<Id>
    requires forall i | 0 <= i < |batch| :: batch[i].addr in heap
  {
    if batch == [] then active
    else DropIds(heap, active - {IdOf(heap, batch[0].addr)}, batch[1..])
  }

  /** handleRead up to its loop: read the timerfd, take the expired timers out of both indexes. */
  ghost function AfterExpire(s: State, now: int): State
    requires forall e | e in s.timers :: e.addr in s.heap
  {
    var due := Due(s.timers, now);
    var batch := Ordered(due);
    OrderedIsOrdered(due);
    assert forall i | 0 <= i < |batch| :: batch[i] in batch;
    s.(timers := s.timers - due, active := DropIds(s.heap, s.active, batch), cancelling := {}, calling := true,
       wake := if s.wake.Some? && s.wake.value.deadline <= now then None else s.wake,
       phase := Calling(0), now := now, batch := batch)
  }

  /** One turn of the loop in reset: restart and requeue, or delete. */
  function AfterResetOne(s: State): State
    requires s.batch != [] && s.batch[0].addr in s.heap
  {
    var addr := s.batch[0].addr;
    var t := s.(batch := s.batch[1..]);
    if s.heap[addr].repeat && IdOf(s.heap, addr) !in s.cancelling
    then Insert(t.(heap := s.heap[addr := Restart(s.heap[addr], s.now)]), addr)
    else Delete(t, addr)
  }

  /** The end of reset: arm for the earliest timer if its expiration is a valid time. */
  ghost function AfterRearm(s: State, at: int): State {
    var t := s.(phase := Idle);
    if s.timers != {} && Least(s.timers).when > 0 then Arm(t, Least(s.timers).when, at) else t
  }

  datatype Event =
    | Add(addr: nat, when: int, interval: nat, repeat: bool, at: int)
    | Cancel(id: Id)
    | Expire(now: int)
    | RunNext
    | EndCalls
    | ResetOne
    | Rearm(at: int)

  /** Adds and cancels come from outside handleRead or from the callbacks of a batch, in any number and order.
      The allocator never returns an address in use; the clock is past 0. */
  predicate Enabled(s: State, e: Event) {
    match e
    case Add(addr, _, _, _, _) => !s.phase.Resetting? && addr !in s.heap && addr < UINTPTR_MAX
    case Cancel(_) => !s.phase.Resetting?
    case Expire(now) => s.phase.Idle? && now > 0
    case RunNext => s.phase.Calling? && s.phase.i < |s.batch|
    case EndCalls => s.phase.Calling? && s.phase.i == |s.batch|
    case ResetOne => s.phase.Resetting? && s.batch != []
    case Rearm(_) => s.phase.Resetting? && s.batch == []
  }

  // ---- The invariant ----

  /** Both indexes hold the same live timers, each under its current expiration. */
  ghost predicate Indexed(s: State) {
    && (forall e | e in s.timers ::
          e.addr in s.heap && s.heap[e.addr].expiration == e.when && IdOf(s.heap, e.addr) in s.active)
    && (forall id | id in s.active ::
          id.addr in s.heap && IdOf(s.heap, id.addr) == id && Entry(s.heap[id.addr].expiration, id.addr) in s.timers)
    && |s.timers| == |s.active|
  }

  /** The batch in hand is in order, live, and in neither index. */
  ghost predicate InHand(s: State) {
    && (s.phase.Idle? ==> s.batch == [])
    && (s.calling <==> s.phase.Calling?)
    && (s.phase.Calling? ==> s.phase.i <= |s.batch|)
    && Ascending(s.batch)
    && (forall i | 0 <= i < |s.batch| ::
          && s.batch[i].addr in s.heap && s.heap[s.batch[i].addr].expiration == s.batch[i].when
          && IdOf(s.heap, s.batch[i].addr) !in s.active)
    && (forall i, j | 0 <= i < j < |s.batch| :: s.batch[i].addr != s.batch[j].addr)
  }

  ghost predicate InBatch(batch: seq<Entry>, addr: nat) {
    exists i :: 0 <= i < |batch| && batch[i].addr == addr
  }

  /** Every allocated timer is in the queue or in the batch in hand. */
  ghost predicate Covered(s: State) {
    forall a | a in s.heap :: IdOf(s.heap, a) in s.active || InBatch(s.batch, a)
  }

  /** Sequences are unique and name the timers in the order of their creation. */
  ghost predicate Numbered(s: State) {
    && s.index == |s.created|
    && (forall a | a in s.heap ::
          && a < UINTPTR_MAX && 1 <= s.heap[a].sequence <= s.index
          && s.heap[a].repeat == s.created[s.heap[a].sequence - 1])
    && (forall a, b | a in s.heap && b in s.heap && a != b :: s.heap[a].sequence != s.heap[b].sequence)
  }

  ghost predicate Live(heap: Heap, q: nat) {
    exists a :: a in heap && heap[a].sequence == q
  }

  /** Every timer ever created is live or was freed, and freed once. */
  ghost predicate FreedOnce(s: State) {
    && (forall i, j | 0 <= i < j < |s.freed| :: s.freed[i] != s.freed[j])
    && (forall q | q in s.freed :: 1 <= q <= s.index && !Live(s.heap, q))
    && (forall q | 1 <= q <= s.index :: q in s.freed || Live(s.heap, q))
  }

  function Max(a: int, b: int): int {
    if a < b then b else a
  }

  /** A wake-up is armed, or has fired unread, no later than any timer needs it. */
  ghost predicate WakesInTime(s: State) {
    s.wake.Some? && forall e | e in s.timers :: s.wake.value.deadline <= Max(e.when, s.wake.value.at + 100)
  }

  ghost predicate Woken(s: State) {
    && (s.phase.Idle? && s.timers != {} ==> WakesInTime(s))
    && (!s.phase.Idle? ==> s.now > 0)
    && (!s.phase.Idle? && (exists e :: e in s.timers && e.when <= 0) ==> WakesInTime(s))
  }

  /** How many timers of the batch in hand have been run. */
  function Cursor(s: State): int {
    match s.phase
    case Idle => 0
    case Calling(i) => i
    case Resetting => |s.batch|
  }

  function Times(ran: seq<nat>, q: nat): nat {
    multiset(ran)[q]
  }

  /** One-shot timers run at most once, and not while they are queued. */
  ghost predicate RanOnce(s: State) {
    && s.index == |s.created|
    && (forall q | q in s.ran :: 1 <= q <= s.index)
    && (forall q | 1 <= q <= s.index && !s.created[q - 1] :: Times(s.ran, q) <= 1)
    && (forall a | a in s.heap && !s.heap[a].repeat && IdOf(s.heap, a) in s.active :: s.heap[a].sequence !in s.ran)
    && (forall i | 0 <= Cursor(s) <= i < |s.batch| && s.batch[i].addr in s.heap && !s.heap[s.batch[i].addr].repeat ::
          s.heap[s.batch[i].addr].sequence !in s.ran)
  }

  ghost predicate Inv(s: State) {
    Indexed(s) && InHand(s) && Covered(s) && Numbered(s) && FreedOnce(s) && Woken(s) && RanOnce(s)
  }

  ghost function Step(s: State, e: Event): State
    requires Indexed(s) && InHand(s) && Enabled(s, e)
  {
    match e
    case Add(addr, when, interval, repeat, at) => AfterAdd(s, addr, when, interval, repeat, at)
    case Cancel(id) => AfterCancel(s, id)
    case Expire(now) => AfterExpire(s, now)
    case RunNext =>
      s.(phase := Calling(s.phase.i + 1), ran := s.ran + [s.heap[s.batch[s.phase.i].addr].sequence])
    case EndCalls => s.(phase := Resetting, calling := false)
    case ResetOne => AfterResetOne(s)
    case Rearm(at) => AfterRearm(s, at)
  }

  // ---- The indexes ----

  /** No queued timer lies at addr. */
  ghost predicate NotQueued(s: State, addr: nat) {
    forall id | id in s.active :: id.addr != addr
  }

  lemma NotQueuedEntries(s: State, addr: nat)
    requires Indexed(s) && NotQueued(s, addr)
    ensures forall e | e in s.timers :: e.addr != addr
  {
  }

  lemma HeapOutsideIndexed(s: State, addr: nat, timer: Timer)
    requires Indexed(s) && NotQueued(s, addr)
    ensures Indexed(s.(heap := s.heap[addr := timer]))
  {
    NotQueuedEntries(s, addr);
  }

  lemma InsertIndexed(s: State, addr: nat, timer: Timer)
    requires Indexed(s) && NotQueued(s, addr)
    ensures Indexed(Insert(s.(heap := s.heap[addr := timer]), addr))
  {
    HeapOutsideIndexed(s, addr, timer);
    JoinIndexed(s.(heap := s.heap[addr := timer]), addr);
  }

  lemma JoinIndexed(s: State, addr: nat)
    requires Indexed(s) && NotQueued(s, addr) && addr in s.heap
    ensures Indexed(Insert(s, addr))
  {
    NotQueuedEntries(s, addr);
    assert Entry(s.heap[addr].expiration, addr) !in s.timers && IdOf(s.heap, addr) !in s.active;
  }

  lemma DeleteIndexed(s: State, addr: nat)
    requires Indexed(s) && NotQueued(s, addr) && addr in s.heap
    ensures Indexed(Delete(s, addr))
  {
    NotQueuedEntries(s, addr);
  }

  lemma UnqueueIndexed(s: State, id: Id)
    requires Indexed(s) && id in s.active
    ensures var t := s.(timers := s.timers - {Entry(s.heap[id.addr].expiration, id.addr)}, active := s.active - {id});
            Indexed(t) && NotQueued(t, id.addr)
  {
  }

  lemma BatchNotQueued(s: State, i: nat)
    requires Indexed(s) && InHand(s) && i < |s.batch|
    ensures NotQueued(s, s.batch[i].addr)
  {
  }

  /** What is left of the active set, and how many, when a batch of active timers is erased from it. */
  lemma {:induction false} DropIdsExact(heap: Heap, active: set<Id>, batch: seq<Entry>)
    requires forall i | 0 <= i < |batch| :: batch[i].addr in heap && IdOf(heap, batch[i].addr) in active
    requires forall i, j | 0 <= i < j < |batch| :: batch[i].addr != batch[j].addr
    ensures |DropIds(heap, active, batch)| == |active| - |batch|
    ensures forall id :: id in DropIds(heap, active, batch) <==>
              id in active && !exists i :: 0 <= i < |batch| && IdOf(heap, batch[i].addr) == id
  {
    if batch != [] {
      var first, rest := IdOf(heap, batch[0].addr), batch[1..];
      forall i | 0 <= i < |rest| ensures IdOf(heap, rest[i].addr) in active - {first} {
        assert rest[i] == batch[i + 1];
      }
      DropIdsExact(heap, active - {first}, rest);
      forall id ensures id in DropIds(heap, active, batch) <==>
          id in active && !exists i :: 0 <= i < |batch| && IdOf(heap, batch[i].addr) == id
      {
        if i :| 0 <= i < |batch| && IdOf(heap, batch[i].addr) == id {
          assert i > 0 ==> IdOf(heap, rest[i - 1].addr) == id;
        } else {
          assert forall i | 0 <= i < |rest| :: rest[i] == batch[i + 1];
        }
      }
    }
  }

  /** The batch is taken from the queue: live timers, one entry each. */
  lemma BatchFromQueue(s: State, now: int)
    requires Indexed(s)
    ensures var batch := Ordered(Due(s.timers, now));
            && Ascending(batch) && |batch| == |Due(s.timers, now)|
            && (forall e :: e in batch <==> e in Due(s.timers, now))
            && (forall i | 0 <= i < |batch| ::
                  && batch[i] in s.timers && batch[i].addr in s.heap && s.heap[batch[i].addr].expiration == batch[i].when
                  && IdOf(s.heap, batch[i].addr) in s.active)
            && (forall i, j | 0 <= i < j < |batch| :: batch[i].addr != batch[j].addr)
  {
    var batch := Ordered(Due(s.timers, now));
    OrderedIsOrdered(Due(s.timers, now));
    forall i | 0 <= i < |batch|
      ensures batch[i] in s.timers && batch[i].addr in s.heap && s.heap[batch[i].addr].expiration == batch[i].when
           && IdOf(s.heap, batch[i].addr) in s.active
    {
      assert batch[i] in batch;
    }
    forall i, j | 0 <= i < j < |batch| ensures batch[i].addr != batch[j].addr {
      assert Less(batch[i], batch[j]);
    }
  }

  /** An id leaves the active set exactly when its entry leaves the queue. */
  lemma ExpireActive(s: State, now: int)
    requires Indexed(s)
    ensures var due := Due(s.timers, now);
            var active := DropActive(s, now);
            && active <= s.active && |active| == |s.active| - |due|
            && (forall id | id in s.active ::
                  id in active <==> Entry(s.heap[id.addr].expiration, id.addr) !in due)
  {
    hide Ordered, DropIds;
    var batch := Ordered(Due(s.timers, now));
    BatchFromQueue(s, now);
    DropIdsExact(s.heap, s.active, batch);
    hide Due;
    forall id | id in s.active
      ensures id in DropActive(s, now) <==> Entry(s.heap[id.addr].expiration, id.addr) !in batch
    {
      var e := Entry(s.heap[id.addr].expiration, id.addr);
      assert e in batch ==> exists i :: 0 <= i < |batch| && batch[i] == e && IdOf(s.heap, batch[i].addr) == id;
    }
  }

  ghost function DropActive(s: State, now: int): set<Id>
    requires Indexed(s)
  {
    BatchFromQueue(s, now);
    DropIds(s.heap, s.active, Ordered(Due(s.timers, now)))
  }

  lemma ExpireIndexed(s: State, now: int)
    requires Indexed(s) && InHand(s) && Enabled(s, Expire(now))
    ensures Indexed(AfterExpire(s, now))
  {
    hide Ordered, DropIds;
    var due := Due(s.timers, now);
    ExpireActive(s, now);
    assert due <= s.timers;
    hide Due;
    assert |s.timers - due| == |s.timers| - |due|;
    assert AfterExpire(s, now).active == DropActive(s, now);
  }

  lemma ExpireInHand(s: State, now: int)
    requires Indexed(s) && InHand(s) && Enabled(s, Expire(now))
    ensures InHand(AfterExpire(s, now))
  {
    hide Ordered, DropIds;
    var batch := Ordered(Due(s.timers, now));
    BatchFromQueue(s, now);
    DropIdsExact(s.heap, s.active, batch);
    hide Due, Indexed;
  }

  lemma AddIndexed(s: State, addr: nat, when: int, interval: nat, repeat: bool, at: int)
    requires Indexed(s) && addr !in s.heap
    ensures Indexed(AfterAdd(s, addr, when, interval, repeat, at))
  {
    hide Indexed;
    var timer := Timer(when, interval, repeat, s.index + 1);
    AddNotQueued(s, addr);
    InsertIndexed(s, addr, timer);
    SameIndexed(Insert(s.(heap := s.heap[addr := timer]), addr), AfterAdd(s, addr, when, interval, repeat, at));
  }

  lemma CancelIndexed(s: State, id: Id)
    requires Indexed(s)
    ensures id in s.active ==> id.addr in s.heap
    ensures Indexed(AfterCancel(s, id))
  {
    if id in s.active {
      ActiveIsLive(s, id);
      UnqueueIndexed(s, id);
      hide Indexed;
      DeleteIndexed(s.(timers := s.timers - {Entry(s.heap[id.addr].expiration, id.addr)}, active := s.active - {id}), id.addr);
    } else {
      SameIndexed(s, AfterCancel(s, id));
    }
  }

  lemma ResetOneIndexed(s: State)
    requires Indexed(s) && InHand(s) && s.batch != []
    ensures Indexed(AfterResetOne(s))
  {
    BatchNotQueued(s, 0);
    var addr := s.batch[0].addr;
    var t := s.(batch := s.batch[1..]);
    hide Indexed;
    SameIndexed(s, t);
    assert NotQueued(t, addr);
    if s.heap[addr].repeat && IdOf(s.heap, addr) !in s.cancelling {
      InsertIndexed(t, addr, Restart(s.heap[addr], s.now));
    } else {
      DeleteIndexed(t, addr);
    }
  }

  lemma StepIndexed(s: State, e: Event)
    requires Indexed(s) && InHand(s) && Enabled(s, e)
    ensures Indexed(Step(s, e))
  {
    hide Indexed, InHand, AfterAdd, AfterCancel, AfterExpire, AfterResetOne;
    match e
    case Add(addr, when, interval, repeat, at) => AddIndexed(s, addr, when, interval, repeat, at);
    case Cancel(id) => CancelIndexed(s, id);
    case Expire(now) => ExpireIndexed(s, now);
    case ResetOne => ResetOneIndexed(s);
    case _ => SameIndexed(s, Step(s, e));
  }

  lemma SameIndexed(s: State, t: State)
    requires Indexed(s) && t.heap == s.heap && t.timers == s.timers && t.active == s.active
    ensures Indexed(t)
  {
  }

  lemma AddNotQueued(s: State, addr: nat)
    requires Indexed(s) && addr !in s.heap
    ensures NotQueued(s, addr)
  {
  }

  lemma ActiveIsLive(s: State, id: Id)
    requires Indexed(s) && id in s.active
    ensures id.addr in s.heap && IdOf(s.heap, id.addr) == id
    ensures Entry(s.heap[id.addr].expiration, id.addr) in s.timers
  {
  }

  // ---- The batch, the heap and the numbering ----

  lemma CancelMissesBatch(s: State, id: Id)
    requires Indexed(s) && InHand(s)
    ensures id in s.active ==> id.addr in s.heap && forall i | 0 <= i < |s.batch| :: s.batch[i].addr != id.addr
  {
    hide Indexed;
    if id in s.active {
      ActiveIsLive(s, id);
      forall i | 0 <= i < |s.batch| ensures s.batch[i].addr != id.addr {
        BatchNotQueued(s, i);
      }
    }
  }

  lemma StepInHand(s: State, e: Event)
    requires Indexed(s) && InHand(s) && Enabled(s, e)
    ensures InHand(Step(s, e))
  {
    hide DropIds, Due, Ordered, Restart, EarlierThanAll;
    match e
    case Cancel(id) =>
      CancelMissesBatch(s, id);
      hide Indexed;
    case Expire(now) => ExpireInHand(s, now);
    case ResetOne => ResetOneInHand(s);
    case _ => hide Indexed;
  }

  lemma ResetOneInHand(s: State)
    requires InHand(s) && s.phase.Resetting? && s.batch != []
    ensures InHand(AfterResetOne(s))
  {
    hide Restart;
    var t := AfterResetOne(s);
    assert forall i | 0 <= i < |t.batch| :: t.batch[i] == s.batch[i + 1] && s.batch[0].addr != s.batch[i + 1].addr;
  }

  lemma StepCovered(s: State, e: Event)
    requires Indexed(s) && InHand(s) && Covered(s) && Enabled(s, e)
    ensures Covered(Step(s, e))
  {
    hide DropIds, Due, Ordered, Restart, EarlierThanAll;
    match e
    case Expire(now) => ExpireCovered(s, now);
    case ResetOne => ResetOneCovered(s);
    case Add(addr, _, _, _, _) => hide Indexed, InBatch;
    case Cancel(_) => hide InBatch;
    case _ => hide Indexed, InBatch;
  }

  lemma ExpireCovered(s: State, now: int)
    requires Indexed(s) && InHand(s) && Covered(s) && s.phase.Idle?
    ensures Covered(AfterExpire(s, now))
  {
    hide DropIds, Ordered;
    var t := AfterExpire(s, now);
    BatchFromQueue(s, now);
    ExpireActive(s, now);
    hide Due;
    forall a | a in s.heap ensures IdOf(s.heap, a) in t.active || InBatch(t.batch, a) {
      assert !InBatch(s.batch, a) && IdOf(s.heap, a) in s.active;
      var e := Entry(s.heap[a].expiration, a);
      assert e in t.batch ==> exists i :: 0 <= i < |t.batch| && t.batch[i] == e;
      assert t.active == DropActive(s, now);
    }
  }

  lemma ResetOneCovered(s: State)
    requires InHand(s) && Covered(s) && s.batch != []
    ensures Covered(AfterResetOne(s))
  {
    hide Restart;
    var t := AfterResetOne(s);
    forall a | a in t.heap && a != s.batch[0].addr && InBatch(s.batch, a) ensures InBatch(t.batch, a) {
      var i :| 0 <= i < |s.batch| && s.batch[i].addr == a;
      assert t.batch[i - 1].addr == a;
    }
  }

  lemma LiveWithout(heap: Heap, addr: nat)
    requires addr in heap
    requires forall a | a in heap && a != addr :: heap[a].sequence != heap[addr].sequence
    ensures Live(heap, heap[addr].sequence) && !Live(heap - {addr}, heap[addr].sequence)
    ensures forall p | Live(heap, p) && p != heap[addr].sequence :: Live(heap - {addr}, p)
  {
    var h := heap - {addr};
    forall p | Live(heap, p) && p != heap[addr].sequence ensures Live(h, p) {
      var a :| a in heap && heap[a].sequence == p;
      assert a in h && h[a].sequence == p;
    }
  }

  lemma DeleteNumbered(s: State, addr: nat)
    requires Numbered(s) && FreedOnce(s) && addr in s.heap
    ensures Numbered(Delete(s, addr)) && FreedOnce(Delete(s, addr))
  {
    LiveWithout(s.heap, addr);
    LiveIn(s.heap - {addr}, s.heap);
    hide Live;
    assert 1 <= s.heap[addr].sequence <= s.index && s.heap[addr].sequence !in s.freed;
    assert Numbered(Delete(s, addr));
    hide Numbered;
  }

  lemma LiveIn(h: Heap, g: Heap)
    requires forall a | a in h :: a in g && g[a].sequence == h[a].sequence
    ensures forall p | Live(h, p) :: Live(g, p)
  {
    forall p | Live(h, p) ensures Live(g, p) {
      var a :| a in h && h[a].sequence == p;
      assert a in g && g[a].sequence == p;
    }
  }

  lemma RestartNumbered(s: State, addr: nat, timer: Timer)
    requires Numbered(s) && FreedOnce(s) && addr in s.heap
    requires timer.sequence == s.heap[addr].sequence && timer.repeat == s.heap[addr].repeat
    ensures var t := s.(heap := s.heap[addr := timer]); Numbered(t) && FreedOnce(t)
  {
    var t := s.(heap := s.heap[addr := timer]);
    LiveIn(s.heap, t.heap);
    LiveIn(t.heap, s.heap);
    hide Live;
  }

  lemma CreateNumbered(s: State, addr: nat, timer: Timer)
    requires Numbered(s) && FreedOnce(s) && addr !in s.heap && addr < UINTPTR_MAX
    requires timer.sequence == s.index + 1
    ensures var t := s.(heap := s.heap[addr := timer], index := s.index + 1, created := s.created + [timer.repeat]);
            Numbered(t) && FreedOnce(t)
  {
    var t := s.(heap := s.heap[addr := timer], index := s.index + 1, created := s.created + [timer.repeat]);
    LiveIn(s.heap, t.heap);
    LiveWithNew(s.heap, addr, timer);
    hide Live;
  }

  lemma LiveWithNew(heap: Heap, addr: nat, timer: Timer)
    requires addr !in heap
    ensures Live(heap[addr := timer], timer.sequence)
    ensures forall p | Live(heap[addr := timer], p) :: p == timer.sequence || Live(heap, p)
  {
    var h := heap[addr := timer];
    assert h[addr].sequence == timer.sequence;
    forall p | Live(h, p) && p != timer.sequence ensures Live(heap, p) {
      var a :| a in h && h[a].sequence == p;
      assert a in heap && heap[a].sequence == p;
    }
  }

  lemma SameNumbered(s: State, t: State)
    requires Numbered(s) && FreedOnce(s)
    requires t.heap == s.heap && t.index == s.index && t.created == s.created && t.freed == s.freed
    ensures Numbered(t) && FreedOnce(t)
  {
  }

  lemma AddNumbered(s: State, addr: nat, when: int, interval: nat, repeat: bool, at: int)
    requires Numbered(s) && FreedOnce(s) && addr !in s.heap && addr < UINTPTR_MAX
    ensures Numbered(AfterAdd(s, addr, when, interval, repeat, at))
    ensures FreedOnce(AfterAdd(s, addr, when, interval, repeat, at))
  {
    hide Numbered, FreedOnce, EarlierThanAll;
    var timer := Timer(when, interval, repeat, s.index + 1);
    CreateNumbered(s, addr, timer);
    SameNumbered(s.(heap := s.heap[addr := timer], index := s.index + 1, created := s.created + [repeat]),
                 AfterAdd(s, addr, when, interval, repeat, at));
  }

  lemma CancelNumbered(s: State, id: Id)
    requires Numbered(s) && FreedOnce(s) && (id in s.active ==> id.addr in s.heap)
    ensures Numbered(AfterCancel(s, id)) && FreedOnce(AfterCancel(s, id))
  {
    hide Numbered, FreedOnce;
    if id in s.active {
      DeleteNumbered(s, id.addr);
      SameNumbered(Delete(s, id.addr), AfterCancel(s, id));
    } else {
      SameNumbered(s, AfterCancel(s, id));
    }
  }

  lemma ResetOneNumbered(s: State)
    requires Numbered(s) && FreedOnce(s) && s.batch != [] && s.batch[0].addr in s.heap
    ensures Numbered(AfterResetOne(s)) && FreedOnce(AfterResetOne(s))
  {
    hide Numbered, FreedOnce;
    var addr := s.batch[0].addr;
    if s.heap[addr].repeat && IdOf(s.heap, addr) !in s.cancelling {
      var timer := Restart(s.heap[addr], s.now);
      RestartNumbered(s, addr, timer);
      SameNumbered(s.(heap := s.heap[addr := timer]), AfterResetOne(s));
    } else {
      DeleteNumbered(s, addr);
      SameNumbered(Delete(s, addr), AfterResetOne(s));
    }
  }

  lemma StepNumbered(s: State, e: Event)
    requires Indexed(s) && InHand(s) && Numbered(s) && FreedOnce(s) && Enabled(s, e)
    ensures Numbered(Step(s, e)) && FreedOnce(Step(s, e))
  {
    hide Numbered, FreedOnce, AfterAdd, AfterCancel, AfterResetOne, Ordered, Due, DropIds;
    match e
    case Add(addr, when, interval, repeat, at) => AddNumbered(s, addr, when, interval, repeat, at);
    case Cancel(id) => CancelNumbered(s, id);
    case ResetOne => ResetOneNumbered(s);
    case _ => SameNumbered(s, Step(s, e));
  }

  // ---- The wake-up ----

  lemma AddWoken(s: State, addr: nat, when: int, interval: nat, repeat: bool, at: int)
    requires Woken(s) && !s.phase.Resetting?
    ensures Woken(AfterAdd(s, addr, when, interval, repeat, at))
  {
    var t := AfterAdd(s, addr, when, interval, repeat, at);
    assert t.timers == s.timers + {Entry(when, addr)};
    if EarlierThanAll(when, s.timers) {
      assert WakesInTime(t);
    } else if WakesInTime(s) {
      assert WakesInTime(t);
    } else {
      var f :| f in s.timers && f.when <= when;
    }
  }

  lemma ExpireWoken(s: State, now: int)
    requires Indexed(s) && Numbered(s) && now > 0
    ensures Woken(AfterExpire(s, now))
  {
    hide Ordered, DropIds;
    forall e | e in s.timers && e !in Due(s.timers, now) ensures e.when > now {
      assert e.addr < UINTPTR_MAX;
    }
  }

  lemma RearmWoken(s: State, at: int)
    requires Woken(s) && s.phase.Resetting?
    ensures Woken(AfterRearm(s, at))
  {
    if s.timers != {} {
      var least := Least(s.timers);
      if least.when > 0 {
        assert WakesInTime(AfterRearm(s, at));
      }
    }
  }

  lemma StepWoken(s: State, e: Event)
    requires Indexed(s) && InHand(s) && Numbered(s) && Woken(s) && Enabled(s, e)
    ensures Woken(Step(s, e))
  {
    hide Indexed, InHand, Numbered, Ordered, DropIds, Due, AfterAdd, AfterExpire, AfterRearm, Least, Restart;
    match e
    case Add(addr, when, interval, repeat, at) => AddWoken(s, addr, when, interval, repeat, at);
    case Expire(now) => ExpireWoken(s, now);
    case Rearm(at) => RearmWoken(s, at);
    case ResetOne =>
      BatchIsLive(s, 0);
      ResetOneWoken(s);
    case _ =>
  }

  lemma BatchIsLive(s: State, i: nat)
    requires InHand(s) && i < |s.batch|
    ensures s.batch[i].addr in s.heap
  {
  }

  lemma ResetOneWoken(s: State)
    requires Woken(s) && s.phase.Resetting? && s.batch != [] && s.batch[0].addr in s.heap
    ensures Woken(AfterResetOne(s))
  {
    var t := AfterResetOne(s);
    assert forall e | e in t.timers :: e in s.timers || e.when == s.now + s.heap[s.batch[0].addr].interval;
  }

  // ---- What has been run ----

  lemma TimesAppend(ran: seq<nat>, p: nat, q: nat)
    ensures Times(ran + [p], q) == Times(ran, q) + if p == q then 1 else 0
    ensures q !in ran <==> Times(ran, q) == 0
  {
  }

  lemma RunNextRanOnce(s: State)
    requires Inv(s) && Enabled(s, RunNext)
    ensures RanOnce(Step(s, RunNext))
  {
    var t := Step(s, RunNext);
    var addr := s.batch[s.phase.i].addr;
    var p := s.heap[addr].sequence;
    hide Covered, FreedOnce, Woken, Times;
    forall q ensures Times(t.ran, q) == Times(s.ran, q) + if p == q then 1 else 0 {
      TimesAppend(s.ran, p, q);
    }
    TimesAppend(s.ran, p, p);
  }

  lemma StepRanOnce(s: State, e: Event)
    requires Inv(s) && Enabled(s, e)
    ensures RanOnce(Step(s, e))
  {
    hide Indexed, InHand, Covered, Numbered, FreedOnce, Woken, RanOnce, Times,
         AfterAdd, AfterCancel, AfterExpire, AfterResetOne, Least;
    match e
    case Add(addr, when, interval, repeat, at) => AddRanOnce(s, addr, when, interval, repeat, at);
    case Cancel(id) =>
      CancelIndexed(s, id);
      CancelRanOnce(s, id);
    case RunNext => RunNextRanOnce(s);
    case Expire(now) => ExpireRanOnce(s, now);
    case ResetOne =>
      BatchIsLive(s, 0);
      ResetOneRanOnce(s);
    case EndCalls => SameRanOnce(s, Step(s, e));
    case Rearm(_) => SameRanOnce(s, Step(s, e));
  }

  lemma SameRanOnce(s: State, t: State)
    requires RanOnce(s) && (s.batch == [] || 0 <= Cursor(s) <= Cursor(t))
    requires t.heap == s.heap && t.active == s.active && t.batch == s.batch
    requires t.index == s.index && t.created == s.created && t.ran == s.ran
    ensures RanOnce(t)
  {
    hide Times;
  }

  lemma AddRanOnce(s: State, addr: nat, when: int, interval: nat, repeat: bool, at: int)
    requires RanOnce(s) && addr !in s.heap
    ensures RanOnce(AfterAdd(s, addr, when, interval, repeat, at))
  {
    hide Times, EarlierThanAll;
    TimesAppend(s.ran, 0, s.index + 1);
  }

  lemma CancelRanOnce(s: State, id: Id)
    requires RanOnce(s) && (id in s.active ==> id.addr in s.heap)
    ensures RanOnce(AfterCancel(s, id))
  {
    hide Times;
  }

  lemma ExpireRanOnce(s: State, now: int)
    requires Inv(s) && Enabled(s, Expire(now))
    ensures RanOnce(AfterExpire(s, now))
  {
    hide Ordered, DropIds, Times, Covered, FreedOnce, Woken, Numbered;
    BatchFromQueue(s, now);
    ExpireActive(s, now);
    hide Due;
    assert AfterExpire(s, now).active == DropActive(s, now) <= s.active;
  }

  lemma ResetOneRanOnce(s: State)
    requires RanOnce(s) && s.phase.Resetting? && s.batch != [] && s.batch[0].addr in s.heap
    ensures RanOnce(AfterResetOne(s))
  {
    hide Times;
    assert Cursor(AfterResetOne(s)) == |AfterResetOne(s).batch|;
  }

  // ---- Every run ----

  lemma StepKeeps(s: State, e: Event)
    requires Inv(s) && Enabled(s, e)
    ensures Inv(Step(s, e))
  {
    hide Indexed, InHand, Covered, Numbered, FreedOnce, Woken, RanOnce, Enabled, Step;
    StepIndexed(s, e);
    StepInHand(s, e);
    StepCovered(s, e);
    StepNumbered(s, e);
    StepWoken(s, e);
    StepRanOnce(s, e);
  }

  ghost predicate LegalRun(s: State, es: seq<Event>)
    requires Inv(s)
    decreases |es|
  {
    es == [] || (Enabled(s, es[0]) && (StepKeeps(s, es[0]); LegalRun(Step(s, es[0]), es[1..])))
  }

  /** The state after any run. The invariant holds throughout, in the middle of re-entrant callbacks too. */
  ghost function Run(s: State, es: seq<Event>): (r: State)
    requires Inv(s) && LegalRun(s, es)
    ensures Inv(r)
    decreases |es|
  {
    if es == [] then s else (StepKeeps(s, es[0]); Run(Step(s, es[0]), es[1..]))
  }

  lemma StartKeeps()
    ensures Inv(START)
  {
  }
}
