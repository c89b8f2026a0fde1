/** The functor queue and the wake-up of netlib/net/EventLoop.cc, as threads interleave. */
module EventLoop {
  type Thread = nat
  type Functor = nat

  /** Where the loop thread is: outside loop(), at the test of _quit, in poll, dispatching events,
      about to take the pending functors, or running the ones it took. */
  datatype Phase = Outside | AtTest | InPoll | Dispatching | Taking | Running

  datatype State = State(
    phase: Phase,
    quit: bool,                // _quit
    calling: bool,             // _callPendingFunctors
    pending: seq<Functor>,     // _pendingFunctors
    batch: seq<Functor>,       // what dpPendingFunctors has taken and not yet run
    counter: nat,              // the eventfd
    wakeActive: bool,          // poll has reported the eventfd and handleRead is still to come
    loopOwes: bool,            // the loop thread has queued a functor and its wakeUp is still to come
    owing: set<Thread>,        // foreign threads between their queueing (or quit) and their wakeUp
    queued: seq<Functor>,      // history: everything queued, in lock order
    executed: seq<Functor>,    // history: everything run
    early: bool)               // a functor queued by the loop thread outside loop() is still pending

  const START := State(Outside, false, false, [], [], 0, false, false, {}, [], [], false)

  /** One atomic step of the loop thread or of a foreign thread t. */
  datatype Event =
    | ForeignPush(t: Thread, f: Functor)
    | ForeignQuit(t: Thread)
    | ForeignWake(t: Thread)
    | LoopPush(f: Functor)
    | LoopWake
    | LoopQuit
    | LoopStart
    | Test
    | PollReturns(readable: bool)
    | ReadWake
    | EndDispatch
    | TakePending
    | RunFunctor
    | EndBatch

  /** Callbacks run, and may queue or quit, outside loop(), while dispatching and inside functors. */
  predicate InUserCode(s: State) {
    (s.phase.Outside? || s.phase.Dispatching? || s.phase.Running?) && !s.loopOwes
  }

  predicate Enabled(s: State, e: Event) {
    match e
    case ForeignPush(t, _) => t !in s.owing
    case ForeignQuit(t) => t !in s.owing
    case ForeignWake(t) => t in s.owing
    case LoopPush(_) => InUserCode(s)
    case LoopQuit => InUserCode(s)
    case LoopWake => s.loopOwes
    case LoopStart => s.phase.Outside? && !s.loopOwes
    case Test => s.phase.AtTest?
    case PollReturns(readable) => s.phase.InPoll? && (readable ==> s.counter > 0)
    case ReadWake => s.phase.Dispatching? && s.wakeActive
    case EndDispatch => s.phase.Dispatching? && !s.wakeActive && !s.loopOwes
    case TakePending => s.phase.Taking?
    case RunFunctor => s.phase.Running? && !s.loopOwes && s.batch != []
    case EndBatch => s.phase.Running? && !s.loopOwes && s.batch == []
  }

  function Push(s: State, f: Functor): State {
    s.(pending := s.pending + [f], queued := s.queued + [f])
  }

  function Step(s: State, e: Event): State
    requires Enabled(s, e)
  {
    match e
    case ForeignPush(t, f) => Push(s, f).(owing := s.owing + {t})
    case ForeignQuit(t) => s.(quit := true, owing := s.owing + {t})
    case ForeignWake(t) => s.(counter := s.counter + 1, owing := s.owing - {t})
    case LoopPush(f) => Push(s, f).(loopOwes := s.calling, early := s.early || s.phase.Outside?)
    case LoopWake => s.(counter := s.counter + 1, loopOwes := false)
    case LoopQuit => s.(quit := true)
    case LoopStart => s.(phase := AtTest, quit := false)
    case Test => s.(phase := if s.quit then Outside else InPoll)
    case PollReturns(readable) => s.(phase := Dispatching, wakeActive := readable)
    case ReadWake => s.(counter := 0, wakeActive := false)
    case EndDispatch => s.(phase := Taking, calling := true)
    case TakePending => s.(phase := Running, batch := s.pending, pending := [], early := false)
    case RunFunctor => s.(batch := s.batch[1..], executed := s.executed + [s.batch[0]])
    case EndBatch => s.(phase := AtTest, calling := false)
  }

  predicate LegalRun(s: State, es: seq<Event>)
    decreases |es|
  {
    es == [] || (Enabled(s, es[0]) && LegalRun(Step(s, es[0]), es[1..]))
  }

  function Run(s: State, es: seq<Event>): State
    requires LegalRun(s, es)
    decreases |es|
  {
    if es == [] then s else Run(Step(s, es[0]), es[1..])
  }

  // ---- What every interleaving keeps ----

  /** Something will bring poll back: the eventfd is readable, or a wakeUp is still to come. */
  predicate WakeComing(s: State) {
    s.counter > 0 || s.owing != {} || s.loopOwes
  }

  predicate Inv(s: State) {
    && s.executed + s.batch + s.pending == s.queued
    && (s.batch != [] ==> s.phase.Running?)
    && (s.calling <==> s.phase.Taking? || s.phase.Running?)
    && (s.loopOwes ==> s.phase.Running?)
    && (!s.phase.Dispatching? && !s.phase.Taking? && s.pending != [] && !s.early ==> WakeComing(s))
    && (s.phase.InPoll? && s.quit ==> WakeComing(s))
    && (s.early ==> !s.phase.Running?)
  }

  lemma StepKeeps(s: State, e: Event)
    requires Inv(s) && Enabled(s, e)
    ensures Inv(Step(s, e))
  {
    match e
    case ForeignPush(_, f) => assert s.executed + s.batch + (s.pending + [f]) == s.queued + [f];
    case LoopPush(f) => assert s.executed + s.batch + (s.pending + [f]) == s.queued + [f];
    case TakePending => assert s.executed + s.pending + [] == s.executed + [] + s.pending;
    case RunFunctor =>
      assert s.executed + s.batch + s.pending == s.executed + [s.batch[0]] + s.batch[1..] + s.pending;
    case _ =>
  }

  /** Over every interleaving: executed, then the rest of the batch, then pending is always the queueing order. */
  lemma {:induction false} RunKeeps(s: State, es: seq<Event>)
    requires Inv(s) && LegalRun(s, es)
    ensures Inv(Run(s, es))
    decreases |es|
  {
    if es != [] {
      StepKeeps(s, es[0]);
      RunKeeps(Step(s, es[0]), es[1..]);
    }
  }

  /** No functor is queued by the loop thread while it is outside loop(). */
  predicate NoneEarly(s: State, es: seq<Event>)
    requires LegalRun(s, es)
    decreases |es|
  {
    es == [] || (!(es[0].LoopPush? && s.phase.Outside?) && NoneEarly(Step(s, es[0]), es[1..]))
  }

  lemma {:induction false} StaysNotEarly(s: State, es: seq<Event>)
    requires LegalRun(s, es) && NoneEarly(s, es) && !s.early
    ensures !Run(s, es).early
    decreases |es|
  {
    if es != [] {
      StaysNotEarly(Step(s, es[0]), es[1..]);
    }
  }

  /** No lost wake-up: when the loop sits in poll with functors pending, or told to quit, a wake-up is coming. */
  lemma NoLostWakeUp(es: seq<Event>)
    requires LegalRun(START, es)
    ensures var s := Run(START, es);
            && (s.phase.InPoll? && s.quit ==> s.counter > 0 || s.owing != {})
            && (s.phase.InPoll? && s.pending != [] && NoneEarly(START, es) ==> s.counter > 0 || s.owing != {})
  {
    hide Step, Enabled;
    RunKeeps(START, es);
    if NoneEarly(START, es) {
      StaysNotEarly(START, es);
    }
  }

  // ---- Before the first poll returns ----

  predicate IsForeign(e: Event) {
    e.ForeignPush? || e.ForeignQuit? || e.ForeignWake?
  }

  predicate AnyForeign(es: seq<Event>) {
    exists i :: 0 <= i < |es| && IsForeign(es[i])
  }

  predicate NoReturn(es: seq<Event>) {
    forall i | 0 <= i < |es| :: !es[i].PollReturns?
  }

  /** From outside loop() into its first poll a wake-up is coming exactly when one was coming before or
      another thread acts, whatever the loop thread queues on its way. */
  lemma {:induction false} FirstPollWakeIff(s: State, es: seq<Event>)
    requires Inv(s) && (s.phase.Outside? || s.phase.AtTest? || s.phase.InPoll?)
    requires LegalRun(s, es) && NoReturn(es)
    ensures WakeComing(Run(s, es)) <==> WakeComing(s) || AnyForeign(es)
    ensures s.pending <= Run(s, es).pending
    decreases |es|
  {
    if es != [] {
      var t := Step(s, es[0]);
      StepKeeps(s, es[0]);
      assert es[0].ForeignWake? ==> WakeComing(s);
      assert WakeComing(t) <==> WakeComing(s) || IsForeign(es[0]);
      assert t.phase.Outside? || t.phase.AtTest? || t.phase.InPoll?;
      assert s.pending <= t.pending;
      hide Inv, Step, Enabled, WakeComing, IsForeign;
      assert forall i | 0 <= i < |es[1..]| :: es[1..][i] == es[i + 1];
      FirstPollWakeIff(t, es[1..]);
      AnyForeignHead(es);
    }
  }

  lemma AnyForeignHead(es: seq<Event>)
    requires es != []
    ensures AnyForeign(es) <==> IsForeign(es[0]) || AnyForeign(es[1..])
  {
    hide IsForeign;
    if i :| 0 <= i < |es| && IsForeign(es[i]) {
      assert i > 0 ==> es[1..][i - 1] == es[i];
    }
    if i :| 0 <= i < |es[1..]| && IsForeign(es[1..][i]) {
      assert es[i + 1] == es[1..][i];
    }
  }

  /** A functor queued by the loop thread outside loop() sits in the first poll without a wake-up
      exactly when none was on its way and no other thread has acted since. */
  lemma EarlyFunctorIff(s: State, f: Functor, es: seq<Event>)
    requires Inv(s) && s.phase.Outside? && LegalRun(s, [LoopPush(f)] + es) && NoReturn(es)
    requires Run(s, [LoopPush(f)] + es).phase.InPoll?
    ensures f in Run(s, [LoopPush(f)] + es).pending
    ensures WakeComing(Run(s, [LoopPush(f)] + es)) <==> WakeComing(s) || AnyForeign(es)
  {
    var t := Step(s, LoopPush(f));
    assert ([LoopPush(f)] + es)[1..] == es;
    StepKeeps(s, LoopPush(f));
    FirstPollWakeIff(t, es);
    assert f == t.pending[|t.pending| - 1];
    assert WakeComing(t) <==> WakeComing(s);
  }

  /** Such runs exist: queue, start and test. */
  lemma EarlyFunctorWaits(s: State, f: Functor)
    requires Inv(s) && s.phase.Outside?
    ensures var es := [LoopPush(f), LoopStart, Test];
            && LegalRun(s, es) && Run(s, es).phase.InPoll? && f in Run(s, es).pending
            && (WakeComing(Run(s, es)) <==> WakeComing(s))
  {
    var es := [LoopPush(f), LoopStart, Test];
    var s1 := Step(s, es[0]);
    var s2 := Step(s1, es[1]);
    var s3 := Step(s2, es[2]);
    assert es[1..] == [LoopStart, Test] && es[1..][1..] == [Test] && es[1..][1..][1..] == [];
    assert LegalRun(s3, []) && LegalRun(s2, [Test]) && LegalRun(s1, [LoopStart, Test]);
    assert Run(s3, []) == s3 && Run(s2, [Test]) == s3 && Run(s1, [LoopStart, Test]) == s3;
    assert s3.pending[|s3.pending| - 1] == f;
  }

  lemma {:induction false} SplitRun(s: State, es: seq<Event>, i: nat)
    requires LegalRun(s, es) && i <= |es|
    ensures LegalRun(s, es[..i]) && LegalRun(Run(s, es[..i]), es[i..])
    ensures Run(Run(s, es[..i]), es[i..]) == Run(s, es)
    decreases i
  {
    hide Step, Enabled;
    if i == 0 {
      assert es[..0] == [] && es[0..] == es;
    } else {
      assert es[1..][..i - 1] == es[..i][1..] && es[1..][i - 1..] == es[i..];
      SplitRun(Step(s, es[0]), es[1..], i - 1);
    }
  }

  /** The i-th event of the run is the loop thread queueing a functor outside loop(), and poll has not returned since. */
  predicate EarlyAt(s: State, es: seq<Event>, i: nat)
    requires LegalRun(s, es) && i < |es|
  {
    SplitRun(s, es, i);
    es[i].LoopPush? && Run(s, es[..i]).phase.Outside? && NoReturn(es[i + 1..])
  }

  lemma LastStep(s: State, es: seq<Event>)
    requires LegalRun(s, es) && es != []
    ensures var n := |es| - 1;
            LegalRun(s, es[..n]) && Enabled(Run(s, es[..n]), es[n]) && Run(s, es) == Step(Run(s, es[..n]), es[n])
  {
    hide Step, Enabled;
    var n := |es| - 1;
    SplitRun(s, es, n);
    assert es[n..] == [es[n]] && [es[n]][1..] == [];
    assert LegalRun(Run(s, es[..n]), [es[n]]);
  }

  /** Until poll returns, an early functor was there before the step or came with it. */
  lemma EarlyBefore(s: State, e: Event)
    requires Inv(s) && Enabled(s, e) && Step(s, e).early
    requires var p := Step(s, e).phase; p.Outside? || p.AtTest? || p.InPoll?
    ensures (e.LoopPush? && s.phase.Outside?) ||
            (s.early && !e.PollReturns? && (s.phase.Outside? || s.phase.AtTest? || s.phase.InPoll?))
  {
  }

  lemma {:induction false} EarlyHistory(s: State, es: seq<Event>) returns (i: nat)
    requires Inv(s) && !s.early && LegalRun(s, es) && Run(s, es).early
    requires var p := Run(s, es).phase; p.Outside? || p.AtTest? || p.InPoll?
    ensures i < |es| && EarlyAt(s, es, i)
    decreases |es|
  {
    hide Inv, Step, Enabled;
    assert es != [];
    hide LegalRun, Run;
    var n := |es| - 1;
    LastStep(s, es);
    var r, e := Run(s, es[..n]), es[n];
    RunKeeps(s, es[..n]);
    EarlyBefore(r, e);
    SplitRun(s, es, n);
    if e.LoopPush? && r.phase.Outside? {
      i := n;
    } else {
      i := EarlyHistory(s, es[..n]);
      assert es[..n][..i] == es[..i];
      assert es[i + 1..] == es[..n][i + 1..] + [e];
    }
  }

  /** Over every run from the start: in poll with functors pending, no wake-up is coming exactly when the loop
      thread queued a functor outside loop() while none was coming, and since then poll has not returned
      and no other thread has acted. */
  lemma LostWakeUpIff(es: seq<Event>)
    requires LegalRun(START, es) && Run(START, es).phase.InPoll? && Run(START, es).pending != []
    ensures !WakeComing(Run(START, es)) <==>
            exists i: nat | i < |es| && EarlyAt(START, es, i) ::
              (SplitRun(START, es, i); !WakeComing(Run(START, es[..i]))) && !AnyForeign(es[i + 1..])
  {
    hide Step, Enabled, WakeComing, AnyForeign, NoReturn, LegalRun, Run;
    RunKeeps(START, es);
    forall i: nat | i < |es| && EarlyAt(START, es, i)
      ensures WakeComing(Run(START, es)) <==>
              (SplitRun(START, es, i); WakeComing(Run(START, es[..i]))) || AnyForeign(es[i + 1..])
    {
      EarlyDecides(START, es, i);
    }
    if !WakeComing(Run(START, es)) {
      assert Run(START, es).early by { PollNeedsWake(Run(START, es)); }
      var i := EarlyHistory(START, es);
    }
  }

  lemma PollNeedsWake(s: State)
    requires Inv(s) && s.phase.InPoll? && s.pending != [] && !WakeComing(s)
    ensures s.early
  {
  }

  lemma EarlyDecides(s: State, es: seq<Event>, i: nat)
    requires Inv(s) && LegalRun(s, es) && i < |es| && EarlyAt(s, es, i) && Run(s, es).phase.InPoll?
    ensures LegalRun(s, es[..i])
    ensures WakeComing(Run(s, es)) <==> WakeComing(Run(s, es[..i])) || AnyForeign(es[i + 1..])
  {
    hide Step, Enabled, WakeComing, AnyForeign, NoReturn, Inv;
    SplitRun(s, es, i);
    RunKeeps(s, es[..i]);
    var LoopPush(f) := es[i];
    assert es[i..] == [LoopPush(f)] + es[i + 1..];
    EarlyFunctorIff(Run(s, es[..i]), f, es[i + 1..]);
  }

  // ---- Quitting ----

  predicate NoStart(es: seq<Event>) {
    forall i | 0 <= i < |es| :: !es[i].LoopStart?
  }

  /** Some quit, from either side, is not followed by a start of the loop. */
  predicate QuitStands(es: seq<Event>) {
    exists i :: 0 <= i < |es| && (es[i].ForeignQuit? || es[i].LoopQuit?) && NoStart(es[i + 1..])
  }

  lemma QuitHead(es: seq<Event>)
    requires es != []
    ensures NoStart(es) <==> !es[0].LoopStart? && NoStart(es[1..])
    ensures QuitStands(es) <==> ((es[0].ForeignQuit? || es[0].LoopQuit?) && NoStart(es[1..])) || QuitStands(es[1..])
  {
    var tail := es[1..];
    assert forall i | 0 <= i < |tail| :: tail[i] == es[i + 1];
    assert NoStart(es) ==> NoStart(tail);
    if NoStart(tail) && !es[0].LoopStart? {
      forall i | 0 <= i < |es| ensures !es[i].LoopStart? {
        assert i > 0 ==> es[i] == tail[i - 1];
      }
    }
    hide NoStart;
    if i :| 0 <= i < |es| && (es[i].ForeignQuit? || es[i].LoopQuit?) && NoStart(es[i + 1..]) {
      if i > 0 {
        assert tail[i - 1] == es[i] && tail[i..] == es[i + 1..];
      }
    }
    if i :| 0 <= i < |tail| && (tail[i].ForeignQuit? || tail[i].LoopQuit?) && NoStart(tail[i + 1..]) {
      assert es[i + 1] == tail[i] && es[i + 2..] == tail[i + 1..];
    }
  }

  /** _quit is set exactly when it was and the loop has not started since, or a quit came after the last start. */
  lemma {:induction false} QuitIff(s: State, es: seq<Event>)
    requires LegalRun(s, es)
    ensures Run(s, es).quit <==> (s.quit && NoStart(es)) || QuitStands(es)
    decreases |es|
  {
    if es != [] {
      QuitHead(es);
      var t := Step(s, es[0]);
      assert t.quit <==> (s.quit && !es[0].LoopStart?) || es[0].ForeignQuit? || es[0].LoopQuit?;
      hide Step, Enabled, NoStart, QuitStands;
      QuitIff(t, es[1..]);
    }
  }

  /** The loop ends at its next test exactly when some quit came after it started: one that came before is forgotten. */
  lemma QuitHonouredIff(es: seq<Event>)
    requires LegalRun(START, es) && Run(START, es).phase.AtTest?
    ensures Step(Run(START, es), Test).phase.Outside? <==> QuitStands(es)
    ensures Step(Run(START, es), Test).phase.InPoll? <==> !QuitStands(es)
  {
    QuitIff(START, es);
  }

  /** Another thread quits the loop before loop() begins: the loop goes to poll all the same. */
  lemma QuitForgotten(t: Thread)
    ensures var es := [ForeignQuit(t), ForeignWake(t), LoopStart, Test];
            LegalRun(START, es) && Run(START, es).phase.InPoll? && !Run(START, es).quit
  {
    var es := [ForeignQuit(t), ForeignWake(t), LoopStart, Test];
    var s1 := Step(START, es[0]);
    var s2 := Step(s1, es[1]);
    var s3 := Step(s2, es[2]);
    var s4 := Step(s3, es[3]);
    assert es[1..] == [ForeignWake(t), LoopStart, Test] && es[1..][1..] == [LoopStart, Test];
    assert [LoopStart, Test][1..] == [Test] && [Test][1..] == [];
    assert LegalRun(s3, [Test]) && LegalRun(s2, [LoopStart, Test]) && LegalRun(s1, es[1..]);
    assert Run(s3, [Test]) == s4 && Run(s2, [LoopStart, Test]) == s4 && Run(s1, es[1..]) == s4;
  }

  predicate NoTake(es: seq<Event>) {
    forall i | 0 <= i < |es| :: !es[i].TakePending?
  }

  /** Functors queued after a batch was taken wait for the next one: until pending functors are taken again,
      only functors of this batch run, in order. */
  lemma {:induction false} BatchIsClosed(s: State, es: seq<Event>)
    requires LegalRun(s, es) && NoTake(es)
    ensures Run(s, es).executed + Run(s, es).batch == s.executed + s.batch
    decreases |es|
  {
    if es != [] {
      hide Step, Enabled;
      assert forall i | 0 <= i < |es[1..]| :: es[1..][i] == es[i + 1];
      StepKeepsBatch(s, es[0]);
      BatchIsClosed(Step(s, es[0]), es[1..]);
    }
  }

  lemma StepKeepsBatch(s: State, e: Event)
    requires Enabled(s, e) && !e.TakePending?
    ensures Step(s, e).executed + Step(s, e).batch == s.executed + s.batch
  {
    if e.RunFunctor? {
      assert s.executed + [s.batch[0]] + s.batch[1..] == s.executed + s.batch;
    }
  }

  /** Each functor runs once: when the loop tests _quit again, everything queued
      before the functors were taken has run, in queueing order and nothing else has. */
  lemma BatchCompletes(s: State, es: seq<Event>)
    requires Inv(s) && s.phase.Taking? && LegalRun(s, [TakePending] + es) && NoTake(es)
    requires Run(s, [TakePending] + es).phase.AtTest?
    ensures Run(s, [TakePending] + es).executed == s.queued
  {
    var t := Step(s, TakePending);
    assert ([TakePending] + es)[1..] == es;
    StepKeeps(s, TakePending);
    RunKeeps(t, es);
    BatchIsClosed(t, es);
    assert t.executed + t.batch == s.executed + s.batch + s.pending;
  }

  // ---- The eventfd ----

  function Wakes(es: seq<Event>): nat {
    if es == [] then 0 else (if es[0].ForeignWake? || es[0].LoopWake? then 1 else 0) + Wakes(es[1..])
  }

  predicate NoRead(es: seq<Event>) {
    forall i | 0 <= i < |es| :: !es[i].ReadWake?
  }

  lemma {:induction false} CounterSinceStart(s: State, es: seq<Event>)
    requires LegalRun(s, es) && NoRead(es)
    ensures Run(s, es).counter == s.counter + Wakes(es)
    decreases |es|
  {
    if es != [] {
      assert forall i | 0 <= i < |es[1..]| :: es[1..][i] == es[i + 1];
      CounterSinceStart(Step(s, es[0]), es[1..]);
    }
  }

  /** The eventfd holds the wake-ups written since it was last read: it is readable exactly when one came after. */
  lemma CounterIsWakes(s: State, es: seq<Event>)
    requires LegalRun(s, es)
    ensures NoRead(es) ==> Run(s, es).counter == s.counter + Wakes(es)
    ensures forall i | 0 <= i < |es| && es[i].ReadWake? && NoRead(es[i + 1..]) :: Run(s, es).counter == Wakes(es[i + 1..])
  {
    hide Enabled;
    if NoRead(es) {
      CounterSinceStart(s, es);
    }
    forall i | 0 <= i < |es| && es[i].ReadWake? && NoRead(es[i + 1..])
      ensures Run(s, es).counter == Wakes(es[i + 1..])
    {
      SplitRun(s, es, i);
      var r := Run(s, es[..i]);
      assert es[i..][1..] == es[i + 1..] && es[i..][0] == es[i];
      CounterSinceStart(Step(r, es[i]), es[i + 1..]);
    }
  }

  /** Past the dispatch of events, another one needs another return of poll. */
  lemma {:induction false} NoDispatchWithoutPoll(s: State, es: seq<Event>)
    requires LegalRun(s, es) && NoReturn(es) && !s.phase.Dispatching? && !s.phase.Taking?
    ensures !Run(s, es).phase.Dispatching? && !Run(s, es).phase.Taking?
    decreases |es|
  {
    if es != [] {
      assert forall i | 0 <= i < |es[1..]| :: es[1..][i] == es[i + 1];
      NoDispatchWithoutPoll(Step(s, es[0]), es[1..]);
    }
  }

  lemma {:induction false} DispatchReads(s: State, es: seq<Event>)
    requires LegalRun(s, es) && NoReturn(es) && (s.phase.Dispatching? || s.phase.Taking?)
    requires Run(s, es).phase.Taking?
    ensures !NoRead(es) <==> s.phase.Dispatching? && s.wakeActive
    decreases |es|
  {
    if es != [] {
      assert forall i | 0 <= i < |es[1..]| :: es[1..][i] == es[i + 1];
      var t := Step(s, es[0]);
      if t.phase.Dispatching? || t.phase.Taking? {
        DispatchReads(t, es[1..]);
        assert NoRead(es) <==> !es[0].ReadWake? && NoRead(es[1..]) by { NoReadHead(es); }
      } else {
        NoDispatchWithoutPoll(t, es[1..]);
      }
    }
  }

  lemma NoReadHead(es: seq<Event>)
    requires es != []
    ensures NoRead(es) <==> !es[0].ReadWake? && NoRead(es[1..])
  {
    assert forall i | 0 < i < |es| :: es[i] == es[1..][i - 1];
  }

  /** Before the pending functors are taken the eventfd has been read exactly when poll reported it. */
  lemma ReadExactlyWhenReported(s: State, readable: bool, es: seq<Event>)
    requires LegalRun(s, [PollReturns(readable)] + es) && NoReturn(es)
    requires Run(s, [PollReturns(readable)] + es).phase.Taking?
    ensures readable <==> exists i :: 0 <= i < |es| && es[i].ReadWake?
  {
    assert ([PollReturns(readable)] + es)[1..] == es;
    DispatchReads(Step(s, PollReturns(readable)), es);
  }

  // ---- Who still has to wake the loop ----

  predicate Indebts(e: Event, t: Thread) {
    (e.ForeignPush? || e.ForeignQuit?) && e.t == t
  }

  predicate Indebted(es: seq<Event>, t: Thread) {
    exists i :: 0 <= i < |es| && Indebts(es[i], t) && ForeignWake(t) !in es[i + 1..]
  }

  /** Thread t owes a wake-up exactly when it queued a functor or quit and has not written the eventfd since. */
  lemma {:induction false} OwingIff(s: State, es: seq<Event>, t: Thread)
    requires LegalRun(s, es)
    ensures t in Run(s, es).owing <==>
            (t in s.owing && ForeignWake(t) !in es) || Indebted(es, t)
    decreases |es|
  {
    if es != [] {
      var r := Step(s, es[0]);
      assert t in r.owing <==> Indebts(es[0], t) || (t in s.owing && es[0] != ForeignWake(t));
      hide Step, Enabled, Indebts, Indebted, LegalRun, Run;
      OwingIff(r, es[1..], t);
      IndebtedHead(es, t);
      assert es == [es[0]] + es[1..];
    }
  }

  lemma IndebtedHead(es: seq<Event>, t: Thread)
    requires es != []
    ensures Indebted(es, t) <==> (Indebts(es[0], t) && ForeignWake(t) !in es[1..]) || Indebted(es[1..], t)
  {
    hide Indebts;
    var tail := es[1..];
    if i :| 0 <= i < |es| && Indebts(es[i], t) && ForeignWake(t) !in es[i + 1..] {
      if i > 0 {
        assert tail[i - 1] == es[i] && tail[i..] == es[i + 1..];
      }
    }
    if i :| 0 <= i < |tail| && Indebts(tail[i], t) && ForeignWake(t) !in tail[i + 1..] {
      assert es[i + 1] == tail[i] && es[i + 2..] == tail[i + 1..];
    }
  }

  /** The loop thread owes one exactly from a queueing inside a functor to its wakeUp. */
  lemma LoopOwesIff(s: State, e: Event)
    requires Inv(s) && Enabled(s, e)
    ensures Step(s, e).loopOwes <==> (e.LoopPush? && s.phase.Running?) || (s.loopOwes && !e.LoopWake?)
  {
  }

  // ---- Progress ----

  function Count(es: seq<Event>): nat {
    if es == [] then 0 else (if es[0].RunFunctor? then 1 else 0) + Count(es[1..])
  }

  /** Every turn of the loop over the batch runs one functor, and nothing else runs any. */
  lemma {:induction false} EachTurnRunsOne(s: State, es: seq<Event>)
    requires LegalRun(s, es)
    ensures |Run(s, es).executed| == |s.executed| + Count(es)
    decreases |es|
  {
    if es != [] {
      EachTurnRunsOne(Step(s, es[0]), es[1..]);
    }
  }

  function Turns(n: nat): (es: seq<Event>)
    ensures |es| == n
  {
    if n == 0 then [] else [RunFunctor] + Turns(n - 1)
  }

  /** One undisturbed pass of the loop. */
  function Pass(readable: bool, n: nat): seq<Event> {
    [Test, PollReturns(readable)] + (if readable then [ReadWake] else []) + [EndDispatch, TakePending] +
    Turns(n) + [EndBatch]
  }

  lemma {:induction false} TurnsRunBatch(s: State)
    requires s.phase.Running? && !s.loopOwes
    ensures var es := Turns(|s.batch|) + [EndBatch];
            && LegalRun(s, es)
            && Run(s, es) == s.(batch := [], executed := s.executed + s.batch, phase := AtTest, calling := false)
    decreases |s.batch|
  {
    var es := Turns(|s.batch|) + [EndBatch];
    if s.batch == [] {
      assert es == [EndBatch] && es[1..] == [] && s.executed + s.batch == s.executed;
    } else {
      var t := Step(s, RunFunctor);
      TurnsRunBatch(t);
      assert es[0] == RunFunctor && es[1..] == Turns(|t.batch|) + [EndBatch];
      assert s.executed + s.batch == s.executed + [s.batch[0]] + s.batch[1..];
    }
  }

  lemma RunCons(s: State, e: Event, es: seq<Event>)
    requires Enabled(s, e) && LegalRun(Step(s, e), es)
    ensures LegalRun(s, [e] + es) && Run(s, [e] + es) == Run(Step(s, e), es)
  {
    assert ([e] + es)[1..] == es;
  }

  lemma TakeAndRun(s: State)
    requires s.phase.Dispatching? && !s.wakeActive && !s.loopOwes
    ensures var es := [EndDispatch] + ([TakePending] + (Turns(|s.pending|) + [EndBatch]));
            && LegalRun(s, es)
            && Run(s, es) == s.(pending := [], batch := [], executed := s.executed + s.pending,
                                phase := AtTest, calling := false, early := false)
  {
    var t := Step(s, EndDispatch);
    TurnsRunBatch(Step(t, TakePending));
    hide LegalRun, Run, Turns;
    RunCons(t, TakePending, Turns(|s.pending|) + [EndBatch]);
    RunCons(s, EndDispatch, [TakePending] + (Turns(|s.pending|) + [EndBatch]));
  }

  /** Undisturbed, the loop passes from test to test, reads the eventfd if poll reported it,
      and runs all that was pending. */
  lemma PassRunsPending(s: State, readable: bool)
    requires Inv(s) && s.phase.AtTest? && !s.quit && (readable ==> s.counter > 0)
    ensures LegalRun(s, Pass(readable, |s.pending|))
    ensures Run(s, Pass(readable, |s.pending|)) ==
            s.(pending := [], executed := s.executed + s.pending, counter := if readable then 0 else s.counter,
               wakeActive := false, early := false)
  {
    hide LegalRun, Run, Turns;
    var n := |s.pending|;
    var polled := Step(Step(s, Test), PollReturns(readable));
    var read := if readable then Step(polled, ReadWake) else polled;
    TakeAndRun(read);
    var tail := [EndDispatch] + ([TakePending] + (Turns(n) + [EndBatch]));
    var end := Run(read, tail);
    assert end == s.(pending := [], executed := s.executed + s.pending, counter := if readable then 0 else s.counter,
                     wakeActive := false, early := false);
    if readable {
      RunCons(polled, ReadWake, tail);
      tail := [ReadWake] + tail;
    }
    hide Inv, Step;
    PassIs(readable, n);
    RunCons(Step(s, Test), PollReturns(readable), tail);
    RunCons(s, Test, [PollReturns(readable)] + tail);
  }

  lemma PassIs(readable: bool, n: nat)
    ensures var tail := [EndDispatch] + ([TakePending] + (Turns(n) + [EndBatch]));
            Pass(readable, n) == [Test] + ([PollReturns(readable)] + (if readable then [ReadWake] + tail else tail))
  {
  }

  /** Other threads touch the queue, the flag, the eventfd and their own debts, and nothing else. */
  lemma ForeignTouchesOnly(s: State, e: Event)
    requires Enabled(s, e) && IsForeign(e)
    ensures var t := Step(s, e);
            && t == s.(quit := t.quit, pending := t.pending, queued := t.queued, counter := t.counter, owing := t.owing)
            && t.pending == s.pending + (if e.ForeignPush? then [e.f] else [])
  {
  }

  // ---- The object ----

  /** Every method is one atomic section of EventLoop.cc; phase, owing and the histories record who is where. */
  class Loop {
    var quit: bool
    var callPendingFunctors: bool
    var pendingFunctors: seq<Functor>
    var vec: seq<Functor>
    var counter: nat
    ghost var phase: Phase
    ghost var wakeActive: bool
    ghost var loopOwes: bool
    ghost var owing: set<Thread>
    ghost var queued: seq<Functor>
    ghost var executed: seq<Functor>
    ghost var early: bool

    ghost function Model(): State
      reads this
    {
      State(phase, quit, callPendingFunctors, pendingFunctors, vec, counter,
            wakeActive, loopOwes, owing, queued, executed, early)
    }

    constructor ()
      ensures Model() == START && Inv(Model())
    {
      quit, callPendingFunctors, pendingFunctors, vec, counter := false, false, [], [], 0;
      phase, wakeActive, loopOwes, owing := Outside, false, false, {};
      queued, executed, early := [], [], false;
    }

    /** queueInLoop up to its test: the locked push, and whether a wakeUp is due. */
    method QueueInLoop(f: Functor, inLoopThread: bool, ghost t: Thread) returns (mustWake: bool)
      requires Inv(Model()) && Enabled(Model(), if inLoopThread then LoopPush(f) else ForeignPush(t, f))
      modifies this
      ensures Inv(Model())
      ensures Model() == Step(old(Model()), if inLoopThread then LoopPush(f) else ForeignPush(t, f))
      ensures mustWake <==> if inLoopThread then loopOwes else t in owing
    {
      StepKeeps(Model(), if inLoopThread then LoopPush(f) else ForeignPush(t, f));
      pendingFunctors := pendingFunctors + [f];
      queued := queued + [f];
      mustWake := !inLoopThread || callPendingFunctors;
      if inLoopThread {
        loopOwes := mustWake;
        early := early || phase.Outside?;
      } else {
        owing := owing + {t};
      }
    }

    method Quit(inLoopThread: bool, ghost t: Thread) returns (mustWake: bool)
      requires Inv(Model()) && Enabled(Model(), if inLoopThread then LoopQuit else ForeignQuit(t))
      modifies this`quit, this`owing
      ensures Inv(Model()) && Model() == Step(old(Model()), if inLoopThread then LoopQuit else ForeignQuit(t))
      ensures mustWake == !inLoopThread
    {
      StepKeeps(Model(), if inLoopThread then LoopQuit else ForeignQuit(t));
      quit := true;
      mustWake := !inLoopThread;
      if !inLoopThread {
        owing := owing + {t};
      }
    }

    method WakeUp(inLoopThread: bool, ghost t: Thread)
      requires Inv(Model()) && Enabled(Model(), if inLoopThread then LoopWake else ForeignWake(t))
      modifies this`counter, this`owing, this`loopOwes
      ensures Inv(Model()) && Model() == Step(old(Model()), if inLoopThread then LoopWake else ForeignWake(t))
    {
      StepKeeps(Model(), if inLoopThread then LoopWake else ForeignWake(t));
      counter := counter + 1;
      if inLoopThread {
        loopOwes := false;
      } else {
        owing := owing - {t};
      }
    }

    method HandleRead()
      requires Inv(Model()) && Enabled(Model(), ReadWake)
      modifies this`counter, this`wakeActive
      ensures Inv(Model()) && Model() == Step(old(Model()), ReadWake)
    {
      StepKeeps(Model(), ReadWake);
      counter := 0;
      wakeActive := false;
    }

    /** loop() up to its first test of _quit. */
    method Start()
      requires Inv(Model()) && Enabled(Model(), LoopStart)
      modifies this`quit, this`phase
      ensures Inv(Model()) && Model() == Step(old(Model()), LoopStart)
    {
      StepKeeps(Model(), LoopStart);
      quit := false;
      phase := AtTest;
    }

    method TestQuit() returns (again: bool)
      requires Inv(Model()) && Enabled(Model(), Test)
      modifies this`phase
      ensures Inv(Model()) && Model() == Step(old(Model()), Test) && (again <==> phase.InPoll?)
    {
      StepKeeps(Model(), Test);
      again := !quit;
      phase := if again then InPoll else Outside;
    }

    ghost method Poll(readable: bool)
      requires Inv(Model()) && Enabled(Model(), PollReturns(readable))
      modifies this`phase, this`wakeActive
      ensures Inv(Model()) && Model() == Step(old(Model()), PollReturns(readable))
    {
      StepKeeps(Model(), PollReturns(readable));
      phase, wakeActive := Dispatching, readable;
    }

    /** dpPendingFunctors before its lock. */
    method BeginPending()
      requires Inv(Model()) && Enabled(Model(), EndDispatch)
      modifies this`callPendingFunctors, this`phase
      ensures Inv(Model()) && Model() == Step(old(Model()), EndDispatch)
    {
      StepKeeps(Model(), EndDispatch);
      callPendingFunctors := true;
      phase := Taking;
    }

    /** The locked swap. */
    method SwapPending()
      requires Inv(Model()) && Enabled(Model(), TakePending)
      modifies this`vec, this`pendingFunctors, this`phase, this`early
      ensures Inv(Model()) && Model() == Step(old(Model()), TakePending)
    {
      StepKeeps(Model(), TakePending);
      vec, pendingFunctors := pendingFunctors, vec;
      phase, early := Running, false;
    }

    method RunNext() returns (f: Functor)
      requires Inv(Model()) && Enabled(Model(), RunFunctor)
      modifies this`vec, this`executed
      ensures Inv(Model()) && Model() == Step(old(Model()), RunFunctor) && executed == old(executed) + [f]
    {
      StepKeeps(Model(), RunFunctor);
      f := vec[0];
      vec := vec[1..];
      executed := executed + [f];
    }

    method EndPending()
      requires Inv(Model()) && Enabled(Model(), EndBatch)
      modifies this`callPendingFunctors, this`phase
      ensures Inv(Model()) && Model() == Step(old(Model()), EndBatch)
    {
      StepKeeps(Model(), EndBatch);
      callPendingFunctors := false;
      phase := AtTest;
    }
  }
}
