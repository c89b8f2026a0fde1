# netlib, verified

netlib is a reactor network library: an event loop over epoll, timers on a timerfd, TCP connections with
output buffers, an asynchronous log, and calendar arithmetic for its time stamps. This project models the
parts of it that hold invariants and proves them in Dafny. `dafny verify dfyconfig.toml` checks everything.

How the models are built:

- A component whose code changes state step by step is a class with the fields of the original, and its
  methods follow the original's statements. Beside it stands a state datatype with one function per atomic
  step (`Step`), a predicate that says which steps may happen (`Enabled` or `Legal`), and `Run` over any
  sequence of steps. Every method's `ensures` gives its whole new state as a step of that machine; the
  lemmas speak about all runs of the machine.
- Ghost fields and the history components of the states (`ran`, `freed`, `wire`, `accepted`, `logged`,
  `rounds`, `executed`, `calls`) record what happened. They decide nothing.
- The system is a source of arbitrary results: what `write` and `readv` return, when poll returns, what the
  clock says, which address the allocator picks and which threads run are parameters or free choices of events.

| file | module | what it covers |
|---|---|---|
| TimerQueue.dfy | TimerQueue | timers on a heap with reused addresses, two indexes, re-entrant callbacks, the timerfd: steps and invariant |
| TimerRuns.dfy | TimerRuns | what runs of the timer queue do: wake-ups, batches, the fate of every timer |
| TimerObject.dfy | TimerObject | the class TimerQueue, whose methods are those steps |
| Date.dfy, CInt.dfy | Date, CInt | Julian day numbers and their inverse, with C++ division |
| TimeZone.dfy | TimeZone | UTC fields from an instant and back |
| Zone.dfy | Zone | binary search over transitions, local time and the repeated autumn hour |
| AsyncLogging.dfy | AsyncLogging | double buffering between appending threads and the back end |
| EventLoop.dfy | EventLoop | cross-thread functor queue, eventfd, the skipped wake-up |
| Buffer.dfy, BigEndian.dfy | Buffers, BigEndian | byte buffer: shift, growth, prepend, scatter read, typed integers |
| TcpConnection.dfy | Connection | direct writes, output buffer, write interest, deferred FIN |
| Epoller.dfy | Interest, Epoller | interest masks and the kernel's interest set |
| LogStream.dfy, Numerals.dfy | LogStream, Numerals | number formatting into a fixed buffer, inverted by a parser |
| Options.dfy | Options | optional values |

## What the proofs found

- `getYearMonthDay` yields a date exactly from day -32044 on; below, truncating division leaves a day of the
  month that is not positive (`Date.ValidDateIff`). A valid date survives the trip to its number and back
  exactly from -4800-03-01 on (`Date.DateRoundTripIff`).
- `tm_yday` is one too small throughout year -4800, whose first of January is outside the closed form's range
  (`TimeZone.YdayIff`). `tm_wday` is negative before day -1 unless the day is a Sunday (`TimeZone.WeekDayIff`).
- Local time round-trips for every instant of a zone exactly when every time clocks go back they go back one
  hour, from a daylight-saving type to another one, and no later transition disturbs the repeated hour
  (`Zone.ZoneRoundTripIff`; `Zone.RoundTripIff` has the condition for one instant). A zone that changes its
  standard offset backwards, or takes back half an hour, loses the first instant it repeats
  (`Zone.OtherDropLoses`, and `Zone.HalfHourIsLost` for one table). The local type in force before the first
  transition is always the first of the table.
- A functor that the loop thread queues before it enters `loop()` gets no wake-up: the loop's first poll can
  sit on it until something else happens (`EventLoop.EarlyFunctorWaits`). Over all runs, functors wait in poll
  with no wake-up coming exactly when such a functor was queued while none was on its way, poll has not
  returned since and no other thread has acted (`EventLoop.LostWakeUpIff`).
- A `quit` that comes before `loop()` starts is forgotten there, the one from another thread with its wake-up
  too (`EventLoop.QuitForgotten`). The loop ends at its next test exactly when some quit came after its last
  start (`EventLoop.QuitHonouredIff`).
- The log drops, without notice, a message that is not shorter than a whole buffer: this is exactly what
  separates the log from the messages given to it while no round exceeds 25 buffers
  (`AsyncLogging.StreamConserved`, `AsyncLogging.NothingMissingIff`).
- The constructor of the byte buffer ignores its size argument; all buffers start with 1032 bytes.
- Disabling all interest twice puts the descriptor back into the kernel's set with an empty mask
  (`Epoller.RepeatedDisableAll`). No epoll_ctl fails for it.
- Timers with an expiration that is not positive still get a wake-up: the queue needs a positive clock, not
  positive expirations (`TimerRuns.NeverAsleep`).

## Model

| member | source | states |
|---|---|---|
| TimerQueue.Run | netlib/net/TimerQueue.cc:103-207 | After any sequence of adds, cancels and batches, in the middle of re-entrant callbacks too: both indexes hold the same live timers under their current expirations, the batch in hand is live, in order and in neither index, every allocated timer is queued or in hand, sequences are unique, nothing is freed twice, one-shot timers ran at most once, a wake-up is armed in time |
| TimerQueue.StepIndexed | netlib/net/TimerQueue.cc:115-207 | Each step keeps `_timers` and `_activeTimers` indexing the same timers and of equal size, whatever address the allocator reuses |
| TimerQueue.StepKeeps | netlib/net/TimerQueue.cc:103-207 | Each step keeps the whole invariant |
| TimerQueue.StepInHand | netlib/net/TimerQueue.cc:134-183 | Each step keeps the timers of the batch in hand live, in order, under their current expirations and in neither index |
| TimerQueue.StepCovered | netlib/net/TimerQueue.cc:115-183 | No step leaks a timer: whatever is allocated is queued or in hand |
| TimerQueue.StepNumbered | netlib/net/Timer.cc:7-14 | Each step keeps sequences unique, and every sequence ever issued either live or freed, freed once and never live again |
| TimerQueue.StepRanOnce | netlib/net/TimerQueue.cc:134-183 | Each step keeps one-shot timers at one run at most, and none of them queued again after running |
| TimerQueue.StepWoken | netlib/net/TimerQueue.cc:103-148 | Each step keeps the wake-up guarantee, across cancels of the earliest timer and adds from callbacks |
| TimerRuns.NeverAsleep | netlib/net/TimerQueue.cc:16-27 | Outside handleRead a non-empty queue has a wake-up armed, or fired and unread, no later than max(earliest expiration, time of arming + 100 us) |
| TimerRuns.ArmedForEarliest | netlib/net/TimerQueue.cc:103-109 | Whenever the timerfd is set, its deadline is exactly max(earliest expiration in the queue, time of the call + 100 us) |
| TimerRuns.WakeExactly | netlib/net/TimerQueue.cc:16-27 | When the timerfd is set and for when: by an add before all queued timers and by a reset leaving only valid times; a batch clears it once it has fired; nothing else touches it |
| TimerRuns.QueuedIff | netlib/net/TimerQueue.cc:103-207 | What is queued after any step: what was, plus a new timer with the time, interval and next sequence it was added with, or a restarted one at now + interval, less a cancelled one or those due in a batch |
| TimerRuns.AddedIsQueued | netlib/net/TimerQueue.cc:97-107 | An added timer is queued under the time and interval asked for |
| TimerRuns.WaitsForItsTime | netlib/net/TimerQueue.cc:103-207 | Over any run that neither cancels it nor takes a batch it is due for, a queued timer stays queued unchanged |
| TimerRuns.NotedExactly | netlib/net/TimerQueue.cc:128-141 | An id is noted exactly by a cancel that finds nothing queued while callbacks are called, until the next batch |
| TimerQueue.OrderedIsOrdered | netlib/net/TimerQueue.cc:150-158 | Iterating a set of entries yields each exactly once, in (expiration, address) order |
| TimerQueue.DropIdsExact | netlib/net/TimerQueue.cc:160-165 | Erasing a batch from the active set takes out those ids and no others, one each |
| TimerRuns.BatchIsExact | netlib/net/TimerQueue.cc:150-169 | A batch is exactly the timers with expiration <= now, in (expiration, address) order; all that stay queued are due later |
| TimerRuns.RunsTheBatch | netlib/net/TimerQueue.cc:134-148 | However callbacks re-enter the queue, the timers run are those of the batch, in its order, once each |
| TimerRuns.BatchTimersStay | netlib/net/TimerQueue.cc:134-148 | Until reset, every timer of the batch stays allocated and unchanged: run() never reads a freed timer |
| TimerRuns.CancellingExactly | netlib/net/TimerQueue.cc:115-148 | An id of the batch is in the cancelling set exactly when some callback of this batch cancelled it |
| TimerRuns.ResetOutcome | netlib/net/TimerQueue.cc:171-192 | reset queues a repeating timer not being cancelled at now + interval, in both indexes, and frees every other timer of the batch |
| TimerRuns.BatchFate | netlib/net/TimerQueue.cc:134-192 | Over all re-entrant scripts: a timer of the batch is queued again at now + interval if it repeats and no callback of the batch cancelled it, and is freed otherwise |
| TimerRuns.HandledFate | netlib/net/TimerQueue.cc:134-192 | The same from handleRead's entry to its return: every timer due by now is requeued or freed, by that rule |
| TimerRuns.ScriptedFate | netlib/net/TimerQueue.cc:134-192 | The same from the callbacks' scripts alone: a due timer is requeued exactly if it repeats and no callback of the batch asks to cancel it, and freed otherwise |
| TimerRuns.HandledNeverAgain | netlib/net/TimerQueue.cc:115-192 | A due timer that does not repeat, or that any callback of its own batch cancels, is never run again, over any run that follows handleRead |
| TimerRuns.HandledIsRun | netlib/net/TimerQueue.cc:134-192 | handleRead whole, reset loop included, is a run of the machine, so every statement about runs reaches across it |
| TimerRuns.StepAfterFree | netlib/net/TimerQueue.cc:115-183 | No step runs a freed sequence or takes it back |
| TimerRuns.FreedNeverRuns | netlib/net/TimerQueue.cc:115-183 | Once freed, a timer stays freed and is never run again, over any run |
| TimerRuns.CancelledNeverRuns | netlib/net/TimerQueue.cc:115-132 | A timer cancelled while queued is freed and never runs again, whatever follows |
| TimerRuns.EveryRunAccounts | netlib/net/TimerQueue.cc:103-183 | After any run each timer ever created is freed once, queued, or in hand; a one-shot timer ran at most once |
| TimerRuns.StaleCancelHarmless | netlib/net/TimerQueue.cc:115-132 | Cancelling the id of a freed timer, whoever lives at its address by now: no live timer carries the id, and every run goes on as it would have without the cancel, but for the cancelling set |
| TimerObject.TimerQueue.AddTimer | netlib/net/TimerQueue.cc:97-109 | On the loop thread: the Add step, its id returned and active; with QueuedIff and WakeExactly that is a timer of the time and interval asked for, the next sequence, and the timerfd set when it is the earliest |
| TimerObject.TimerQueue.AddTimerInLoop | netlib/net/TimerQueue.cc:103-109 | Insertion, and the timerfd set exactly when the timer is due before all others |
| TimerObject.TimerQueue.InsertTimer | netlib/net/TimerQueue.cc:194-207 | One entry into each index; reports whether it precedes every queued timer |
| TimerObject.TimerQueue.ResetTimerFd | netlib/net/TimerQueue.cc:16-27 | The timerfd armed for the expiration, never less than 100 us ahead |
| TimerObject.TimerQueue.CancelInLoop | netlib/net/TimerQueue.cc:115-132 | Frees and unlinks a queued timer, notes others while callbacks run; sizes agree before and after |
| TimerObject.TimerQueue.GetExpired | netlib/net/TimerQueue.cc:150-169 | Returns the due entries in order, leaves exactly the later ones in both indexes; every assert holds |
| TimerObject.TimerQueue.EraseActive | netlib/net/TimerQueue.cc:160-165 | Each erase finds its timer (the `n == 1` assert) |
| TimerObject.TimerQueue.BeginRead | netlib/net/TimerQueue.cc:134-141 | handleRead up to its loop keeps the invariant and takes out the batch |
| TimerObject.TimerQueue.RunTimer | netlib/net/TimerQueue.cc:142-144 | Running the i-th expired timer reads a live timer |
| TimerObject.TimerQueue.ResetOneTimer | netlib/net/Timer.cc:16-23 | One turn of reset: restart at now + interval and requeue, or delete |
| TimerObject.TimerQueue.Reset | netlib/net/TimerQueue.cc:171-192 | reset whole ends idle with the invariant intact, and re-arms for the earliest timer |
| TimerObject.TimerQueue.RunScript | netlib/net/TimerQueue.cc:142-144 | Any finite script of adds and cancels from a callback is a legal run: all of it is made but adds at an address in use at their turn, and nothing it does not ask for |
| TimerObject.TimerQueue.RunCallBack | netlib/net/TimerQueue.cc:142-144 | One callback of the batch, with its re-entrant calls, is a legal run |
| TimerObject.TimerQueue.HandleRead | netlib/net/TimerQueue.cc:134-148 | handleRead whole, for arbitrary callback scripts: it is the batch, a legal run of calls, and reset; the calls are those scripted for the batch, all but the adds refused, and no others, so with ScriptedFate it fixes what becomes of each due timer |
| TimerObject.TimerQueue.Destroy | netlib/net/TimerQueue.cc:85-94 | After the destructor the heap is empty and every timer ever created was freed exactly once |
| Date.NumberRoundTrip | netlib/base/Date.cc:11-31 | Every number from -32044 on maps to a valid date that maps back to it |
| Date.ValidDateIff | netlib/base/Date.cc:19-31 | getYearMonthDay yields a valid date exactly from -32044 on |
| Date.DateRoundTripIff | netlib/base/Date.cc:11-31 | A valid date maps to its number and back exactly from -4800-03-01 on |
| Date.NextDayIsNextNumber | netlib/base/Date.cc:11-17 | The next calendar day under the 4/100/400 rule has the next number, across month and year ends |
| Date.NumberMonotone | netlib/base/Date.cc:11-17 | Numbers order dates as (year, month, day) does, both ways |
| Date.ClosedFormsCountDays | netlib/base/Date.cc:11-31 | Both closed forms agree with counting days one by one from -4800-03-01 |
| TimeZone.UtcParts | netlib/base/TimeZone.cc:279-298 | Truncating division with its correction rounds toward the past: right day, hour 0-23, minute and second 0-59, for negative instants too |
| TimeZone.UtcRoundTrip | netlib/base/TimeZone.cc:279-318 | fromUtcTime(toUtcTime(t)) == t for every t whose day is in range |
| TimeZone.UtcFieldsValidIff | netlib/base/TimeZone.cc:69-74 | The fields are a valid date and clock exactly when the day is in range |
| TimeZone.FieldsRoundTrip | netlib/base/TimeZone.cc:279-318 | toUtcTime(fromUtcTime(fields)) gives back every valid set of fields from -4800-03-01 on |
| TimeZone.UtcMonotone | netlib/base/TimeZone.cc:279-306 | Later instants have lexicographically later fields, and the other way round |
| TimeZone.YdayIff | netlib/base/TimeZone.cc:300-303 | tm_yday is within 0-365, equals the months added up exactly from year -4799 on, and is one less throughout year -4800 |
| TimeZone.WeekDayIff | netlib/base/Date.h:61-64 | The weekday is in 0-6, and the true one, exactly where the remainder is not negative |
| TimeZone.WeekDayCycles | netlib/base/Date.h:61-64 | The weekday advances by one a day from day -1 on; 1970-01-01 is a Thursday |
| TimeZone.UtcWdayIff | netlib/base/TimeZone.cc:279-305 | tm_wday is the days since 1970 counted on from Thursday exactly where the remainder is not negative; tm_yday stays 0 when not asked for, tm_isdst and tm_gmtoff always |
| Zone.LowerBound | netlib/base/TimeZone.cc:193-196 | Binary search finds the first transition not below the key |
| Zone.FindLocalTime | netlib/base/TimeZone.cc:186-210 | Finds the type of the last transition at or before the key, as a linear scan does; the `transI != begin` assert holds |
| Zone.ToLocalTime | netlib/base/TimeZone.cc:233-253 | The fields of the instant under the type in force |
| Zone.FromLocalTime | netlib/base/TimeZone.cc:255-277 | The instant, one hour earlier for a first pass of daylight-saving fields |
| Zone.LocalFieldsBetween | netlib/base/TimeZone.cc:186-253 | Between two transitions, and before the first, every field is UTC's shifted by the offset of the type in force (the first of the table before any), tm_gmtoff and tm_isdst included; fields less tm_gmtoff give the instant back |
| Zone.SkippedFields | netlib/base/TimeZone.cc:255-277 | Standard-time fields that the clocks jump over name the instant read with the offset before the jump |
| Zone.LocalSegment | netlib/base/TimeZone.cc:255-263 | Outside a first pass the local time is looked up in the instant's own segment |
| Zone.RoundTripIff | netlib/base/TimeZone.cc:233-277 | In any table: fromLocalTime(toLocalTime(t)) == t exactly when the local time is looked up under t's own offset, or one an hour less with t on daylight-saving time and the zone off it and showing the same minute an hour later |
| Zone.ZoneRoundTripIff | netlib/base/TimeZone.cc:233-277 | In any table: all instants round-trip exactly when every step back is one hour from a daylight-saving type to another, and each second of the repeated hour is looked up under the new offset and shown off daylight-saving time |
| Zone.ClearRoundTripIff | netlib/base/TimeZone.cc:233-277 | With no transition inside a repeated autumn hour: all instants round-trip exactly when every step back is such an hour |
| Zone.OtherDropLoses | netlib/base/TimeZone.cc:255-277 | Any other step back loses the first instant it repeats |
| Zone.HalfHourIsLost | netlib/base/TimeZone.cc:255-277 | One table and instant for which the round trip fails |
| Zone.HourApartRoundTrip | netlib/base/TimeZone.cc:186-277 | Transitions over 3600 s apart in both clocks with only such steps back: every instant round-trips, both passes included |
| AsyncLogging.StepSupplied | netlib/base/AsyncLogging.cc:51-135 | Every assert on buffers: two empty spares at the top of each round, pop_back never meets an empty batch, `_currentBuffer` never missing, `_nextBuffer` empty only with `_buffers` filled |
| AsyncLogging.StepOwners | netlib/base/AsyncLogging.cc:55-134 | No move hands a buffer to a second owner; only an append brings one in, and a fresh one |
| AsyncLogging.StepDistinct | netlib/base/AsyncLogging.cc:55-134 | All owned buffers are distinct objects after each step |
| AsyncLogging.AppendAccounted | netlib/base/AsyncLogging.cc:48-67 | An append puts the whole message behind all others, or drops it if it is not shorter than a buffer |
| AsyncLogging.SwapAccounted | netlib/base/AsyncLogging.cc:86-98 | The exchange moves every message waiting into the round, in order |
| AsyncLogging.BackEndAccounted | netlib/base/AsyncLogging.cc:102-135 | Dropping, writing and recycling write exactly what the round keeps |
| AsyncLogging.StepKeeps | netlib/base/AsyncLogging.cc:48-135 | Each step keeps supply, distinctness and the account of messages |
| AsyncLogging.Run | netlib/base/AsyncLogging.cc:48-135 | The same after every interleaving of appends and back-end steps |
| AsyncLogging.StreamConserved | netlib/base/AsyncLogging.cc:48-135 | With no round over 25 buffers: bytes written, batch in hand, `_buffers`, `_currentBuffer` concatenate to all messages shorter than a buffer, in lock order; the invariant adds that no message is split between buffers |
| AsyncLogging.EveryRunConserves | netlib/base/AsyncLogging.cc:48-135 | The same from the start over every interleaving |
| AsyncLogging.NothingMissingIff | netlib/base/AsyncLogging.cc:48-67 | With no round over 25 buffers nothing is missing exactly when every message was shorter than a buffer |
| AsyncLogging.AppendOutcome | netlib/base/AsyncLogging.cc:51-66 | A message goes into the current buffer exactly if it leaves a byte free there; if not the buffer is retired and the message starts the reserve, a buffer being allocated exactly when there is none |
| AsyncLogging.FillsBeforeRetiring | netlib/base/AsyncLogging.cc:51-53 | Over any appends that fit the current buffer together no buffer is retired or allocated |
| AsyncLogging.RunPacks | netlib/base/AsyncLogging.cc:51-66 | Over every run with messages shorter than a buffer, each buffer of a round was retired by a message it had no room for, with which the next one starts |
| AsyncLogging.RoundsHoldText | netlib/base/AsyncLogging.cc:51-102 | So a round of n buffers holds n/2 buffers of text, and one of more than 25 at least 52 million characters |
| AsyncLogging.SwapOutcome | netlib/base/AsyncLogging.cc:92-97 | The exchange takes everything filled; a reserve that is there is kept, a missing one replaced |
| AsyncLogging.RecycleOutcome | netlib/base/AsyncLogging.cc:116-132 | The spares missing are the first buffers of the batch, emptied |
| AsyncLogging.RoundWrites | netlib/base/AsyncLogging.cc:100-135 | From the exchange to the end of its round, however appends interleave: the output gains the notice, if any, and the buffers the round keeps |
| AsyncLogging.OverfullRound | netlib/base/AsyncLogging.cc:102-114 | Over such a round of more than 25 buffers the output gains the notice with its count and exactly the first two buffers |
| AsyncLogging.AsyncLogging.Append | netlib/base/AsyncLogging.cc:48-67 | The locked append is that step, for which AppendOutcome says when a buffer is retired, and keeps the invariant |
| AsyncLogging.AsyncLogging.SwapBuffers | netlib/base/AsyncLogging.cc:86-98 | The locked exchange is that step and keeps the invariant |
| AsyncLogging.AsyncLogging.DropExcess | netlib/base/AsyncLogging.cc:100-110 | The batch is not empty; over 25 buffers it is cut to two after the notice |
| AsyncLogging.AsyncLogging.WriteNext | netlib/base/AsyncLogging.cc:112-114 | One buffer written, in order |
| AsyncLogging.AsyncLogging.Recycle | netlib/base/AsyncLogging.cc:116-134 | Both spares are refilled and emptied; neither pop_back meets an empty batch |
| EventLoop.StepKeeps | netlib/net/EventLoop.cc:80-153 | Each atomic step of the loop thread or a foreign thread keeps the queueing order and the wake-up guarantee |
| EventLoop.RunKeeps | netlib/net/EventLoop.cc:80-231 | Over every interleaving: executed, rest of the batch, pending is always the queueing order |
| EventLoop.NoLostWakeUp | netlib/net/EventLoop.cc:131-153 | If the loop sits in poll told to quit, or with functors pending (none queued by the loop thread outside loop()), the eventfd is readable or a foreign thread still has its wakeUp to do |
| EventLoop.LostWakeUpIff | netlib/net/EventLoop.cc:80-141 | Over every run: in poll with functors pending no wake-up is coming exactly when the loop thread queued one outside loop() while none was coming, and since then poll has not returned and no other thread has acted |
| EventLoop.EarlyFunctorIff | netlib/net/EventLoop.cc:131-141 | From such a queueing into the first poll: a wake-up is coming there exactly when one was or another thread acts |
| EventLoop.FirstPollWakeIff | netlib/net/EventLoop.cc:80-141 | The same from any state before the first poll returns |
| EventLoop.EarlyFunctorWaits | netlib/net/EventLoop.cc:131-141 | The run queue, start, test is always possible and ends in poll, with a wake-up coming exactly when one was before |
| EventLoop.QuitIff | netlib/net/EventLoop.cc:80-116 | Over every run `_quit` is set exactly when it was and the loop has not started since, or some quit came after the last start |
| EventLoop.QuitHonouredIff | netlib/net/EventLoop.cc:80-116 | The next test ends the loop exactly when some quit came after its last start |
| EventLoop.QuitForgotten | netlib/net/EventLoop.cc:80-116 | A quit from another thread before loop(), with its wake-up, leaves the loop in poll |
| EventLoop.CounterIsWakes | netlib/net/EventLoop.cc:143-210 | Over every run the eventfd holds the wake-ups written since it was last read: it is readable exactly when one came after |
| EventLoop.ReadExactlyWhenReported | netlib/net/EventLoop.cc:87-103 | Before the pending functors are taken the eventfd has been read exactly when poll reported it |
| EventLoop.OwingIff | netlib/net/EventLoop.cc:110-141 | A thread owes a wake-up exactly when it queued or quit and has not written the eventfd since |
| EventLoop.LoopOwesIff | netlib/net/EventLoop.cc:138-140 | The loop thread owes one exactly from a queueing inside a functor to its wakeUp |
| EventLoop.EachTurnRunsOne | netlib/net/EventLoop.cc:227-229 | Every turn over the batch runs one functor, and nothing else runs any |
| EventLoop.PassRunsPending | netlib/net/EventLoop.cc:85-104 | An undisturbed pass from test to test exists, reads the eventfd if reported, and runs all that was pending |
| EventLoop.ForeignTouchesOnly | netlib/net/EventLoop.cc:110-141 | Other threads change the queue, the flag, the eventfd and their own debts only |
| EventLoop.BatchIsClosed | netlib/net/EventLoop.cc:218-231 | Functors queued after a batch is taken wait for the next batch |
| EventLoop.BatchCompletes | netlib/net/EventLoop.cc:218-231 | When the loop tests `_quit` again, everything queued before the batch was taken has run once, in order, and nothing else |
| EventLoop.Loop.QueueInLoop | netlib/net/EventLoop.cc:131-141 | The locked push; a wake-up is due from a foreign thread or while functors are being called |
| EventLoop.Loop.Quit | netlib/net/EventLoop.cc:110-116 | Sets the flag; a foreign thread owes a wake-up |
| EventLoop.Loop.WakeUp | netlib/net/EventLoop.cc:143-153 | Makes the eventfd readable and settles the debt |
| EventLoop.Loop.HandleRead | netlib/net/EventLoop.cc:202-210 | The read step, which CounterIsWakes makes the start of a new count; the guarantee holds on, as functors are taken before the next poll |
| EventLoop.Loop.BeginPending | netlib/net/EventLoop.cc:218-220 | The flag is raised before the lock is taken |
| EventLoop.Loop.SwapPending | netlib/net/EventLoop.cc:222-225 | The locked swap takes all pending functors as the batch |
| EventLoop.Loop.Start | netlib/net/EventLoop.cc:80-84 | Entering loop() clears `_quit`, a quit asked for earlier included |
| EventLoop.Loop.TestQuit | netlib/net/EventLoop.cc:85-87 | The loop goes to poll exactly when it is not told to quit |
| EventLoop.Loop.EndPending | netlib/net/EventLoop.cc:230-231 | The flag is lowered only when the batch has run |
| EventLoop.Loop.RunNext | netlib/net/EventLoop.cc:227-229 | The next functor of the batch runs |
| Buffers.StepCounts | netlib/net/Buffer.h:52-257 | How many bytes each operation adds or takes, none lost or invented by shifting and growing |
| Buffers.StepBounded | netlib/net/Buffer.cc:65-86 | One operation keeps the storage within twice the largest demand |
| Buffers.StorageBounded | netlib/net/Buffer.cc:65-86 | Over any run from any state the storage stays within the bound |
| Buffers.FreshStorageBounded | netlib/net/Buffer.cc:65-86 | From a fresh buffer the size never exceeds max(1032, 8 + 2P), P the largest readable + requested of the run, however operations interleave |
| Buffers.EnsureOutcome | netlib/net/Buffer.cc:65-86 | Nothing moves while there is room; storage grows exactly when the free bytes less the eight in front do not suffice; a shift leaves eight in front |
| Buffers.RetrieveOutcome | netlib/net/Buffer.h:178-186 | Taking everything rewinds both indexes, taking less leaves the end |
| Buffers.ShrinkOutcome | netlib/net/Buffer.h:252-257 | Exactly the reserve is left behind the content, or the initial size |
| Buffers.PrependRoom | netlib/net/Buffer.h:245-250 | Over any run eight bytes can be prepended, until some are |
| Buffers.OffersEnough | netlib/net/Buffer.cc:35-45 | A read can take 65536 bytes and all that fits; the extra buffer is offered exactly when the free space is smaller than it |
| Buffers.Buffer.constructor | netlib/net/Buffer.cc:12-20 | Empty content, 1024 writable and 8 prependable bytes, whatever size was asked for |
| Buffers.Buffer.MoveDown | netlib/net/Buffer.cc:81-81 | The overlapping in-place copy moves the bytes intact |
| Buffers.Buffer.MakeSpace | netlib/net/Buffer.cc:65-86 | Grows or shifts in place with the content unchanged; `cCheapPrepend < _readerIndex` holds when reached |
| Buffers.Buffer.EnsureWriteAbleBytes | netlib/net/Buffer.h:52-58 | Room for len bytes, content unchanged |
| Buffers.Buffer.Append | netlib/net/Buffer.h:76-80 | Content grows by exactly these bytes at the end |
| Buffers.Buffer.UnWrite | netlib/net/Buffer.h:142-145 | The last len bytes go, the rest stays |
| Buffers.Buffer.Retrieve | netlib/net/Buffer.h:178-186 | The first n bytes go; taking all resets both indexes |
| Buffers.Buffer.RetrieveAsString | netlib/net/Buffer.h:219-224 | Old content == string returned ++ new content |
| Buffers.Buffer.Prepend | netlib/net/Buffer.h:245-250 | Content grows by exactly these bytes at the front |
| Buffers.Buffer.Shrink | netlib/net/Buffer.h:252-257 | Content unchanged in storage with the reserve still free |
| Buffers.Buffer.ReadFd | netlib/net/Buffer.cc:22-63 | A scatter read of any count equals appending exactly those bytes; a failed one changes nothing and reports errno |
| Buffers.Buffer.AppendInt | netlib/net/Buffer.h:86-103 | Appends the big-endian encoding |
| Buffers.Buffer.PrependInt | netlib/net/Buffer.h:226-243 | Prepends the big-endian encoding |
| Buffers.Buffer.PeekInt | netlib/net/Buffer.h:151-176 | The signed value of the first bytes |
| Buffers.Buffer.ReadInt | netlib/net/Buffer.h:105-127 | The signed value of the first bytes, which are taken |
| BigEndian.WireRoundTrip | netlib/net/Buffer.h:86-176 | Every value of its width reads back as written, negative ones too |
| BigEndian.WireIsComplete | netlib/net/Buffer.h:151-176 | Every byte string is the encoding of exactly the value it reads as |
| BigEndian.FirstByteCounts | netlib/net/Buffer.h:86-176 | The first byte is the most significant |
| BigEndian.SignBit | netlib/net/Buffer.h:151-176 | A value is negative exactly when the top bit of the first byte is set |
| BigEndian.ReadBackInOrder | netlib/net/Buffer.h:86-127 | Typed integers of any widths written one after another read back in order, whatever follows |
| Connection.StepKeeps | netlib/net/TcpConnection.cc:115-321 | Each step keeps the output invariant below |
| Connection.EveryRunDelivers | netlib/net/TcpConnection.cc:63-321 | Over any sends, short or failed writes, writable events and shutdowns: bytes on the wire ++ output buffer == messages accepted, in order; write interest is on iff the buffer is non-empty; FIN at most once, nothing after it, only with an empty buffer; a requested FIN is out as soon as the buffer is empty |
| Connection.RunKeeps | netlib/net/TcpConnection.cc:63-321 | The same from any state that meets the invariant |
| Connection.SilentAfterFin | netlib/net/TcpConnection.cc:63-321 | Once FIN is out nothing more is told to the socket, whatever follows |
| Connection.HistoryGrows | netlib/net/TcpConnection.cc:115-161 | What is on the wire and what is accepted is never taken back |
| Connection.AcceptedIff | netlib/net/TcpConnection.cc:85-145 | A message is accepted whole, exactly when the connection is up and its direct write does not meet EPIPE or ECONNRESET |
| Connection.NoticesExactly | netlib/net/TcpConnection.cc:127-168 | Write-complete is queued exactly when a direct write leaves nothing or the buffer drains, high-water exactly when the buffer grows across the mark, with its new length, and a close exactly when forceClose asks for it |
| Connection.WritableTakes | netlib/net/TcpConnection.cc:285-308 | The bytes a write takes leave the buffer for the wire; a failed write changes nothing |
| Connection.SendTakes | netlib/net/TcpConnection.cc:121-160 | Behind waiting bytes a message waits; else what the direct write takes is on the wire and the rest waits; a reset drops it; unconnected nothing happens |
| Connection.OutputShrinks | netlib/net/TcpConnection.cc:279-310 | Over any run without sends the buffer shrinks by exactly what the writes take |
| Connection.Drains | netlib/net/TcpConnection.cc:279-310 | Once writes have taken what waited: buffer empty, write interest off, everything accepted on the wire, and a requested FIN out |
| Connection.FinExactly | netlib/net/TcpConnection.cc:239-308 | FIN goes out exactly when a shutdown finds nothing waiting or the buffer drains in a connection going down |
| Connection.StateIs | netlib/net/TcpConnection.cc:63-237 | Over every run: connected from the establishment to the first shutdown or forced close after it |
| Connection.AskedIff | netlib/net/TcpConnection.cc:63-68 | A FIN is asked for exactly when some shutdown finds the connection up |
| Connection.ReadingIs | netlib/net/TcpConnection.cc:228-234 | Reading is on from the establishment, and as the last change of it says |
| Connection.TcpConnection.SendInLoop | netlib/net/TcpConnection.cc:115-161 | The class over the byte buffer does that step |
| Connection.TcpConnection.WriteDirectly | netlib/net/TcpConnection.cc:125-145 | Its direct write |
| Connection.TcpConnection.KeepRest | netlib/net/TcpConnection.cc:148-160 | Its buffering of what is left, with interest switched on and the high-water notice |
| Connection.TcpConnection.Send | netlib/net/TcpConnection.cc:85-89 | On the loop thread, only when connected |
| Connection.TcpConnection.HandleWrite | netlib/net/TcpConnection.cc:279-321 | The writable step over the byte buffer, for which WritableTakes and FinExactly say what leaves it |
| Connection.TcpConnection.Shutdown | netlib/net/TcpConnection.cc:63-68 | FIN now or deferred, once |
| Connection.TcpConnection.ShutdownInLoop | netlib/net/TcpConnection.cc:239-249 | FIN only when nothing is being written |
| Connection.TcpConnection.ForceClose | netlib/net/TcpConnection.cc:163-168 | The move to Disconnecting, with no FIN, and forceCloseInLoop queued |
| Connection.TcpConnection.ConnectEstablished | netlib/net/TcpConnection.cc:228-237 | Connected, reading enabled |
| Interest.ChangedBits | netlib/net/Chnnel.h:57-105 | Each change sets or clears its own interest and leaves the other alone |
| Epoller.StepMirrors | netlib/net/Epoller.cc:90-179 | Each operation keeps index and kernel set in step with the channels, and its epoll_ctl succeeds |
| Epoller.RunMirrors | netlib/net/Epoller.cc:90-179 | Over any run: in the map iff not cNew, in the kernel set iff cAdded with the channel's mask, in it whenever the mask is not empty, ADD never for a present fd, MOD and DEL never for an absent one |
| Epoller.EveryRunMirrors | netlib/net/Epoller.cc:90-179 | The same from the start |
| Epoller.WatchedIff | netlib/net/Epoller.cc:90-179 | Over any run the kernel watches a descriptor for reading, or for writing, exactly when that interest was enabled and not disabled since |
| Epoller.InterestOutcome | netlib/net/Epoller.cc:99-130 | A change is registered with one epoll_ctl of the right kind; the descriptor leaves the set exactly when it was there and wants nothing more |
| Epoller.RemoveOutcome | netlib/net/Epoller.cc:158-179 | Afterwards new again, outside map and set, with a DEL exactly if it was in the set |
| Epoller.OpenCloseOutcome | netlib/net/Chnnel.cc:15-25 | A channel opens without interest and unregistered, and is gone when closed |
| Epoller.OthersUntouched | netlib/net/Epoller.cc:90-179 | No operation on one descriptor touches another |
| Epoller.RepeatedDisableAll | netlib/net/Epoller.cc:115-131 | Disabling everything twice deletes and adds the descriptor in turn, with an empty mask |
| Epoller.Channel.SetInterest | netlib/net/Chnnel.h:70-105 | The mask changes and the poller follows; all in-source asserts hold |
| Epoller.Channel.Remove | netlib/net/Chnnel.cc:138-145 | The channel leaves the poller and is new again |
| Epoller.EventPoller.UpdateChannel | netlib/net/Epoller.cc:90-132 | The update step by flag and mask, for which InterestOutcome says what is registered; other channels untouched |
| Epoller.EventPoller.RemoveChannel | netlib/net/Epoller.cc:158-179 | Out of the map, and out of the kernel set if it was in it |
| Epoller.EventPoller.HasChannel | netlib/net/Epoller.cc:181-185 | True exactly for channels in the index |
| Numerals.NumeralReadsBack | netlib/base/LogStream.cc:17-52 | A numeral is canonical and parses to its number, in decimal and hexadecimal |
| Numerals.CanonicalIsNumeral | netlib/base/LogStream.cc:17-52 | No other string without leading zeros parses to the same number |
| Numerals.DecimalReadsBack | netlib/base/LogStream.cc:17-35 | The signed decimal parses back to its value |
| Numerals.CanonicalIsDecimal | netlib/base/LogStream.cc:17-35 | It is the only canonical decimal that does |
| Numerals.DecimalLength | netlib/base/LogStream.cc:17-35 | At most 20 characters for every signed and unsigned 64-bit value |
| Numerals.HexLength | netlib/base/LogStream.cc:39-52 | At most 16 characters for every address |
| LogStream.PutDigits | netlib/base/LogStream.cc:18-27 | The do-while loop writes the digits of the magnitude last first, with no negation |
| LogStream.ReverseRange | netlib/base/LogStream.cc:33-33 | The in-place reversal |
| LogStream.Convert | netlib/base/LogStream.cc:18-35 | The canonical decimal, terminated, of every 64-bit value, minimum included; nothing else in the buffer changes |
| LogStream.ConvertHex | netlib/base/LogStream.cc:39-52 | The canonical hexadecimal numeral, terminated |
| LogStream.StreamHoldsWholeItems | netlib/base/LogStream.cc:62-167 | Over any insertions the stream holds whole items in order, never fills its 4000 bytes |
| LogStream.NothingDropped | netlib/base/LogStream.h:28-37 | Nothing is dropped while the text stays 32 bytes short of the buffer |
| LogStream.ShownReadsBack | netlib/base/LogStream.cc:62-167 | What is shown can be told from the text: the canonical decimal, or 0x and the canonical hexadecimal numeral |
| LogStream.FeedIff | netlib/base/LogStream.h:28-33 | An item appears whole exactly when its bytes leave one free, and for a number when 32 are free; otherwise nothing of it does |
| LogStream.FixedBuffer.Append | netlib/base/LogStream.h:28-33 | Whole or not at all, with a byte always left free |
| LogStream.FixedBuffer.Add | netlib/base/LogStream.h:51-53 | Takes over bytes already placed behind the content |
| LogStream.FixedBuffer.Reset | netlib/base/LogStream.h:55-57 | Empty again |
| LogStream.Stream.PutInteger | netlib/base/LogStream.cc:62-68 | Appends the decimal or nothing, inside the array |
| LogStream.Stream.PutPointer | netlib/base/LogStream.cc:157-167 | Appends 0x and the numeral or nothing, inside the array |
| LogStream.Stream.PutText | netlib/base/LogStream.cc:128-150 | Appends the text or nothing |

## Left out

- Integer widths of Date and Buffer indexes: days, years and indexes are unbounded integers; overflow of a 32-bit day or a `size_t` is not modelled.
- TimerQueue.Restart: intervals are whole microseconds where the source multiplies a double; a positive interval shorter than one microsecond is a repeating timer with interval 0.
- TimerObject.TimerQueue.HandleRead: callbacks are finite scripts chosen beforehand; an add whose address is in use is passed over, because no allocator returns one. Callbacks that call handleRead again or destroy the queue are not modelled.
- TimerRuns.NeverAsleep: says the wake-up is armed in time, not that the kernel delivers it; it assumes a clock after 1970.
- Adding or cancelling timers from another thread, where the sequence is read after the hand-off (netlib/net/TimerQueue.cc:97-101).
- Zone.ToLocalTime: `gmtime_r` and `timegm` are taken to be the repository's own UTC conversions; abbreviations (`tm_zone`) are left out.
- Zone.RoundTripIff: for tables as in section 3.2 of RFC 8536, ascending in both clocks, since a binary search over any other is not defined, and for instants whose local day is in the calendar's range.
- The zone file reader: a table is any value that satisfies `Zone.Table`; leap seconds and files that do not decode are not modelled.
- AsyncLogging.StreamConserved: claims a prefix, since the back end leaves its loop at stop without draining (netlib/base/AsyncLogging.cc:81); start, stop and the latch are left out.
- AsyncLogging buffers are values with an identity, since ownership moves between pointers; `Owners` counts the pointers that hold each.
- The wait of the back end and its time-out: a swap may come at any time, with empty buffers too.
- Log file rolling and flushing, stack traces, and the wording of the drop notice beyond its count.
- EventLoop.NoLostWakeUp: says a wake-up is on its way, not that epoll_wait is fair; the eventfd counter has no upper limit here, and reads and writes of it do not fail.
- The rest of EventLoop: the active channel list, poll time-outs and `hasChnnel`, which takes the abort path every time (netlib/net/EventLoop.cc:178-182).
- Connection.TcpConnection.ForceClose: queues forceCloseInLoop, which is not run: the output path ends before the move to Disconnected, so `forceCloseInLoop`, `handleClose` and `connectDestroyed` are not modelled.
- Connection.TcpConnection.Send: on the loop thread; the hand-off of a message or a shutdown from another thread (netlib/net/TcpConnection.cc:90-94) and the overloads that take a Buffer or raw bytes are not modelled.
- Connection.TcpConnection.SetReading: startRead and stopRead are reduced to what they do to the interest mask.
- The input side of a connection beyond `readFd`: message callbacks belong to the application.
- `findEOL`, `retrieveUntil`, `swap` and the capacity query of Buffer; they read or rename what is modelled.
- Epoller.Channel.SetInterest: one open channel per descriptor at a time; event dispatch order and tied owners are left out.
- Floating-point formatting, `Fmt`, and the null-pointer text of LogStream.
- Connector, Acceptor, TcpClient, TcpServer, thread pools and the lock wrappers: mutual exclusion is taken as given.
