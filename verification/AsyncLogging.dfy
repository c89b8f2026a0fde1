/** The double-buffered log of netlib/base/AsyncLogging.cc: any number of appending threads and one
    back end, interleaved at the granularity of the lock. */
module AsyncLogging {
  import opened Options

  const CAPACITY := 4_000_000
  const MAX_BATCH := 25

  type Message = string

  /** A FixedBuffer<cLargeBuffer>: its identity and its bytes. `held` is history: the messages copied into it. */
  datatype Buf = Buf(id: nat, data: string, held: seq<Message>) {
    /** FixedBuffer::append copies only when a byte stays free. */
    function Append(msg: Message): Buf {
      if CAPACITY - |data| > |msg| then Buf(id, data + msg, held + [msg]) else this
    }

    function Reset(): Buf {
      Buf(id, "", [])
    }
  }

  /** Where the back end is: before its lock, holding a batch, writing its i-th buffer. */
  datatype Phase = AtTop | Taken | Writing(i: nat)

  /** What reaches the log file. */
  datatype Out = Text(s: string) | Notice(dropped: nat)

  datatype State = State(
    current: Option<Buf>,         // _currentBuffer
    next: Option<Buf>,            // _nextBuffer
    buffers: seq<Buf>,            // _buffers
    spare1: Option<Buf>,          // newBuffer1
    spare2: Option<Buf>,          // newBuffer2
    batch: seq<Buf>,              // buffersToWrite
    phase: Phase,
    nextId: nat,                  // identities not yet allocated
    logged: seq<Message>,         // history: every message, in lock order
    rounds: seq<seq<Buf>>,        // history: every batch, as swapped out
    output: seq<Out>)             // history: what was written

  const START := State(Some(Buf(0, "", [])), Some(Buf(1, "", [])), [], Some(Buf(2, "", [])), Some(Buf(3, "", [])),
                       [], AtTop, 4, [], [], [])

  datatype Event = Append(msg: Message) | Swap | DropExcess | WriteNext | Recycle

  predicate Enabled(s: State, e: Event) {
    match e
    case Append(_) => true
    case Swap => s.phase.AtTop?
    case DropExcess => s.phase.Taken?
    case WriteNext => s.phase.Writing? && s.phase.i < |s.batch|
    case Recycle => s.phase.Writing? && s.phase.i == |s.batch|
  }

  // ---- The steps ----

  /** One locked append. */
  function AfterAppend(s: State, msg: Message): State
    requires s.current.Some?
  {
    var c := s.current.value;
    var t := s.(logged := s.logged + [msg]);
    if CAPACITY - |c.data| > |msg| then t.(current := Some(c.Append(msg)))
    else
      var u := t.(buffers := s.buffers + [c]);
      if s.next.Some? then u.(current := Some(s.next.value.Append(msg)), next := None)
      else u.(current := Some(Buf(s.nextId, "", []).Append(msg)), nextId := s.nextId + 1)
  }

  /** The locked exchange of the back end. */
  function AfterSwap(s: State): State
    requires s.current.Some?
  {
    var batch := s.buffers + [s.current.value];
    var t := s.(current := s.spare1, spare1 := None, buffers := [], batch := batch, phase := Taken,
                rounds := s.rounds + [batch]);
    if s.next.None? then t.(next := s.spare2, spare2 := None) else t
  }

  function AfterDropExcess(s: State): State {
    if |s.batch| > MAX_BATCH
    then s.(phase := Writing(0), batch := s.batch[..2], output := s.output + [Notice(|s.batch| - 2)])
    else s.(phase := Writing(0))
  }

  function AfterWriteNext(s: State): State
    requires Enabled(s, WriteNext)
  {
    s.(phase := Writing(s.phase.i + 1), output := s.output + [Text(s.batch[s.phase.i].data)])
  }

  /** Refills one spare from the back of the buffers at hand. */
  function Refill(spare: Option<Buf>, hand: seq<Buf>): (Option<Buf>, seq<Buf>) {
    if spare.Some? || hand == [] then (spare, hand)
    else (Some(hand[|hand| - 1].Reset()), hand[..|hand| - 1])
  }

  function AfterRecycle(s: State): State {
    var hand := if |s.batch| > 2 then s.batch[..2] else s.batch;
    var (spare1, hand1) := Refill(s.spare1, hand);
    var (spare2, _) := Refill(s.spare2, hand1);
    s.(spare1 := spare1, spare2 := spare2, batch := [], phase := AtTop)
  }

  function Step(s: State, e: Event): State
    requires Enabled(s, e) && s.current.Some?
  {
    match e
    case Append(msg) => AfterAppend(s, msg)
    case Swap => AfterSwap(s)
    case DropExcess => AfterDropExcess(s)
    case WriteNext => AfterWriteNext(s)
    case Recycle => AfterRecycle(s)
  }

  // ---- Buffers are never missing ----

  predicate Empty(b: Option<Buf>) {
    b.Some? && b.value.data == "" && b.value.held == []
  }

  /** The in-source asserts: two empty spares and no batch at the top of the loop,
      enough buffers in the batch to refill the missing spares, and never a missing current buffer. */
  predicate Supplied(s: State) {
    && s.current.Some?
    && (s.next.None? ==> s.buffers != [])
    && (s.next.Some? ==> Empty(s.next))
    && (s.spare2.Some? ==> Empty(s.spare2))
    && (s.phase.AtTop? ==> Empty(s.spare1) && Empty(s.spare2) && s.batch == [])
    && (!s.phase.AtTop? ==> s.spare1.None? && |s.batch| >= if s.spare2.None? then 2 else 1)
  }

  lemma StepSupplied(s: State, e: Event)
    requires Supplied(s) && Enabled(s, e)
    ensures Supplied(Step(s, e))
  {
  }

  // ---- Buffers are never shared ----

  function CountIn(bs: seq<Buf>, id: nat): nat {
    if bs == [] then 0 else CountIn(bs[..|bs| - 1], id) + if bs[|bs| - 1].id == id then 1 else 0
  }

  function Has(b: Option<Buf>, id: nat): nat {
    if b.Some? && b.value.id == id then 1 else 0
  }

  /** How many of the pointers of both sides own the buffer `id`. */
  function Owners(s: State, id: nat): nat {
    Has(s.current, id) + Has(s.next, id) + CountIn(s.buffers, id) +
    Has(s.spare1, id) + Has(s.spare2, id) + CountIn(s.batch, id)
  }

  ghost predicate Distinct(s: State) {
    forall id: nat :: Owners(s, id) <= if id < s.nextId then 1 else 0
  }

  lemma CountAppend(bs: seq<Buf>, b: Buf, id: nat)
    ensures CountIn(bs + [b], id) == CountIn(bs, id) + if b.id == id then 1 else 0
    ensures CountIn([], id) == 0
  {
    assert (bs + [b])[..|bs|] == bs;
  }

  lemma {:induction false} CountPrefix(bs: seq<Buf>, n: nat, id: nat)
    requires n <= |bs|
    ensures CountIn(bs[..n], id) <= CountIn(bs, id)
  {
    if n < |bs| {
      CountPrefix(bs[..|bs| - 1], n, id);
      assert bs[..|bs| - 1][..n] == bs[..n];
    } else {
      assert bs[..n] == bs;
    }
  }

  lemma RefillOwners(spare: Option<Buf>, hand: seq<Buf>, id: nat)
    ensures var (spare', hand') := Refill(spare, hand);
            Has(spare', id) + CountIn(hand', id) == Has(spare, id) + CountIn(hand, id)
  {
  }

  lemma RecycleOwners(s: State, id: nat)
    ensures Owners(AfterRecycle(s), id) <= Owners(s, id)
  {
    hide Has, Refill, CountIn;
    var hand := if |s.batch| > 2 then s.batch[..2] else s.batch;
    CountPrefix(s.batch, |hand|, id);
    assert hand == s.batch[..|hand|];
    RefillOwners(s.spare1, hand, id);
    RefillOwners(s.spare2, Refill(s.spare1, hand).1, id);
    CountAppend([], Buf(0, "", []), id);
  }

  /** No step hands a buffer to a second owner; only an append can bring one in, and a fresh one. */
  lemma StepOwners(s: State, e: Event, id: nat)
    requires Supplied(s) && Enabled(s, e)
    ensures Owners(Step(s, e), id) <= Owners(s, id) + if s.nextId <= id < Step(s, e).nextId then 1 else 0
    ensures s.nextId <= Step(s, e).nextId <= s.nextId + 1
  {
    hide CountIn;
    CountAppend(s.buffers, s.current.value, id);
    match e
    case Append(_) =>
    case Swap =>
    case DropExcess => CountPrefix(s.batch, if |s.batch| > 2 then 2 else |s.batch|, id);
    case WriteNext =>
    case Recycle => RecycleOwners(s, id);
  }

  lemma StepDistinct(s: State, e: Event)
    requires Supplied(s) && Distinct(s) && Enabled(s, e)
    ensures Distinct(Step(s, e))
  {
    hide Owners, Step;
    var t := Step(s, e);
    forall id: nat ensures Owners(t, id) <= if id < t.nextId then 1 else 0 {
      StepOwners(s, e, id);
    }
  }

  // ---- Nothing is lost but what the code drops ----

  function Concat(msgs: seq<Message>): string {
    if msgs == [] then "" else Concat(msgs[..|msgs| - 1]) + msgs[|msgs| - 1]
  }

  /** The messages shorter than a buffer. */
  function Fitting(msgs: seq<Message>): seq<Message> {
    if msgs == [] then []
    else Fitting(msgs[..|msgs| - 1]) + if |msgs[|msgs| - 1]| < CAPACITY then [msgs[|msgs| - 1]] else []
  }

  function HeldIn(bs: seq<Buf>): seq<Message> {
    if bs == [] then [] else HeldIn(bs[..|bs| - 1]) + bs[|bs| - 1].held
  }

  function HeldInRounds(rounds: seq<seq<Buf>>): seq<Message> {
    if rounds == [] then [] else HeldInRounds(rounds[..|rounds| - 1]) + HeldIn(rounds[|rounds| - 1])
  }

  /** What a round keeps of its batch. */
  function Survivors(batch: seq<Buf>): seq<Buf> {
    if |batch| > MAX_BATCH then batch[..2] else batch
  }

  function Texts(bs: seq<Buf>): seq<Out> {
    seq(|bs|, i requires 0 <= i < |bs| => Text(bs[i].data))
  }

  function Header(batch: seq<Buf>): seq<Out> {
    if |batch| > MAX_BATCH then [Notice(|batch| - 2)] else []
  }

  /** What whole rounds write: a round of more than 25 buffers writes the notice and its first two. */
  function OutputOf(rounds: seq<seq<Buf>>): seq<Out> {
    if rounds == [] then []
    else
      var (before, last) := (rounds[..|rounds| - 1], rounds[|rounds| - 1]);
      OutputOf(before) + Header(last) + Texts(Survivors(last))
  }

  /** A buffer holds whole messages, and always has a byte free. */
  predicate Whole(b: Buf) {
    b.data == Concat(b.held) && |b.data| < CAPACITY
  }

  predicate AllWhole(bs: seq<Buf>) {
    forall b <- bs :: Whole(b)
  }

  /** Every message in lock order, whole, in the rounds, in _buffers and in _currentBuffer. */
  predicate Collected(s: State)
    requires s.current.Some?
  {
    && HeldInRounds(s.rounds) + HeldIn(s.buffers) + s.current.value.held == Fitting(s.logged)
    && Whole(s.current.value) && AllWhole(s.buffers) && (forall r <- s.rounds :: AllWhole(r))
  }

  /** What has been written of the rounds so far. */
  predicate Written(s: State) {
    match s.phase {
      case AtTop => s.output == OutputOf(s.rounds)
      case Taken =>
        && s.rounds != [] && s.batch == s.rounds[|s.rounds| - 1]
        && s.output == OutputOf(s.rounds[..|s.rounds| - 1])
      case Writing(i) =>
        && s.rounds != [] && s.batch == Survivors(s.rounds[|s.rounds| - 1]) && i <= |s.batch|
        && s.output == OutputOf(s.rounds[..|s.rounds| - 1]) + Header(s.rounds[|s.rounds| - 1]) + Texts(s.batch[..i])
    }
  }

  predicate Accounted(s: State)
    requires s.current.Some?
  {
    Collected(s) && Written(s)
  }

  lemma SnocConcat(msgs: seq<Message>, msg: Message)
    ensures Concat(msgs + [msg]) == Concat(msgs) + msg
    ensures Fitting(msgs + [msg]) == Fitting(msgs) + if |msg| < CAPACITY then [msg] else []
  {
    assert (msgs + [msg])[..|msgs|] == msgs;
  }

  lemma SnocHeld(bs: seq<Buf>, b: Buf)
    ensures HeldIn(bs + [b]) == HeldIn(bs) + b.held
  {
    assert (bs + [b])[..|bs|] == bs;
  }

  lemma SnocRounds(rounds: seq<seq<Buf>>, batch: seq<Buf>)
    ensures HeldInRounds(rounds + [batch]) == HeldInRounds(rounds) + HeldIn(batch)
    ensures OutputOf(rounds + [batch]) == OutputOf(rounds) + Header(batch) + Texts(Survivors(batch))
  {
    assert (rounds + [batch])[..|rounds|] == rounds;
  }

  lemma BufAppend(b: Buf, msg: Message)
    requires Whole(b)
    ensures Whole(b.Append(msg))
    ensures b.Append(msg).held == b.held + if CAPACITY - |b.data| > |msg| then [msg] else []
  {
    SnocConcat(b.held, msg);
  }

  lemma EmptyIsWhole(b: Buf)
    requires b.data == "" && b.held == []
    ensures Whole(b)
  {
  }

  lemma AppendAccounted(s: State, msg: Message)
    requires Supplied(s) && Accounted(s)
    ensures Accounted(AfterAppend(s, msg))
  {
    hide Collected;
    AppendCollected(s, msg);
    hide OutputOf, Texts, Header, Survivors;
  }

  lemma AppendCollected(s: State, msg: Message)
    requires Supplied(s) && Collected(s)
    ensures Collected(AfterAppend(s, msg))
  {
    hide Concat, Fitting, HeldIn, HeldInRounds, Whole;
    var c := s.current.value;
    SnocConcat(s.logged, msg);
    BufAppend(c, msg);
    FreeSpace(c);
    if CAPACITY - |c.data| > |msg| {
      var before := HeldInRounds(s.rounds) + HeldIn(s.buffers);
      assert before + (c.held + [msg]) == before + c.held + [msg];
    } else {
      var blank := if s.next.Some? then s.next.value else Buf(s.nextId, "", []);
      EmptyIsWhole(blank);
      BufAppend(blank, msg);
      SnocHeld(s.buffers, c);
      Regroup(HeldInRounds(s.rounds), HeldIn(s.buffers), c.held, blank.Append(msg).held);
      assert blank.Append(msg).held == if |msg| < CAPACITY then [msg] else [];
    }
  }

  lemma Regroup(a: seq<Message>, b: seq<Message>, c: seq<Message>, d: seq<Message>)
    ensures a + (b + c) + d == a + b + c + d && a + b + c + [] == a + b + c
  {
  }

  lemma FreeSpace(b: Buf)
    requires Whole(b)
    ensures |b.data| < CAPACITY
  {
  }

  lemma SwapAccounted(s: State)
    requires Supplied(s) && Accounted(s) && s.phase.AtTop?
    ensures Accounted(AfterSwap(s))
  {
    hide Concat, Fitting, HeldIn, HeldInRounds, OutputOf, Whole, Texts, Header, Survivors;
    var c := s.current.value;
    var batch := s.buffers + [c];
    EmptyIsWhole(s.spare1.value);
    SnocHeld(s.buffers, c);
    SnocRounds(s.rounds, batch);
    NothingHeld();
    assert (s.rounds + [batch])[..|s.rounds|] == s.rounds;
    assert HeldInRounds(s.rounds) + (HeldIn(s.buffers) + c.held) + [] + []
        == HeldInRounds(s.rounds) + HeldIn(s.buffers) + c.held;
  }

  lemma NothingHeld()
    ensures HeldIn([]) == []
  {
  }

  lemma BackEndAccounted(s: State, e: Event)
    requires Supplied(s) && Accounted(s) && Enabled(s, e) && (e.DropExcess? || e.WriteNext? || e.Recycle?)
    ensures Accounted(Step(s, e))
  {
    hide Concat, Fitting, HeldIn, HeldInRounds, OutputOf, Whole;
    var n := |s.rounds| - 1;
    var before := OutputOf(s.rounds[..n]);
    match e
    case DropExcess => assert s.output + [] == s.output;
    case WriteNext =>
      var i := s.phase.i;
      assert Texts(s.batch[..i + 1]) == Texts(s.batch[..i]) + [Text(s.batch[i].data)];
    case Recycle =>
      assert s.batch[..s.phase.i] == s.batch;
      assert s.rounds == s.rounds[..n] + [s.rounds[n]];
      SnocRounds(s.rounds[..n], s.rounds[n]);
  }

  // ---- Every run ----

  ghost predicate Inv(s: State) {
    Supplied(s) && Distinct(s) && Accounted(s)
  }

  lemma StepKeeps(s: State, e: Event)
    requires Inv(s) && Enabled(s, e)
    ensures Inv(Step(s, e))
  {
    hide Supplied, Distinct, Accounted, AfterAppend, AfterSwap, AfterDropExcess, AfterWriteNext, AfterRecycle;
    StepSupplied(s, e);
    StepDistinct(s, e);
    match e
    case Append(msg) => AppendAccounted(s, msg);
    case Swap => SwapAccounted(s);
    case _ => BackEndAccounted(s, e);
  }

  ghost predicate LegalRun(s: State, es: seq<Event>)
    requires Inv(s)
    decreases |es|
  {
    es == [] || (Enabled(s, es[0]) && (StepKeeps(s, es[0]); LegalRun(Step(s, es[0]), es[1..])))
  }

  /** The state after any interleaving. The invariant holds throughout: buffers are never missing and never
      shared, and what was written, what waits and what is being filled account for every message. */
  ghost function Run(s: State, es: seq<Event>): (r: State)
    requires Inv(s) && LegalRun(s, es)
    ensures Inv(r)
    decreases |es|
  {
    if es == [] then s else (StepKeeps(s, es[0]); Run(Step(s, es[0]), es[1..]))
  }

  lemma StartKeeps()
    ensures Inv(START)
  {
    forall id: nat ensures Owners(START, id) <= if id < 4 then 1 else 0 {
      CountAppend([], Buf(0, "", []), id);
    }
  }

  // ---- The stream ----

  function TextOf(output: seq<Out>): string {
    if output == [] then ""
    else TextOf(output[..|output| - 1]) + if output[|output| - 1].Text? then output[|output| - 1].s else ""
  }

  function DataOf(bs: seq<Buf>): string {
    if bs == [] then "" else DataOf(bs[..|bs| - 1]) + bs[|bs| - 1].data
  }

  lemma {:induction false} TextAppend(a: seq<Out>, b: seq<Out>)
    ensures TextOf(a + b) == TextOf(a) + TextOf(b)
  {
    if b == [] {
      assert a + b == a;
    } else {
      TextAppend(a, b[..|b| - 1]);
      assert (a + b)[..|a + b| - 1] == a + b[..|b| - 1];
    }
  }

  lemma {:induction false} TextOfTexts(bs: seq<Buf>)
    ensures TextOf(Texts(bs)) == DataOf(bs)
  {
    if bs != [] {
      TextOfTexts(bs[..|bs| - 1]);
      assert Texts(bs)[..|bs| - 1] == Texts(bs[..|bs| - 1]);
    }
  }

  lemma {:induction false} ConcatAppend(a: seq<Message>, b: seq<Message>)
    ensures Concat(a + b) == Concat(a) + Concat(b)
  {
    if b == [] {
      assert a + b == a;
    } else {
      ConcatAppend(a, b[..|b| - 1]);
      assert (a + b)[..|a + b| - 1] == a + b[..|b| - 1];
    }
  }

  lemma {:induction false} DataIsHeld(bs: seq<Buf>)
    requires AllWhole(bs)
    ensures DataOf(bs) == Concat(HeldIn(bs))
  {
    if bs != [] {
      var before, last := bs[..|bs| - 1], bs[|bs| - 1];
      assert forall b <- before :: b in bs;
      assert last in bs;
      DataIsHeld(before);
      ConcatAppend(HeldIn(before), last.held);
    }
  }

  predicate NoExcess(rounds: seq<seq<Buf>>) {
    forall r <- rounds :: |r| <= MAX_BATCH
  }

  lemma {:induction false} RoundsText(rounds: seq<seq<Buf>>)
    requires NoExcess(rounds) && forall r <- rounds :: AllWhole(r)
    ensures TextOf(OutputOf(rounds)) == Concat(HeldInRounds(rounds))
  {
    hide Concat, TextOf, HeldIn, DataOf, Texts, Whole, AllWhole;
    if rounds == [] {
      NoRounds();
    } else {
      var before, last := rounds[..|rounds| - 1], rounds[|rounds| - 1];
      assert last in rounds && forall r <- before :: r in rounds;
      RoundsText(before);
      assert OutputOf(rounds) == OutputOf(before) + [] + Texts(last) == OutputOf(before) + Texts(last);
      TextAppend(OutputOf(before), Texts(last));
      TextOfTexts(last);
      DataIsHeld(last);
      ConcatAppend(HeldInRounds(before), HeldIn(last));
    }
  }

  lemma NoRounds()
    ensures TextOf([]) == "" && Concat([]) == ""
  {
  }

  /** The buffers of the batch in hand that are not yet written. */
  function InHand(s: State): seq<Buf> {
    match s.phase
    case AtTop => []
    case Taken => s.batch
    case Writing(i) => if i <= |s.batch| then s.batch[i..] else []
  }

  /** While no round is over 25 buffers: the bytes written, then the batch in hand, then _buffers, then
      _currentBuffer are exactly the messages shorter than a buffer, in lock order. */
  lemma StreamConserved(s: State)
    requires Inv(s) && NoExcess(s.rounds)
    ensures TextOf(s.output) + DataOf(InHand(s)) + DataOf(s.buffers) + s.current.value.data == Concat(Fitting(s.logged))
  {
    hide Concat, Fitting, OutputOf, HeldInRounds, HeldIn, TextOf, DataOf, Distinct;
    WrittenAndInHand(s);
    RoundsText(s.rounds);
    DataIsHeld(s.buffers);
    ConcatAppend(HeldInRounds(s.rounds), HeldIn(s.buffers));
    ConcatAppend(HeldInRounds(s.rounds) + HeldIn(s.buffers), s.current.value.held);
  }

  /** So nothing at all is missing exactly when every message was shorter than a buffer. */
  lemma NothingMissingIff(s: State)
    requires Inv(s) && NoExcess(s.rounds)
    ensures TextOf(s.output) + DataOf(InHand(s)) + DataOf(s.buffers) + s.current.value.data == Concat(s.logged)
            <==> forall msg <- s.logged :: |msg| < CAPACITY
  {
    hide Concat, Fitting, TextOf, DataOf, Inv, InHand, NoExcess;
    StreamConserved(s);
    FittingIff(s.logged);
  }

  lemma {:induction false} FittingIff(msgs: seq<Message>)
    ensures |Concat(Fitting(msgs))| <= |Concat(msgs)|
    ensures Concat(Fitting(msgs)) == Concat(msgs) <==> forall msg <- msgs :: |msg| < CAPACITY
    ensures |Concat(Fitting(msgs))| == |Concat(msgs)| ==> forall msg <- msgs :: |msg| < CAPACITY
  {
    if msgs != [] {
      var before, last := msgs[..|msgs| - 1], msgs[|msgs| - 1];
      FittingIff(before);
      assert msgs == before + [last];
      SnocConcat(before, last);
      SnocConcat(Fitting(before), last);
      assert Fitting(before) + [] == Fitting(before);
    }
  }

  lemma WrittenAndInHand(s: State)
    requires Inv(s) && NoExcess(s.rounds)
    ensures TextOf(s.output) + DataOf(InHand(s)) == TextOf(OutputOf(s.rounds))
  {
    hide Concat, Fitting, OutputOf, HeldInRounds, HeldIn, TextOf, DataOf, Distinct;
    NoData();
    if !s.phase.AtTop? {
      var n := |s.rounds| - 1;
      var before, last := OutputOf(s.rounds[..n]), s.rounds[n];
      assert last in s.rounds;
      assert s.rounds == s.rounds[..n] + [last];
      SnocRounds(s.rounds[..n], last);
      var i := if s.phase.Taken? then 0 else s.phase.i;
      assert Header(last) == [] && s.batch == last;
      assert before + [] + Texts(last) == before + Texts(last[..i]) + Texts(last[i..]);
      assert s.output == before + Texts(last[..i]);
      assert InHand(s) == last[i..];
      TextAppend(s.output, Texts(last[i..]));
      TextOfTexts(last[i..]);
    }
  }

  lemma NoData()
    ensures DataOf([]) == "" && TextOf([]) == ""
  {
  }

  /** From the start, over every interleaving of appends and back-end steps. */
  lemma EveryRunConserves(es: seq<Event>)
    requires (StartKeeps(); LegalRun(START, es))
    ensures (StartKeeps();
             var s := Run(START, es);
             NoExcess(s.rounds) ==>
               TextOf(s.output) + DataOf(InHand(s)) + DataOf(s.buffers) + s.current.value.data == Concat(Fitting(s.logged)))
  {
    StartKeeps();
    if NoExcess(Run(START, es).rounds) {
      StreamConserved(Run(START, es));
    }
  }

  // ---- Which buffers go where ----

  /** The exchange gives the back end everything filled; a reserve that is there is kept,
      and one that is missing is replaced. */
  lemma SwapOutcome(s: State)
    requires Inv(s) && s.phase.AtTop?
    ensures s.current.Some?
    ensures var t := Step(s, Swap);
            && t.batch == s.buffers + [s.current.value] && t.buffers == []
            && t.current == s.spare1 && t.next == (if s.next.Some? then s.next else s.spare2)
            && (t.spare2 == None <==> s.next == None)
  {
    hide Distinct, Accounted;
  }

  /** The spares missing after a round are the first buffers of its batch, emptied. */
  lemma RecycleOutcome(s: State)
    requires Inv(s) && Enabled(s, Recycle)
    ensures s.current.Some? && |s.batch| >= 1
    ensures var t := Step(s, Recycle);
            && t.spare1 == Some(Buf(s.batch[if |s.batch| > 1 then 1 else 0].id, "", []))
            && t.spare2 == (if s.spare2.Some? then s.spare2 else Some(Buf(s.batch[0].id, "", [])))
  {
    hide Distinct, Accounted;
  }

  // ---- When a buffer is retired ----

  /** A message goes into the current buffer if it leaves a byte free there. If not, that buffer is retired and the
      message starts the reserve, or a new buffer only if there is no reserve. */
  lemma AppendOutcome(s: State, msg: Message)
    requires Inv(s)
    ensures s.current.Some?
    ensures var c, t := s.current.value, Step(s, Append(msg));
            && t.current.Some? && t.logged == s.logged + [msg]
            && (if |c.data| + |msg| < CAPACITY
                then t.buffers == s.buffers && t.current.value.data == c.data + msg
                     && t.next == s.next && t.nextId == s.nextId
                else t.buffers == s.buffers + [c] && t.current.value.data == (if |msg| < CAPACITY then msg else "")
                     && t.next == None && (t.nextId == s.nextId + 1 <==> s.next.None?))
  {
    hide Distinct, Accounted;
  }

  function TextIn(es: seq<Event>): string {
    if es == [] then "" else (if es[0].Append? then es[0].msg else "") + TextIn(es[1..])
  }

  predicate OnlyAppends(es: seq<Event>) {
    forall i | 0 <= i < |es| :: es[i].Append?
  }

  /** No buffer is retired while what is appended fits the current one. */
  lemma {:induction false} FillsBeforeRetiring(s: State, es: seq<Event>)
    requires Inv(s) && LegalRun(s, es) && OnlyAppends(es)
    requires s.current.Some? && |s.current.value.data| + |TextIn(es)| < CAPACITY
    ensures var t := Run(s, es);
            && t.buffers == s.buffers && t.next == s.next && t.nextId == s.nextId
            && t.current.Some? && t.current.value.data == s.current.value.data + TextIn(es)
    decreases |es|
  {
    hide Inv, Enabled;
    if es != [] {
      assert forall i | 0 <= i < |es[1..]| :: es[1..][i] == es[i + 1];
      AppendOutcome(s, es[0].msg);
      StepKeeps(s, es[0]);
      hide Step;
      FillsBeforeRetiring(Step(s, es[0]), es[1..]);
    }
  }

  predicate AllShort(msgs: seq<Message>) {
    forall msg <- msgs :: |msg| < CAPACITY
  }

  /** The next buffer starts with a message that the i-th had no room for. */
  predicate Overflows(bs: seq<Buf>, i: int)
    requires 0 <= i < |bs| - 1
  {
    bs[i + 1].held != [] && |bs[i].data| + |bs[i + 1].held[0]| >= CAPACITY
  }

  predicate Tight(bs: seq<Buf>) {
    forall i | 0 <= i < |bs| - 1 :: Overflows(bs, i)
  }

  predicate Packed(s: State)
    requires s.current.Some?
  {
    Tight(s.buffers + [s.current.value]) && forall r <- s.rounds :: Tight(r)
  }

  /** Tightness of a sequence, one buffer at a time. */
  lemma TightSnoc(bs: seq<Buf>, b: Buf)
    ensures Tight(bs + [b]) <==>
            Tight(bs) && (bs != [] ==> b.held != [] && |bs[|bs| - 1].data| + |b.held[0]| >= CAPACITY)
  {
    var all := bs + [b];
    assert forall i | 0 <= i < |bs| - 1 :: Overflows(all, i) == Overflows(bs, i);
    if bs != [] {
      assert all[|bs| - 1] == bs[|bs| - 1] && all[|bs|] == b;
      assert Overflows(all, |bs| - 1) <==> b.held != [] && |bs[|bs| - 1].data| + |b.held[0]| >= CAPACITY;
    }
  }

  lemma AppendPacks(s: State, msg: Message)
    requires Inv(s) && s.current.Some? && Packed(s) && |msg| < CAPACITY
    ensures Supplied(s) && AfterAppend(s, msg).current.Some? && Packed(AfterAppend(s, msg))
  {
    var c := s.current.value;
    assert c.held == [] ==> c.data == "" by { EmptyHeld(s); }
    TightSnoc(s.buffers, c);
    hide Tight, Distinct, Accounted;
    var t := AfterAppend(s, msg);
    if CAPACITY - |c.data| > |msg| {
      TightSnoc(s.buffers, t.current.value);
    } else {
      TightSnoc(s.buffers + [c], t.current.value);
    }
  }

  lemma EmptyHeld(s: State)
    requires Inv(s)
    ensures s.current.Some? && (s.current.value.held == [] ==> s.current.value.data == "")
  {
  }

  lemma StepPacks(s: State, e: Event)
    requires Inv(s) && s.current.Some? && Packed(s) && Enabled(s, e) && (e.Append? ==> |e.msg| < CAPACITY)
    ensures Step(s, e).current.Some? && Packed(Step(s, e))
  {
    match e
    case Append(msg) => AppendPacks(s, msg);
    case Swap =>
      hide Distinct, Accounted;
      var t := Step(s, e);
      assert t.buffers == [] && t.current.Some?;
    case _ =>
      hide Supplied, Distinct, Accounted;
  }

  lemma {:induction false} RunPacks(s: State, es: seq<Event>)
    requires Inv(s) && s.current.Some? && Packed(s) && LegalRun(s, es) && AllShort(Run(s, es).logged)
    ensures Run(s, es).current.Some? && Packed(Run(s, es))
    decreases |es|
  {
    hide Inv, Packed, Enabled;
    if es != [] {
      LogGrows(s, es);
      assert es[0].Append? ==> |es[0].msg| < CAPACITY;
      StepPacks(s, es[0]);
      StepKeeps(s, es[0]);
      RunPacks(Step(s, es[0]), es[1..]);
    }
  }

  lemma {:induction false} LogGrows(s: State, es: seq<Event>)
    requires Inv(s) && LegalRun(s, es)
    ensures s.logged <= Run(s, es).logged
    ensures forall e | e in es && e.Append? :: e.msg in Run(s, es).logged
    decreases |es|
  {
    hide Inv, Enabled;
    if es != [] {
      StepKeeps(s, es[0]);
      SuppliedCurrent(s);
      var t := Step(s, es[0]);
      assert t.logged == s.logged + if es[0].Append? then [es[0].msg] else [];
      hide Step;
      LogGrows(t, es[1..]);
      assert es == [es[0]] + es[1..];
      assert es[0].Append? ==> t.logged[|s.logged|] == es[0].msg;
    }
  }

  lemma {:induction false} TightHoldsText(bs: seq<Buf>)
    requires Tight(bs) && AllWhole(bs)
    ensures |DataOf(bs)| >= |bs| / 2 * CAPACITY
    decreases |bs|
  {
    if |bs| >= 2 {
      var n := |bs| - 2;
      assert AllWhole(bs[..n]) && bs[n + 1] in bs;
      assert bs[..n + 1] == bs[..n] + [bs[n]] && bs == bs[..n + 1] + [bs[n + 1]];
      hide AllWhole, Tight, DataOf, Whole;
      TightSnoc(bs[..n], bs[n]);
      TightSnoc(bs[..n + 1], bs[n + 1]);
      TightHoldsText(bs[..n]);
      DataSnoc(bs[..n], bs[n]);
      DataSnoc(bs[..n + 1], bs[n + 1]);
      FirstInData(bs, bs[n + 1]);
      assert |bs| / 2 == n / 2 + 1;
    }
  }

  lemma DataSnoc(bs: seq<Buf>, b: Buf)
    ensures DataOf(bs + [b]) == DataOf(bs) + b.data
  {
    assert (bs + [b])[..|bs|] == bs;
  }

  lemma FirstInData(bs: seq<Buf>, b: Buf)
    requires AllWhole(bs) && b in bs && b.held != []
    ensures |b.held[0]| <= |b.data|
  {
    FirstIsPart(b.held);
  }

  lemma {:induction false} FirstIsPart(msgs: seq<Message>)
    requires msgs != []
    ensures |msgs[0]| <= |Concat(msgs)|
  {
    if |msgs| > 1 {
      FirstIsPart(msgs[..|msgs| - 1]);
    }
  }

  /** With all messages shorter than a buffer, every two buffers of a round hold a buffer's worth of text:
      a round of more than 25 buffers is 52 million characters logged since the round before. */
  lemma RoundsHoldText(es: seq<Event>)
    requires (StartKeeps(); LegalRun(START, es))
    requires (StartKeeps(); AllShort(Run(START, es).logged))
    ensures (StartKeeps(); forall r <- Run(START, es).rounds :: |DataOf(r)| >= |r| / 2 * CAPACITY)
    ensures (StartKeeps(); forall r <- Run(START, es).rounds | |r| > MAX_BATCH :: |DataOf(r)| >= 52_000_000)
  {
    StartKeeps();
    RunPacks(START, es);
    var t := Run(START, es);
    forall r <- t.rounds ensures |DataOf(r)| >= |r| / 2 * CAPACITY && (|r| > MAX_BATCH ==> |DataOf(r)| >= 52_000_000) {
      RoundIsWhole(t, r);
      hide Inv, LegalRun, Run, DataOf, AllWhole, Tight;
      TightHoldsText(r);
      assert |r| > MAX_BATCH ==> |r| / 2 >= 13;
    }
  }

  lemma RoundIsWhole(s: State, r: seq<Buf>)
    requires Inv(s) && r in s.rounds
    ensures AllWhole(r)
  {
  }

  // ---- One round ----

  predicate NoSwap(es: seq<Event>) {
    forall i | 0 <= i < |es| :: !es[i].Swap?
  }

  lemma {:induction false} SameRounds(s: State, es: seq<Event>)
    requires Inv(s) && LegalRun(s, es) && NoSwap(es)
    ensures Run(s, es).rounds == s.rounds
    decreases |es|
  {
    hide Inv, Enabled;
    if es != [] {
      StepKeeps(s, es[0]);
      SuppliedCurrent(s);
      assert Step(s, es[0]).rounds == s.rounds;
      assert forall i | 0 <= i < |es[1..]| :: es[1..][i] == es[i + 1];
      hide Step;
      SameRounds(Step(s, es[0]), es[1..]);
    }
  }

  /** From the exchange to the end of its round, however appends interleave: what is written is the notice
      if there is one, and the buffers the round keeps. */
  lemma RoundWrites(s: State, es: seq<Event>)
    requires Inv(s) && s.phase.Taken? && LegalRun(s, es) && NoSwap(es) && Run(s, es).phase.AtTop?
    ensures Run(s, es).output == s.output + Header(s.batch) + Texts(Survivors(s.batch))
  {
    hide Run, LegalRun, Step, Header, Texts, Survivors, Supplied, Distinct, Collected;
    SameRounds(s, es);
    var n := |s.rounds| - 1;
    assert s.rounds == s.rounds[..n] + [s.rounds[n]];
    SnocRounds(s.rounds[..n], s.rounds[n]);
  }

  /** A round of more than 25 buffers writes the notice and exactly its first two buffers. */
  lemma OverfullRound(s: State, es: seq<Event>)
    requires Inv(s) && s.phase.Taken? && LegalRun(s, es) && NoSwap(es) && Run(s, es).phase.AtTop?
    requires |s.batch| > MAX_BATCH
    ensures Run(s, es).output
         == s.output + [Notice(|s.batch| - 2), Text(s.batch[0].data), Text(s.batch[1].data)]
  {
    hide Run, LegalRun, Step, Inv;
    RoundWrites(s, es);
    assert Texts(s.batch[..2]) == [Text(s.batch[0].data), Text(s.batch[1].data)];
  }

  // ---- The object ----

  /** Append and SwapBuffers are the two locked sections; the other methods are the back end's own. */
  class AsyncLogging {
    var currentBuffer: Option<Buf>
    var nextBuffer: Option<Buf>
    var buffers: seq<Buf>
    var newBuffer1: Option<Buf>
    var newBuffer2: Option<Buf>
    var buffersToWrite: seq<Buf>
    var phase: Phase
    var nextId: nat
    ghost var logged: seq<Message>
    ghost var rounds: seq<seq<Buf>>
    ghost var output: seq<Out>

    ghost function Model(): State
      reads this
    {
      State(currentBuffer, nextBuffer, buffers, newBuffer1, newBuffer2, buffersToWrite, phase, nextId,
            logged, rounds, output)
    }

    constructor ()
      ensures Model() == START && Inv(Model())
    {
      currentBuffer, nextBuffer := Some(Buf(0, "", [])), Some(Buf(1, "", []));
      newBuffer1, newBuffer2 := Some(Buf(2, "", [])), Some(Buf(3, "", []));
      buffers, buffersToWrite, phase, nextId := [], [], AtTop, 4;
      logged, rounds, output := [], [], [];
      new;
      StartKeeps();
    }

    /** A new empty buffer. */
    method NewBuffer() returns (b: Buf)
      modifies this`nextId
      ensures b == Buf(old(nextId), "", []) && nextId == old(nextId) + 1
    {
      b := Buf(nextId, "", []);
      nextId := nextId + 1;
    }

    method Append(msg: Message)
      requires Inv(Model())
      modifies this`currentBuffer, this`nextBuffer, this`buffers, this`nextId, this`logged
      ensures Inv(Model()) && Model() == Step(old(Model()), Event.Append(msg))
    {
      hide Inv, Buf.Append, AfterSwap, AfterDropExcess, AfterWriteNext, AfterRecycle;
      StepKeeps(Model(), Event.Append(msg));
      SuppliedCurrent(Model());
      logged := logged + [msg];
      if CAPACITY - |currentBuffer.value.data| > |msg| {
        currentBuffer := Some(currentBuffer.value.Append(msg));
      } else {
        buffers := buffers + [currentBuffer.value];
        if nextBuffer.Some? {
          currentBuffer, nextBuffer := nextBuffer, None;
        } else {
          var b := NewBuffer();
          currentBuffer := Some(b);
        }
        currentBuffer := Some(currentBuffer.value.Append(msg));
      }
    }

    /** The locked section of threadFunc, after any wait. */
    method SwapBuffers()
      requires Inv(Model()) && Enabled(Model(), Swap)
      modifies this
      ensures Inv(Model()) && Model() == Step(old(Model()), Swap)
    {
      hide Inv, AfterAppend, AfterDropExcess, AfterWriteNext, AfterRecycle;
      StepKeeps(Model(), Swap);
      SuppliedCurrent(Model());
      buffers := buffers + [currentBuffer.value];
      currentBuffer, newBuffer1 := newBuffer1, None;
      buffersToWrite, buffers := buffers, buffersToWrite;
      if nextBuffer.None? {
        nextBuffer, newBuffer2 := newBuffer2, None;
      }
      phase := Taken;
      rounds := rounds + [buffersToWrite];
    }

    method DropExcess()
      requires Inv(Model()) && Enabled(Model(), Event.DropExcess)
      modifies this`buffersToWrite, this`output, this`phase
      ensures Inv(Model()) && Model() == Step(old(Model()), Event.DropExcess)
    {
      hide Inv, AfterAppend, AfterSwap, AfterWriteNext, AfterRecycle;
      StepKeeps(Model(), Event.DropExcess);
      assert buffersToWrite != [] by { SuppliedBatch(Model()); }
      if |buffersToWrite| > MAX_BATCH {
        output := output + [Notice(|buffersToWrite| - 2)];
        buffersToWrite := buffersToWrite[..2];
      }
      phase := Writing(0);
    }

    /** One turn of the writing loop. */
    method WriteNext()
      requires Inv(Model()) && Enabled(Model(), Event.WriteNext)
      modifies this`output, this`phase
      ensures Inv(Model()) && Model() == Step(old(Model()), Event.WriteNext)
    {
      hide Inv, AfterAppend, AfterSwap, AfterDropExcess, AfterRecycle;
      StepKeeps(Model(), Event.WriteNext);
      output := output + [Text(buffersToWrite[phase.i].data)];
      phase := Writing(phase.i + 1);
    }

    method Recycle()
      requires Inv(Model()) && Enabled(Model(), Event.Recycle)
      modifies this`buffersToWrite, this`newBuffer1, this`newBuffer2, this`phase
      ensures Inv(Model()) && Model() == Step(old(Model()), Event.Recycle)
    {
      hide Inv, AfterAppend, AfterSwap, AfterDropExcess, AfterWriteNext, Buf.Reset;
      StepKeeps(Model(), Event.Recycle);
      SuppliedBatch(Model());
      if |buffersToWrite| > 2 {
        buffersToWrite := buffersToWrite[..2];
      }
      if newBuffer1.None? {
        assert buffersToWrite != [];
        newBuffer1 := Some(buffersToWrite[|buffersToWrite| - 1].Reset());
        buffersToWrite := buffersToWrite[..|buffersToWrite| - 1];
      }
      if newBuffer2.None? {
        assert buffersToWrite != [];
        newBuffer2 := Some(buffersToWrite[|buffersToWrite| - 1].Reset());
        buffersToWrite := buffersToWrite[..|buffersToWrite| - 1];
      }
      buffersToWrite := [];
      phase := AtTop;
    }
  }

  /** At every release of the lock there is a buffer to append to, and one in reserve or on its way to the back end. */
  lemma SuppliedCurrent(s: State)
    requires Inv(s)
    ensures s.current.Some? && (s.next.None? ==> s.buffers != [])
    ensures s.phase.AtTop? ==> Empty(s.spare1) && Empty(s.spare2) && s.batch == []
  {
  }

  lemma SuppliedBatch(s: State)
    requires Inv(s) && !s.phase.AtTop?
    ensures s.spare1.None? && |s.batch| >= if s.spare2.None? then 2 else 1
  {
  }
}
