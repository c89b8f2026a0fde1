/** The output path of netlib/net/TcpConnection.cc, on the loop thread. */
module Connection {
  import opened BigEndian
  import opened Interest
  import Buffers

  datatype State = Disconnected | Connecting | Connected | Disconnecting

  /** The outcome of write: a count, EWOULDBLOCK, EPIPE or ECONNRESET, or any other error. */
  datatype WriteResult = Wrote(n: nat) | WouldBlock | Reset | OtherError

  /** What the socket is told. */
  datatype Out = Data(bytes: seq<byte>) | Fin

  /** What is queued to run later in the loop. */
  datatype Notice = WriteComplete | HighWater(n: nat) | ForceCloseInLoop

  /** Which callbacks are set, and the high-water mark. */
  datatype Config = Config(onComplete: bool, onHighWater: bool, highWaterMark: nat)

  /** The connection as a value. `wire`, `accepted`, `asked` and `notices` are its history: what the socket
      was told, the bytes of the messages taken on, whether shutdown was called, what was queued. */
  datatype Conn = Conn(state: State, events: Mask, output: seq<byte>,
                       wire: seq<Out>, accepted: seq<byte>, asked: bool, notices: seq<Notice>)

  const START := Conn(Connecting, NON_EVENT, [], [], [], false, [])

  /** A write never takes more than it is given. */
  function Taken(r: WriteResult, size: nat): (n: nat)
    ensures n <= size
  {
    if !r.Wrote? then 0 else if r.n <= size then r.n else size
  }

  function Queued(c: Conn, condition: bool, notice: Notice): Conn {
    if condition then c.(notices := c.notices + [notice]) else c
  }

  // ---- The steps ----

  /** The direct write of sendInLoop. */
  function Direct(c: Conn, config: Config, message: seq<byte>, r: WriteResult): Conn {
    if r.Wrote? then
      var n := Taken(r, |message|);
      Queued(c.(wire := c.wire + [Data(message[..n])]), n == |message| && config.onComplete, WriteComplete)
    else c
  }

  /** Keeping what was not written. */
  function Keep(c: Conn, config: Config, rest: seq<byte>): Conn {
    if rest == [] then c
    else
      var len := |c.output| + |rest|;
      var high := len >= config.highWaterMark && |c.output| < config.highWaterMark && config.onHighWater;
      var d := Queued(c, high, HighWater(len)).(output := c.output + rest);
      if IsWriting(c.events) then d else d.(events := Changed(c.events, EnableWriting))
  }

  function AfterSend(c: Conn, config: Config, message: seq<byte>, r: WriteResult): Conn {
    if c.state == Disconnected then c
    else if IsWriting(c.events) || c.output != [] then
      Keep(c, config, message).(accepted := c.accepted + message)
    else if r.Reset? then c
    else
      Keep(Direct(c, config, message, r), config, message[Taken(r, |message|)..]).(accepted := c.accepted + message)
  }

  function AfterShutdown(c: Conn): Conn {
    if IsWriting(c.events) then c else c.(wire := c.wire + [Fin])
  }

  function AfterWritable(c: Conn, config: Config, r: WriteResult): Conn {
    var n := Taken(r, |c.output|);
    if !IsWriting(c.events) || !r.Wrote? || n == 0 then c
    else
      var d := c.(wire := c.wire + [Data(c.output[..n])], output := c.output[n..]);
      if d.output != [] then d
      else
        var e := Queued(d.(events := Changed(d.events, DisableWriting)), config.onComplete, WriteComplete);
        if e.state == Disconnecting then AfterShutdown(e) else e
  }

  datatype Event = Establish
                 | Send(message: seq<byte>, r: WriteResult)
                 | Writable(w: WriteResult)
                 | Shutdown
                 | ForceClose
                 | SetReading(on: bool)

  function Step(c: Conn, config: Config, event: Event): Conn {
    match event
    case Establish =>
      if c.state == Connecting then c.(state := Connected, events := Changed(c.events, EnableReading)) else c
    case Send(message, r) => if c.state == Connected then AfterSend(c, config, message, r) else c
    case Writable(w) => AfterWritable(c, config, w)
    case Shutdown => if c.state == Connected then AfterShutdown(c.(state := Disconnecting, asked := true)) else c
    case ForceClose =>
      if c.state == Connected || c.state == Disconnecting
      then c.(state := Disconnecting, notices := c.notices + [ForceCloseInLoop])
      else c
    case SetReading(on) => c.(events := Changed(c.events, if on then EnableReading else DisableReading))
  }

  function Run(c: Conn, config: Config, events: seq<Event>): Conn
    decreases |events|
  {
    if events == [] then c else Run(Step(c, config, events[0]), config, events[1..])
  }

  // ---- What every run keeps ----

  function Payload(wire: seq<Out>): seq<byte> {
    if wire == [] then []
    else
      var (before, last) := (Payload(wire[..|wire| - 1]), wire[|wire| - 1]);
      if last.Data? then before + last.bytes else before
  }

  predicate Finished(wire: seq<Out>) {
    wire != [] && wire[|wire| - 1].Fin?
  }

  /** At most one FIN, and nothing after it. */
  predicate FinIsLast(wire: seq<Out>) {
    forall i | 0 <= i < |wire| - 1 :: wire[i].Data?
  }

  predicate Inv(c: Conn) {
    && Payload(c.wire) + c.output == c.accepted
    && (IsWriting(c.events) <==> c.output != [])
    && FinIsLast(c.wire)
    && (Finished(c.wire) ==> c.state == Disconnecting && c.output == [])
    && (c.asked ==> c.state == Disconnecting && (c.output == [] ==> Finished(c.wire)))
  }

  lemma WireAppend(wire: seq<Out>, out: Out)
    requires FinIsLast(wire) && !Finished(wire)
    ensures FinIsLast(wire + [out]) && (Finished(wire + [out]) <==> out.Fin?)
    ensures Payload(wire + [out]) == Payload(wire) + if out.Data? then out.bytes else []
  {
    assert (wire + [out])[..|wire|] == wire;
  }

  lemma KeepKeeps(c: Conn, config: Config, rest: seq<byte>)
    requires FinIsLast(c.wire) && !Finished(c.wire) && !c.asked && (IsWriting(c.events) <==> c.output != [])
    requires Payload(c.wire) + c.output + rest == c.accepted
    ensures Inv(Keep(c, config, rest))
  {
    hide IsWriting, Changed, Payload, Finished, FinIsLast;
    ChangedBits(c.events, EnableWriting);
    assert Payload(c.wire) + c.output + rest == Payload(c.wire) + (c.output + rest);
  }

  lemma DirectKeeps(c: Conn, config: Config, message: seq<byte>, r: WriteResult)
    requires Inv(c) && c.state == Connected && c.output == []
    ensures var d := Direct(c, config, message, r);
            && d == c.(wire := d.wire, notices := d.notices)
            && FinIsLast(d.wire) && !Finished(d.wire)
            && Payload(d.wire) + message[Taken(r, |message|)..] == c.accepted + message
  {
    hide IsWriting, Payload, Finished, FinIsLast;
    var n := Taken(r, |message|);
    WrittenPlusRest(c.accepted, message, n);
    assert Payload(c.wire) + [] == Payload(c.wire);
    if r.Wrote? {
      WireAppend(c.wire, Data(message[..n]));
    }
  }

  lemma SendKeeps(c: Conn, config: Config, message: seq<byte>, r: WriteResult)
    requires Inv(c) && c.state == Connected
    ensures Inv(AfterSend(c, config, message, r))
  {
    hide IsWriting, Changed, Payload, Finished, FinIsLast, Keep, Direct;
    var all := c.accepted + message;
    if c.output != [] {
      KeepKeeps(c.(accepted := all), config, message);
      KeepHistory(c, config, message, all);
    } else if !r.Reset? {
      var d := Direct(c, config, message, r);
      DirectKeeps(c, config, message, r);
      var rest := message[Taken(r, |message|)..];
      assert Payload(d.wire) + [] + rest == all;
      KeepKeeps(d.(accepted := all), config, rest);
      KeepHistory(d, config, rest, all);
    }
  }

  lemma KeepNothing(c: Conn, config: Config)
    ensures Keep(c, config, []) == c
  {
  }

  lemma DirectReset(c: Conn, config: Config, message: seq<byte>, r: WriteResult)
    ensures r.Reset? ==> Direct(c, config, message, r) == c
    ensures Direct(c, config, message, r).accepted == c.accepted
  {
  }

  lemma KeepHistory(c: Conn, config: Config, rest: seq<byte>, all: seq<byte>)
    ensures Keep(c.(accepted := all), config, rest) == Keep(c, config, rest).(accepted := all)
  {
    hide Changed, IsWriting, Queued;
    QueuedHistory(c, all);
  }

  lemma QueuedHistory(c: Conn, all: seq<byte>)
    ensures forall run, f :: Queued(c.(accepted := all), run, f) == Queued(c, run, f).(accepted := all)
  {
  }

  lemma WritableKeeps(c: Conn, config: Config, r: WriteResult)
    requires Inv(c)
    ensures Inv(AfterWritable(c, config, r))
  {
    hide IsWriting, Changed, Payload, Finished, FinIsLast;
    var n := Taken(r, |c.output|);
    if IsWriting(c.events) && r.Wrote? && n > 0 {
      var data := Data(c.output[..n]);
      ChangedBits(c.events, DisableWriting);
      WireAppend(c.wire, data);
      WireAppend(c.wire + [data], Fin);
      WrittenPlusRest(Payload(c.wire), c.output, n);
    }
  }

  lemma WrittenPlusRest(sent: seq<byte>, output: seq<byte>, n: nat)
    requires n <= |output|
    ensures sent + output[..n] + output[n..] == sent + output
  {
  }

  lemma StepKeeps(c: Conn, config: Config, event: Event)
    requires Inv(c)
    ensures Inv(Step(c, config, event))
  {
    hide IsWriting, Changed, Payload, Finished, FinIsLast, AfterSend, AfterWritable;
    match event
    case Send(message, r) =>
      if c.state == Connected {
        SendKeeps(c, config, message, r);
      }
    case Writable(w) => WritableKeeps(c, config, w);
    case Shutdown =>
      if c.state == Connected {
        WireAppend(c.wire, Fin);
      }
    case Establish => ChangedBits(c.events, EnableReading);
    case SetReading(on) => ChangedBits(c.events, if on then EnableReading else DisableReading);
    case ForceClose =>
  }

  /** Over any run of sends, short or failed writes, writable events and shutdowns: the wire and the output buffer
      together are the accepted messages in order; write interest is on exactly while output waits; FIN is sent
      at most once, with nothing buffered and nothing after it; and a requested FIN is never forgotten. */
  lemma {:induction false} RunKeeps(c: Conn, config: Config, events: seq<Event>)
    requires Inv(c)
    ensures Inv(Run(c, config, events))
    decreases |events|
  {
    if events != [] {
      StepKeeps(c, config, events[0]);
      RunKeeps(Step(c, config, events[0]), config, events[1..]);
    }
  }

  lemma EveryRunDelivers(config: Config, events: seq<Event>)
    ensures Inv(Run(START, config, events))
  {
    hide Changed;
    RunKeeps(START, config, events);
  }

  /** Once FIN is out the socket is told nothing more, whatever follows. */
  lemma {:induction false} SilentAfterFin(c: Conn, config: Config, events: seq<Event>)
    requires Inv(c) && Finished(c.wire)
    ensures Run(c, config, events).wire == c.wire
    decreases |events|
  {
    if events != [] {
      StepKeeps(c, config, events[0]);
      SilentAfterFin(Step(c, config, events[0]), config, events[1..]);
    }
  }

  lemma StepGrows(c: Conn, config: Config, event: Event)
    ensures c.wire <= Step(c, config, event).wire && c.accepted <= Step(c, config, event).accepted
  {
    hide IsWriting, Changed;
  }

  /** What has been told to the socket and what is accepted only grow. */
  lemma {:induction false} HistoryGrows(c: Conn, config: Config, events: seq<Event>)
    ensures c.wire <= Run(c, config, events).wire && c.accepted <= Run(c, config, events).accepted
    decreases |events|
  {
    if events != [] {
      StepGrows(c, config, events[0]);
      hide Step;
      HistoryGrows(Step(c, config, events[0]), config, events[1..]);
    }
  }

  /** A message is accepted unless the connection is not up or the direct write was reset. */
  lemma AcceptedIff(c: Conn, config: Config, message: seq<byte>, r: WriteResult)
    requires Inv(c) && message != []
    ensures Step(c, config, Send(message, r)).accepted == c.accepted + message <==>
            c.state == Connected && (r.Reset? ==> c.output != [])
    ensures Step(c, config, Send(message, r)).accepted in {c.accepted, c.accepted + message}
  {
    assert |c.accepted + message| > |c.accepted|;
  }

  /** What a step queues, told by the output buffer before and after it: write-complete when a direct write
      leaves nothing over or the buffer drains, high-water when the buffer grows across the mark;
      and the close that forceClose asks for. */
  lemma NoticesExactly(c: Conn, config: Config, event: Event)
    requires Inv(c)
    ensures var d := Step(c, config, event);
            var complete := config.onComplete && d.output == [] &&
              match event {
                case Send(_, r) => c.state == Connected && c.output == [] && r.Wrote?
                case Writable(_) => c.output != []
                case _ => false
              };
            var high := config.onHighWater && |c.output| < config.highWaterMark <= |d.output|;
            var close := event.ForceClose? && (c.state == Connected || c.state == Disconnecting);
            d.notices == c.notices + (if complete then [WriteComplete] else [])
                                   + (if high then [HighWater(|d.output|)] else [])
                                   + (if close then [ForceCloseInLoop] else [])
  {
    hide IsWriting, Changed, Payload, Finished, FinIsLast, AfterSend, AfterWritable;
    match event
    case Send(message, r) =>
      if c.state == Connected {
        SendNotices(c, config, message, r);
      }
    case Writable(w) => WritableNotices(c, config, w);
    case _ =>
  }

  lemma SendNotices(c: Conn, config: Config, message: seq<byte>, r: WriteResult)
    requires (IsWriting(c.events) <==> c.output != []) && c.state != Disconnected
    ensures var d := AfterSend(c, config, message, r);
            var complete := config.onComplete && d.output == [] && c.output == [] && r.Wrote?;
            var high := config.onHighWater && |c.output| < config.highWaterMark <= |d.output|;
            d.notices == c.notices + (if complete then [WriteComplete] else [])
                                   + (if high then [HighWater(|d.output|)] else [])
  {
    hide IsWriting, Changed;
  }

  lemma WritableNotices(c: Conn, config: Config, w: WriteResult)
    requires IsWriting(c.events) <==> c.output != []
    ensures var d := AfterWritable(c, config, w);
            && |d.output| <= |c.output|
            && d.notices == c.notices
               + if config.onComplete && d.output == [] && c.output != [] then [WriteComplete] else []
  {
    hide IsWriting, Changed;
  }

  // ---- What reaches the socket ----

  /** The bytes a write takes leave the buffer for the wire; a write that fails changes nothing. */
  lemma WritableTakes(c: Conn, config: Config, w: WriteResult)
    requires Inv(c) && (w.Wrote? ==> w.n <= |c.output|)
    ensures var d := Step(c, config, Writable(w));
            if w.Wrote? then Payload(d.wire) == Payload(c.wire) + c.output[..w.n] && d.output == c.output[w.n..]
            else d == c
  {
    hide Changed, IsWriting, Payload, FinIsLast, Finished;
    if w.Wrote? && w.n > 0 {
      WireAppend(c.wire, Data(c.output[..w.n]));
      WireAppend(c.wire + [Data(c.output[..w.n])], Fin);
    }
    assert Payload(c.wire) + [] == Payload(c.wire);
  }

  /** Unless the connection is up nothing is sent. A message goes behind what waits; with nothing waiting, what the direct write takes of it is on the wire
      and the rest waits; a reset drops it. */
  lemma SendTakes(c: Conn, config: Config, message: seq<byte>, r: WriteResult)
    requires Inv(c) && (r.Wrote? ==> r.n <= |message|)
    ensures var d := Step(c, config, Send(message, r));
            if c.state != Connected then d == c
            else if c.output != [] then d.wire == c.wire && d.output == c.output + message
            else if r.Wrote? then Payload(d.wire) == Payload(c.wire) + message[..r.n] && d.output == message[r.n..]
            else if r.Reset? then d == c
            else d.wire == c.wire && d.output == message
  {
    hide Changed, IsWriting, Payload, FinIsLast, Finished;
    if c.state == Connected && c.output == [] && r.Wrote? {
      WireAppend(c.wire, Data(message[..r.n]));
    }
    assert message[0..] == message;
  }

  /** FIN goes out exactly when a shutdown finds nothing waiting, or the buffer drains in a connection
      that is going down. */
  lemma FinExactly(c: Conn, config: Config, event: Event)
    requires Inv(c)
    ensures var d := Step(c, config, event);
            Finished(d.wire) <==>
              Finished(c.wire) ||
              (d.output == [] && ((event.Shutdown? && c.state == Connected)
                                  || (event.Writable? && c.output != [] && c.state == Disconnecting)))
  {
    hide IsWriting, Changed, Payload, FinIsLast, AfterSend;
    match event
    case Send(message, r) =>
      if c.state == Connected {
        SendNoFin(c, config, message, r);
      }
    case _ => ChangedBits(c.events, DisableWriting);
  }

  lemma SendNoFin(c: Conn, config: Config, message: seq<byte>, r: WriteResult)
    requires !Finished(c.wire)
    ensures !Finished(AfterSend(c, config, message, r).wire)
  {
    hide IsWriting, Changed;
  }

  /** How much the writes of a run take, if there is as much. */
  function Capacity(events: seq<Event>): nat {
    if events == [] then 0
    else (if events[0].Writable? && events[0].w.Wrote? then events[0].w.n else 0) + Capacity(events[1..])
  }

  predicate NoSend(events: seq<Event>) {
    forall i | 0 <= i < |events| :: !events[i].Send?
  }

  lemma {:induction false} OutputShrinks(c: Conn, config: Config, events: seq<Event>)
    requires Inv(c) && NoSend(events)
    ensures |Run(c, config, events).output| == if Capacity(events) < |c.output| then |c.output| - Capacity(events) else 0
    decreases |events|
  {
    if events != [] {
      assert forall i | 0 <= i < |events[1..]| :: events[1..][i] == events[i + 1];
      var d := Step(c, config, events[0]);
      StepKeeps(c, config, events[0]);
      StepShrinks(c, config, events[0]);
      hide Inv, Step;
      OutputShrinks(d, config, events[1..]);
    }
  }

  lemma StepShrinks(c: Conn, config: Config, event: Event)
    requires Inv(c) && !event.Send?
    ensures var n := if event.Writable? && event.w.Wrote? then event.w.n else 0;
            |Step(c, config, event).output| == if n < |c.output| then |c.output| - n else 0
  {
    hide Changed, Payload, FinIsLast, Finished, IsWriting;
  }

  /** Once writes have taken all that waited, with no send between, the buffer is empty, write interest is off,
      everything accepted is on the wire, and a FIN that was asked for is out. */
  lemma Drains(c: Conn, config: Config, events: seq<Event>)
    requires Inv(c) && NoSend(events) && Capacity(events) >= |c.output|
    ensures var d := Run(c, config, events);
            && d.output == [] && !IsWriting(d.events) && Payload(d.wire) == d.accepted == c.accepted
            && (d.asked ==> Finished(d.wire))
  {
    OutputShrinks(c, config, events);
    RunKeeps(c, config, events);
    NoSendAccepts(c, config, events);
    hide Payload, Finished, FinIsLast, IsWriting, NoSend, Run;
    assert Payload(Run(c, config, events).wire) + [] == Payload(Run(c, config, events).wire);
  }

  lemma {:induction false} NoSendAccepts(c: Conn, config: Config, events: seq<Event>)
    requires NoSend(events)
    ensures Run(c, config, events).accepted == c.accepted
    decreases |events|
  {
    if events != [] {
      hide IsWriting, Changed;
      assert forall i | 0 <= i < |events[1..]| :: events[1..][i] == events[i + 1];
      NoSendAccepts(Step(c, config, events[0]), config, events[1..]);
    }
  }

  // ---- The state ----

  predicate Takes(event: Event) {
    event.Shutdown? || event.ForceClose?
  }

  predicate Established(events: seq<Event>) {
    exists i :: 0 <= i < |events| && events[i].Establish?
  }

  /** Some shutdown or forced close comes after an establishment. */
  predicate TakenDown(events: seq<Event>) {
    exists i, j :: 0 <= i < j < |events| && events[i].Establish? && Takes(events[j])
  }

  lemma {:induction false} RunSnoc(c: Conn, config: Config, events: seq<Event>, event: Event)
    ensures Run(c, config, events + [event]) == Step(Run(c, config, events), config, event)
    decreases |events|
  {
    hide Step;
    if events == [] {
      assert [event][1..] == [] && events + [event] == [event];
    } else {
      RunSnoc(Step(c, config, events[0]), config, events[1..], event);
      assert (events + [event])[1..] == events[1..] + [event];
    }
  }

  lemma LastDecides(before: seq<Event>, last: Event)
    ensures Established(before + [last]) <==> Established(before) || last.Establish?
    ensures TakenDown(before + [last]) <==> TakenDown(before) || (Established(before) && Takes(last))
  {
    var events := before + [last];
    assert forall i | 0 <= i < |before| :: events[i] == before[i];
    assert events[|before|] == last;
    hide Takes;
  }

  /** Over every run: connected from the establishment to the first shutdown or forced close after it. */
  lemma {:induction false} StateIs(config: Config, events: seq<Event>)
    ensures Run(START, config, events).state ==
            if !Established(events) then Connecting else if TakenDown(events) then Disconnecting else Connected
    decreases |events|
  {
    if events != [] {
      var before, last := events[..|events| - 1], events[|events| - 1];
      assert events == before + [last];
      StateIs(config, before);
      RunSnoc(START, config, before, last);
      LastDecides(before, last);
      StepState(Run(START, config, before), config, last);
      hide Step, Run, Established, TakenDown;
      NeverDownUnestablished(before);
    }
  }

  lemma NeverDownUnestablished(events: seq<Event>)
    ensures TakenDown(events) ==> Established(events)
  {
  }

  lemma StepState(c: Conn, config: Config, event: Event)
    requires c.state != Disconnected
    ensures Step(c, config, event).state ==
            if event.Establish? && c.state == Connecting then Connected
            else if Takes(event) && c.state == Connected then Disconnecting
            else c.state
  {
    hide IsWriting, Changed;
  }

  /** A FIN is asked for exactly when some shutdown finds the connection up. */
  lemma {:induction false} AskedIff(config: Config, events: seq<Event>)
    ensures Run(START, config, events).asked <==>
            exists j :: 0 <= j < |events| && events[j].Shutdown? && Run(START, config, events[..j]).state == Connected
    decreases |events|
  {
    if events != [] {
      var n := |events| - 1;
      var before, last := events[..n], events[n];
      assert events == before + [last];
      AskedIff(config, before);
      RunSnoc(START, config, before, last);
      StepAsked(Run(START, config, before), config, last);
      hide Step, Run;
      assert forall j | 0 <= j < n :: events[..j] == before[..j];
    }
  }

  lemma StepAsked(c: Conn, config: Config, event: Event)
    ensures Step(c, config, event).asked <==> c.asked || (event.Shutdown? && c.state == Connected)
  {
    hide IsWriting, Changed;
  }

  /** Reading is on from the establishment, and as the last change of it says. */
  lemma ReadingIs(c: Conn, config: Config, event: Event)
    ensures IsReading(Step(c, config, event).events) ==
            match event {
              case Establish => c.state == Connecting || IsReading(c.events)
              case SetReading(on) => on
              case _ => IsReading(c.events)
            }
  {
    hide IsWriting, IsReading, Changed;
    ChangedBits(c.events, EnableReading);
    ChangedBits(c.events, DisableReading);
    ChangedBits(c.events, EnableWriting);
    ChangedBits(c.events, DisableWriting);
  }

  // ---- The object ----

  class TcpConnection {
    const config: Config
    const outputBuffer: Buffers.Buffer
    var state: State
    var events: Mask
    ghost var wire: seq<Out>
    ghost var accepted: seq<byte>
    ghost var asked: bool
    ghost var notices: seq<Notice>

    ghost predicate Valid()
      reads this, outputBuffer
    {
      outputBuffer.Valid()
    }

    ghost function Model(): Conn
      reads this, outputBuffer, outputBuffer.data
      requires Valid()
    {
      Conn(state, events, outputBuffer.Contents(), wire, accepted, asked, notices)
    }

    constructor (config: Config)
      ensures Valid() && fresh(outputBuffer) && fresh(outputBuffer.data)
      ensures this.config == config && Model() == START
    {
      this.config := config;
      outputBuffer := new Buffers.Buffer(Buffers.INITIAL_SIZE);
      state, events := Connecting, NON_EVENT;
      wire, accepted, asked, notices := [], [], false, [];
    }

    method ConnectEstablished()
      requires Valid() && state == Connecting
      modifies this`state, this`events
      ensures Valid() && Model() == Step(old(Model()), config, Establish)
    {
      state := Connected;
      events := Changed(events, EnableReading);
    }

    method QueueInLoop(notice: Notice)
      modifies this`notices
      ensures notices == old(notices) + [notice]
    {
      notices := notices + [notice];
    }

    /** The first half of sendInLoop: with nothing waiting, write right away. r is what write answers. */
    method WriteDirectly(message: seq<byte>, r: WriteResult) returns (nwrote: nat, faultError: bool)
      requires Valid()
      modifies this`wire, this`notices
      ensures Valid() && nwrote == Taken(r, |message|) && faultError == r.Reset?
      ensures Model() == Direct(old(Model()), config, message, r)
    {
      nwrote, faultError := Taken(r, |message|), false;
      if r.Wrote? {
        wire := wire + [Data(message[..nwrote])];
        if nwrote == |message| && config.onComplete {
          QueueInLoop(WriteComplete);
        }
      } else if r.Reset? {
        faultError := true;
      }
    }

    /** The second half: what is left over goes behind the output buffer. */
    method KeepRest(rest: seq<byte>)
      requires Valid() && rest != []
      modifies this`events, this`notices, outputBuffer, outputBuffer.data
      ensures Valid() && (outputBuffer.data == old(outputBuffer.data) || fresh(outputBuffer.data))
      ensures Model() == Keep(old(Model()), config, rest)
    {
      hide Changed, IsWriting;
      var oldLen := outputBuffer.ReadAbleBytes();
      if oldLen + |rest| >= config.highWaterMark && oldLen < config.highWaterMark && config.onHighWater {
        QueueInLoop(HighWater(oldLen + |rest|));
      }
      outputBuffer.Append(rest);
      if !IsWriting(events) {
        events := Changed(events, EnableWriting);
      }
    }

    method SendInLoop(message: seq<byte>, r: WriteResult)
      requires Valid()
      modifies this, outputBuffer, outputBuffer.data
      ensures Valid() && (outputBuffer.data == old(outputBuffer.data) || fresh(outputBuffer.data))
      ensures Model() == AfterSend(old(Model()), config, message, r)
    {
      hide Changed, IsWriting, Direct, Keep;
      KeepNothing(Model(), config);
      var nwrote, faultError := 0, false;
      if state == Disconnected {
        return;
      }
      if !IsWriting(events) && outputBuffer.ReadAbleBytes() == 0 {
        nwrote, faultError := WriteDirectly(message, r);
        DirectReset(old(Model()), config, message, r);
        KeepNothing(Model(), config);
      }
      var remaining := |message| - nwrote;
      assert 0 <= remaining <= |message|;
      assert message[0..] == message;
      assert remaining == 0 ==> message[nwrote..] == [];
      KeepNothing(Model(), config);
      if !faultError {
        if remaining > 0 {
          KeepRest(message[nwrote..]);
        }
        accepted := accepted + message;
      }
    }

    method Send(message: seq<byte>, r: WriteResult)
      requires Valid()
      modifies this, outputBuffer, outputBuffer.data
      ensures Valid() && (outputBuffer.data == old(outputBuffer.data) || fresh(outputBuffer.data))
      ensures Model() == Step(old(Model()), config, Event.Send(message, r))
    {
      if state == Connected {
        SendInLoop(message, r);
      }
    }

    method ShutdownInLoop()
      requires Valid()
      modifies this`wire
      ensures Valid() && Model() == AfterShutdown(old(Model()))
    {
      if !IsWriting(events) {
        wire := wire + [Fin];
      }
    }

    method Shutdown()
      requires Valid()
      modifies this`state, this`wire, this`asked
      ensures Valid() && Model() == Step(old(Model()), config, Event.Shutdown)
    {
      if state == Connected {
        state := Disconnecting;
        asked := true;
        ShutdownInLoop();
      }
    }

    method ForceClose()
      requires Valid()
      modifies this`state, this`notices
      ensures Valid() && Model() == Step(old(Model()), config, Event.ForceClose)
    {
      if state == Connected || state == Disconnecting {
        state := Disconnecting;
        QueueInLoop(ForceCloseInLoop);
      }
    }

    method HandleWrite(r: WriteResult)
      requires Valid()
      modifies this, outputBuffer, outputBuffer.data
      ensures Valid() && (outputBuffer.data == old(outputBuffer.data) || fresh(outputBuffer.data))
      ensures Model() == Step(old(Model()), config, Writable(r))
    {
      hide Changed, IsWriting;
      if IsWriting(events) {
        var n := Taken(r, outputBuffer.ReadAbleBytes());
        if r.Wrote? && n > 0 {
          wire := wire + [Data(outputBuffer.Contents()[..n])];
          outputBuffer.Retrieve(n);
          if outputBuffer.ReadAbleBytes() == 0 {
            events := Changed(events, DisableWriting);
            if config.onComplete {
              QueueInLoop(WriteComplete);
            }
            if state == Disconnecting {
              ShutdownInLoop();
            }
          }
        }
      }
    }

    method SetReading(on: bool)
      requires Valid()
      modifies this`events
      ensures Valid() && Model() == Step(old(Model()), config, Event.SetReading(on))
    {
      events := Changed(events, if on then EnableReading else DisableReading);
    }
  }
}
