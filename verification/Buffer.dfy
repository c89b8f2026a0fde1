/** The byte buffer of netlib/net/Buffer.h and Buffer.cc. */
module Buffers {
  import opened BigEndian

  const INITIAL_SIZE := 1024
  const CHEAP_PREPEND := 8
  const EXTRA_SIZE := 65536

  // ---- Indexes ----

  /** The size of the storage and the two indexes into it. */
  datatype Layout = Layout(size: nat, reader: nat, writer: nat) {
    predicate Ok() {
      reader <= writer <= size && CHEAP_PREPEND + INITIAL_SIZE <= size
    }

    function Readable(): int {
      writer - reader
    }

    function Writable(): int {
      size - writer
    }

    /** ensureWriteAbleBytes: leave alone, grow, or shift to the front. */
    function Ensure(len: nat): Layout
      requires Ok()
    {
      if Writable() >= len then this
      else if Writable() + reader < len + CHEAP_PREPEND then this.(size := writer + len)
      else Layout(size, CHEAP_PREPEND, CHEAP_PREPEND + Readable())
    }

    function Append(len: nat): Layout
      requires Ok()
    {
      var l := Ensure(len);
      l.(writer := l.writer + len)
    }

    function Retrieve(n: nat): Layout
      requires Ok() && n <= Readable()
    {
      if n < Readable() then this.(reader := reader + n) else Layout(size, CHEAP_PREPEND, CHEAP_PREPEND)
    }

    /** What the kernel can scatter: the free space, and the extra buffer when the space is smaller than it. */
    function Offered(): int {
      Writable() + if Writable() < EXTRA_SIZE then EXTRA_SIZE else 0
    }

    function ReadFd(n: nat): Layout
      requires Ok()
    {
      if n <= Writable() then this.(writer := writer + n)
      else this.(writer := size).Append(n - Writable())
    }

    function Shrink(reserve: nat): Layout
      requires Ok()
    {
      FRESH.Ensure(Readable() + reserve).Append(Readable())
    }
  }

  const FRESH := Layout(CHEAP_PREPEND + INITIAL_SIZE, CHEAP_PREPEND, CHEAP_PREPEND)

  datatype Op = Append(len: nat) | Retrieve(n: nat) | Prepend(len: nat) | UnWrite(len: nat)
              | ReadFd(n: nat) | Shrink(reserve: nat)

  /** The asserts of Buffer.h: what each operation demands of its caller. */
  predicate Legal(l: Layout, op: Op)
  {
    match op
    case Retrieve(n) => n <= l.Readable()
    case Prepend(len) => len <= l.reader
    case UnWrite(len) => len <= l.Readable()
    case ReadFd(n) => n <= l.Offered()
    case _ => true
  }

  function Step(l: Layout, op: Op): (r: Layout)
    requires l.Ok() && Legal(l, op)
    ensures r.Ok()
  {
    match op
    case Append(len) => l.Append(len)
    case Retrieve(n) => l.Retrieve(n)
    case Prepend(len) => l.(reader := l.reader - len)
    case UnWrite(len) => l.(writer := l.writer - len)
    case ReadFd(n) => l.ReadFd(n)
    case Shrink(reserve) => l.Shrink(reserve)
  }

  /** Readable plus requested bytes in the calls to ensureWriteAbleBytes that a step makes. */
  function Demand(l: Layout, op: Op): int
    requires l.Ok() && Legal(l, op)
  {
    match op
    case Append(len) => l.Readable() + len
    case ReadFd(n) => if n <= l.Writable() then 0 else l.size - l.reader + (n - l.Writable())
    case Shrink(reserve) => l.Readable() + reserve
    case _ => 0
  }

  predicate LegalRun(l: Layout, ops: seq<Op>)
    requires l.Ok()
    decreases |ops|
  {
    ops == [] || (Legal(l, ops[0]) && LegalRun(Step(l, ops[0]), ops[1..]))
  }

  function Run(l: Layout, ops: seq<Op>): Layout
    requires l.Ok() && LegalRun(l, ops)
    decreases |ops|
  {
    if ops == [] then l else Run(Step(l, ops[0]), ops[1..])
  }

  function PeakDemand(l: Layout, ops: seq<Op>): int
    requires l.Ok() && LegalRun(l, ops)
    decreases |ops|
  {
    if ops == [] then 0
    else
      var (d, rest) := (Demand(l, ops[0]), PeakDemand(Step(l, ops[0]), ops[1..]));
      if d > rest then d else rest
  }

  /** How much each operation adds to or takes from the content; none loses or invents a byte. */
  lemma StepCounts(l: Layout, op: Op)
    requires l.Ok() && Legal(l, op)
    ensures Step(l, op).Readable() == l.Readable() + match op {
      case Append(len) => len
      case Retrieve(n) => 0 - n
      case Prepend(len) => len
      case UnWrite(len) => 0 - len
      case ReadFd(n) => n
      case Shrink(_) => 0
    }
  {
  }

  predicate Bounded(l: Layout, peak: int) {
    l.size <= CHEAP_PREPEND + INITIAL_SIZE || l.size <= CHEAP_PREPEND + 2 * peak
  }

  /** Over any run the storage stays within twice the largest demand ever made,
      however appends and retrieves interleave. */
  lemma {:induction false} StorageBounded(l: Layout, ops: seq<Op>, peak: int)
    requires l.Ok() && LegalRun(l, ops) && Bounded(l, peak)
    ensures Bounded(Run(l, ops), if peak > PeakDemand(l, ops) then peak else PeakDemand(l, ops))
    decreases |ops|
  {
    if ops != [] {
      var d := Demand(l, ops[0]);
      var peak' := if peak > d then peak else d;
      StepBounded(l, ops[0], peak);
      StorageBounded(Step(l, ops[0]), ops[1..], peak');
    }
  }

  lemma StepBounded(l: Layout, op: Op, peak: int)
    requires l.Ok() && Legal(l, op) && Bounded(l, peak)
    ensures Bounded(Step(l, op), if peak > Demand(l, op) then peak else Demand(l, op))
  {
  }

  /** A fresh buffer never exceeds max(1032, 8 + 2 P), P the largest demand of the run. */
  lemma FreshStorageBounded(ops: seq<Op>)
    requires LegalRun(FRESH, ops)
    ensures Bounded(Run(FRESH, ops), PeakDemand(FRESH, ops))
  {
    StorageBounded(FRESH, ops, 0);
    DemandNotNegative(FRESH, ops);
  }

  lemma {:induction false} DemandNotNegative(l: Layout, ops: seq<Op>)
    requires l.Ok() && LegalRun(l, ops)
    ensures PeakDemand(l, ops) >= 0
    decreases |ops|
  {
    if ops != [] {
      DemandNotNegative(Step(l, ops[0]), ops[1..]);
    }
  }

  /** Nothing moves while there is room; storage grows exactly when the free bytes, less those kept for
      prepending, do not suffice; otherwise the content is shifted back behind these. */
  lemma EnsureOutcome(l: Layout, len: nat)
    requires l.Ok()
    ensures var r := l.Ensure(len);
            && r.Writable() >= len && r.Readable() == l.Readable()
            && (r == l <==> len <= l.Writable())
            && (r.size != l.size <==> len > l.Writable() && l.size - l.Readable() < len + CHEAP_PREPEND)
            && (r.size != l.size ==> r.reader == l.reader && r.Writable() == len)
            && (r != l && r.size == l.size ==> r.reader == CHEAP_PREPEND)
  {
  }

  /** Taking everything rewinds both indexes; taking less leaves the end where it is. */
  lemma RetrieveOutcome(l: Layout, n: nat)
    requires l.Ok() && n <= l.Readable()
    ensures var r := l.Retrieve(n);
            && r.size == l.size
            && (if n == l.Readable() then r.reader == r.writer == CHEAP_PREPEND else r.writer == l.writer)
  {
  }

  /** Shrinking leaves exactly the reserve behind the content, or the initial size. */
  lemma ShrinkOutcome(l: Layout, reserve: nat)
    requires l.Ok()
    ensures var r := l.Shrink(reserve);
            && r.reader == CHEAP_PREPEND
            && (r.Writable() == reserve || (r.size == CHEAP_PREPEND + INITIAL_SIZE && r.Writable() > reserve))
  {
  }

  predicate NoPrepend(ops: seq<Op>) {
    forall i | 0 <= i < |ops| :: !ops[i].Prepend?
  }

  /** Eight bytes can be prepended at any time, until some are. */
  lemma {:induction false} PrependRoom(l: Layout, ops: seq<Op>)
    requires l.Ok() && LegalRun(l, ops) && NoPrepend(ops) && l.reader >= CHEAP_PREPEND
    ensures Legal(Run(l, ops), Prepend(CHEAP_PREPEND))
    decreases |ops|
  {
    if ops != [] {
      assert forall i | 0 <= i < |ops[1..]| :: ops[1..][i] == ops[i + 1];
      PrependRoom(Step(l, ops[0]), ops[1..]);
    }
  }

  /** A read can always take 65536 bytes, and what fits behind the content; the extra buffer is offered only
      when that is less. */
  lemma OffersEnough(l: Layout)
    requires l.Ok()
    ensures l.Offered() >= EXTRA_SIZE && l.Offered() >= l.Writable()
    ensures l.Offered() != l.Writable() <==> l.Writable() < EXTRA_SIZE
  {
  }

  // ---- The buffer ----

  /** s with bytes written over it from position at. */
  function Overlay(s: seq<byte>, at: nat, bytes: seq<byte>): seq<byte>
    requires at + |bytes| <= |s|
  {
    s[..at] + bytes + s[at + |bytes|..]
  }

  lemma OverlayBehind(s: seq<byte>, lo: nat, hi: nat, bytes: seq<byte>)
    requires lo <= hi && hi + |bytes| <= |s|
    ensures Overlay(s, hi, bytes)[lo..hi + |bytes|] == s[lo..hi] + bytes
  {
  }

  lemma OverlayInFront(s: seq<byte>, lo: nat, hi: nat, bytes: seq<byte>)
    requires |bytes| <= lo <= hi <= |s|
    ensures Overlay(s, lo - |bytes|, bytes)[lo - |bytes|..hi] == bytes + s[lo..hi]
  {
  }

  lemma SliceOfPrefix(s: seq<byte>, t: seq<byte>, lo: nat, hi: nat)
    requires lo <= hi <= |s| <= |t| && t[..|s|] == s
    ensures t[lo..hi] == s[lo..hi]
  {
    forall k | lo <= k < hi ensures t[k] == s[k] {
      assert t[..|s|][k] == t[k];
    }
  }

  /** The outcome of readv. */
  datatype ReadResult = Failed(errno: int) | Received(bytes: seq<byte>)

  class Buffer {
    var data: array<byte>
    var readerIndex: nat
    var writerIndex: nat

    ghost predicate Valid()
      reads this
    {
      Indexes().Ok()
    }

    function Indexes(): Layout
      reads this
    {
      Layout(data.Length, readerIndex, writerIndex)
    }

    /** The readable bytes. */
    ghost function Contents(): seq<byte>
      reads this, data
      requires Valid()
    {
      data[..][readerIndex..writerIndex]
    }

    /** The size asked for is not used. */
    constructor (initialSize: nat)
      ensures Valid() && fresh(data) && Indexes() == FRESH && Contents() == []
    {
      data := new byte[CHEAP_PREPEND + INITIAL_SIZE](_ => 0);
      readerIndex, writerIndex := CHEAP_PREPEND, CHEAP_PREPEND;
    }

    function ReadAbleBytes(): nat
      reads this
      requires Valid()
    {
      writerIndex - readerIndex
    }

    function WriteAbleBytes(): nat
      reads this
      requires Valid()
    {
      data.Length - writerIndex
    }

    /** vector::resize to a larger size: the old bytes stay, the new ones are zero. */
    method Resize(size: nat)
      requires data.Length <= size
      modifies this`data
      ensures fresh(data) && data.Length == size && data[..][..old(data.Length)] == old(data[..])
    {
      var grown := new byte[size](_ => 0);
      forall i | 0 <= i < data.Length {
        grown[i] := data[i];
      }
      data := grown;
    }

    /** std::copy of n bytes to a lower position; the ranges may overlap. */
    method MoveDown(from: nat, to: nat, n: nat)
      requires to < from && from + n <= data.Length
      modifies data
      ensures data[..][to..to + n] == old(data[..])[from..from + n]
    {
      var i := 0;
      while i < n
        invariant 0 <= i <= n
        invariant forall k | to <= k < to + i :: data[k] == old(data[k - to + from])
        invariant forall k | from + i <= k < from + n :: data[k] == old(data[k])
      {
        data[to + i] := data[from + i];
        i := i + 1;
      }
    }

    /** Room for len more bytes, by growing or by shifting the readable bytes to the front.
        Only called when there is not enough room behind them. */
    method MakeSpace(len: nat)
      requires Valid() && WriteAbleBytes() < len
      modifies this, data
      ensures Valid() && (data == old(data) || fresh(data))
      ensures Indexes() == old(Indexes().Ensure(len))
      ensures Contents() == old(Contents())
    {
      if WriteAbleBytes() + readerIndex < len + CHEAP_PREPEND {
        ghost var was := data[..];
        Resize(writerIndex + len);
        SliceOfPrefix(was, data[..], readerIndex, writerIndex);
      } else {
        assert CHEAP_PREPEND < readerIndex;
        var readAble := ReadAbleBytes();
        MoveDown(readerIndex, CHEAP_PREPEND, readAble);
        readerIndex := CHEAP_PREPEND;
        writerIndex := readerIndex + readAble;
      }
    }

    method EnsureWriteAbleBytes(len: nat)
      requires Valid()
      modifies this, data
      ensures Valid() && (data == old(data) || fresh(data))
      ensures Indexes() == old(Indexes().Ensure(len)) && WriteAbleBytes() >= len
      ensures Contents() == old(Contents())
    {
      if WriteAbleBytes() < len {
        MakeSpace(len);
      }
    }

    /** std::copy of bytes to data[at..]. */
    method CopyTo(at: nat, bytes: seq<byte>)
      requires at + |bytes| <= data.Length
      modifies data
      ensures data[..] == Overlay(old(data[..]), at, bytes)
    {
      forall i | 0 <= i < |bytes| {
        data[at + i] := bytes[i];
      }
    }

    method Append(bytes: seq<byte>)
      requires Valid()
      modifies this, data
      ensures Valid() && (data == old(data) || fresh(data))
      ensures Indexes() == old(Indexes().Append(|bytes|))
      ensures Contents() == old(Contents()) + bytes
    {
      EnsureWriteAbleBytes(|bytes|);
      OverlayBehind(data[..], readerIndex, writerIndex, bytes);
      hide Overlay;
      CopyTo(writerIndex, bytes);
      HasWritten(|bytes|);
    }

    method HasWritten(len: nat)
      requires Valid() && len <= WriteAbleBytes()
      modifies this`writerIndex
      ensures Valid() && writerIndex == old(writerIndex) + len
    {
      writerIndex := writerIndex + len;
    }

    method UnWrite(len: nat)
      requires Valid() && len <= ReadAbleBytes()
      modifies this`writerIndex
      ensures Valid() && writerIndex == old(writerIndex) - len
      ensures Contents() == old(Contents())[..old(ReadAbleBytes()) - len]
    {
      assert data[..][readerIndex..writerIndex - len] == Contents()[..ReadAbleBytes() - len];
      writerIndex := writerIndex - len;
    }

    method Retrieve(n: nat)
      requires Valid() && n <= ReadAbleBytes()
      modifies this`readerIndex, this`writerIndex
      ensures Valid() && Indexes() == old(Indexes().Retrieve(n))
      ensures Contents() == old(Contents())[n..]
    {
      assert data[..][readerIndex + n..writerIndex] == Contents()[n..];
      if n < ReadAbleBytes() {
        readerIndex := readerIndex + n;
      } else {
        RetrieveAll();
      }
    }

    method RetrieveAll()
      requires Valid()
      modifies this`readerIndex, this`writerIndex
      ensures Valid() && readerIndex == writerIndex == CHEAP_PREPEND
    {
      readerIndex := CHEAP_PREPEND;
      writerIndex := CHEAP_PREPEND;
    }

    method RetrieveAsString(len: nat) returns (s: seq<byte>)
      requires Valid() && len <= ReadAbleBytes()
      modifies this`readerIndex, this`writerIndex
      ensures Valid() && Indexes() == old(Indexes().Retrieve(len))
      ensures old(Contents()) == s + Contents() && |s| == len
    {
      s := data[..][readerIndex..readerIndex + len];
      Retrieve(len);
    }

    method Prepend(bytes: seq<byte>)
      requires Valid() && |bytes| <= readerIndex
      modifies this`readerIndex, data
      ensures Valid() && readerIndex == old(readerIndex) - |bytes|
      ensures Contents() == bytes + old(Contents())
    {
      OverlayInFront(data[..], readerIndex, writerIndex, bytes);
      readerIndex := readerIndex - |bytes|;
      hide Overlay;
      CopyTo(readerIndex, bytes);
    }

    /** Moves the content to a new buffer with just enough room, and takes that buffer's storage. */
    method Shrink(reserve: nat)
      requires Valid()
      modifies this
      ensures Valid() && fresh(data)
      ensures Indexes() == old(Indexes().Shrink(reserve)) && WriteAbleBytes() >= reserve
      ensures Contents() == old(Contents())
    {
      var other := new Buffer(INITIAL_SIZE);
      other.EnsureWriteAbleBytes(ReadAbleBytes() + reserve);
      other.Append(data[..][readerIndex..writerIndex]);
      data, readerIndex, writerIndex := other.data, other.readerIndex, other.writerIndex;
    }

    /** Scatter read: what does not fit behind the content lands in an extra buffer and is appended. */
    method ReadFd(result: ReadResult) returns (n: int, savedErrno: int)
      requires Valid()
      requires result.Received? ==> |result.bytes| <= Indexes().Offered()
      modifies this, data
      ensures Valid() && (data == old(data) || fresh(data))
      ensures result.Failed? ==>
                n == -1 && savedErrno == result.errno && Indexes() == old(Indexes()) && Contents() == old(Contents())
      ensures result.Received? ==>
                && n == |result.bytes| && Indexes() == old(Indexes().ReadFd(|result.bytes|))
                && Contents() == old(Contents()) + result.bytes
    {
      savedErrno := 0;
      match result
      case Failed(errno) =>
        n, savedErrno := -1, errno;
      case Received(bytes) =>
        n := |bytes|;
        var writeAble := WriteAbleBytes();
        if n <= writeAble {
          Received(bytes);
        } else {
          Received(bytes[..writeAble]);
          assert bytes == bytes[..writeAble] + bytes[writeAble..];
          Append(bytes[writeAble..]);
        }
    }

    /** What the kernel writes into the free space, and the index behind it. */
    method Received(bytes: seq<byte>)
      requires Valid() && |bytes| <= WriteAbleBytes()
      modifies this`writerIndex, data
      ensures Valid() && writerIndex == old(writerIndex) + |bytes|
      ensures Contents() == old(Contents()) + bytes
    {
      OverlayBehind(data[..], readerIndex, writerIndex, bytes);
      hide Overlay;
      CopyTo(writerIndex, bytes);
      writerIndex := writerIndex + |bytes|;
    }

    // ---- Typed integers ----

    method AppendInt(x: int, width: nat)
      requires Valid() && FitsWidth(x, width)
      modifies this, data
      ensures Valid() && (data == old(data) || fresh(data))
      ensures Indexes() == old(Indexes().Append(width))
      ensures Contents() == old(Contents()) + ToWire(x, width)
    {
      Append(ToWire(x, width));
    }

    method PrependInt(x: int, width: nat)
      requires Valid() && FitsWidth(x, width) && width <= readerIndex
      modifies this`readerIndex, data
      ensures Valid() && readerIndex == old(readerIndex) - width
      ensures Contents() == ToWire(x, width) + old(Contents())
    {
      Prepend(ToWire(x, width));
    }

    method PeekInt(width: nat) returns (x: int)
      requires Valid() && width <= ReadAbleBytes()
      ensures x == FromWire(Contents()[..width])
    {
      x := FromWire(data[..][readerIndex..readerIndex + width]);
      assert data[..][readerIndex..readerIndex + width] == Contents()[..width];
    }

    method ReadInt(width: nat) returns (x: int)
      requires Valid() && width <= ReadAbleBytes()
      modifies this`readerIndex, this`writerIndex
      ensures Valid() && Indexes() == old(Indexes().Retrieve(width))
      ensures x == FromWire(old(Contents())[..width]) && Contents() == old(Contents())[width..]
    {
      x := PeekInt(width);
      Retrieve(width);
    }
  }
}
