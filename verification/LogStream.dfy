/** Number formatting and the fixed buffer behind it: netlib/base/LogStream.cc and LogStream.h. */
module LogStream {
  import opened CInt
  import opened Numerals

  /** buf[lo..lo + |s|] holds s, last character first. */
  ghost predicate HoldsReversed(buf: array<char>, lo: nat, s: string)
    reads buf
  {
    lo + |s| <= buf.Length && forall k | lo <= k < lo + |s| :: buf[k] == s[|s| - 1 - (k - lo)]
  }

  twostate predicate OutsideUnchanged(buf: array<char>, lo: nat, hi: nat)
    reads buf
  {
    forall k | 0 <= k < buf.Length && !(lo <= k < hi) :: buf[k] == old(buf[k])
  }

  function Abs(v: int): nat {
    if v < 0 then -v else v
  }

  /** zero[lsd]: the digits run down from 9 and up again, so that a negative remainder finds its digit. */
  function ZeroAt(lsd: int): (c: char)
    requires -9 <= lsd <= 9
  {
    "9876543210123456789"[9 + lsd]
  }

  lemma ZeroAtIsDigit(lsd: int)
    requires -9 <= lsd <= 9
    ensures ZeroAt(lsd) == Digit(Abs(lsd))
  {
  }

  /** std::reverse on buf[lo..hi], which holds s reversed. */
  method ReverseRange(buf: array<char>, lo: nat, hi: nat, ghost s: string)
    requires HoldsReversed(buf, lo, s) && hi == lo + |s|
    modifies buf
    ensures OutsideUnchanged(buf, lo, hi)
    ensures buf[lo..hi] == s
  {
    var i, j := lo, hi;
    while i < j
      invariant lo <= i <= hi && j == hi - (i - lo)
      invariant i <= j + 1
      invariant forall k | i <= k < j :: buf[k] == s[|s| - 1 - (k - lo)]
      invariant forall k | lo <= k < hi && (k < i || j <= k) :: buf[k] == s[k - lo]
      invariant OutsideUnchanged(buf, lo, hi)
    {
      j := j - 1;
      buf[i], buf[j] := buf[j], buf[i];
      i := i + 1;
    }
  }

  /** The do-while loop of convert: the digits of |v|, last one first. */
  method PutDigits(buf: array<char>, start: nat, v: int) returns (p: nat)
    requires start + |Numeral(Abs(v), 10)| < buf.Length
    modifies buf
    ensures p == start + |Numeral(Abs(v), 10)| && HoldsReversed(buf, start, Numeral(Abs(v), 10))
    ensures OutsideUnchanged(buf, start, p)
  {
    hide Numeral, Rem, Quo, Abs, ZeroAt, Digit;
    ghost var digits, done := Numeral(Abs(v), 10), "";
    var i, more := v, true;
    p := start;
    while more
      invariant HoldsReversed(buf, start, done) && p == start + |done|
      invariant digits == (if more then Numeral(Abs(i), 10) else "") + done
      invariant OutsideUnchanged(buf, start, p)
      decreases more, Abs(i)
    {
      var lsd := Rem(i, 10);
      PeelDigit(i);
      ZeroAtIsDigit(lsd);
      i := Quo(i, 10);
      buf[p] := ZeroAt(lsd);
      done := [buf[p]] + done;
      p := p + 1;
      more := i != 0;
    }
  }

  /** The decimal of any signed or unsigned 64-bit value, terminated, at buf[start]; v is never negated. */
  method Convert(buf: array<char>, start: nat, v: int) returns (len: nat)
    requires Int64(v) || UInt64(v)
    requires start + 20 < buf.Length
    modifies buf
    ensures len == |Decimal(v)| <= 20
    ensures buf[start..start + len] == Decimal(v) && buf[start + len] == '\0'
    ensures OutsideUnchanged(buf, start, start + len + 1)
  {
    hide Numeral, Decimal, Abs, Int64, UInt64;
    DecimalLength(v);
    DecimalParts(v);
    var p := PutDigits(buf, start, v);
    if v < 0 {
      buf[p] := '-';
      p := p + 1;
    }
    buf[p] := '\0';
    assert HoldsReversed(buf, start, Decimal(v));
    ReverseRange(buf, start, p, Decimal(v));
    len := p - start;
  }

  lemma DecimalParts(v: int)
    ensures Decimal(v) == (if v < 0 then "-" else "") + Numeral(Abs(v), 10)
  {
    hide Numeral;
  }

  /** One step of the loop takes the last digit off the numeral. */
  lemma PeelDigit(i: int)
    ensures -9 <= Rem(i, 10) <= 9 && Abs(Quo(i, 10)) == Abs(i) / 10
    ensures i >= 0 ==> Quo(i, 10) >= 0
    ensures i <= 0 ==> Quo(i, 10) <= 0
    ensures Numeral(Abs(i), 10) == (if Quo(i, 10) != 0 then Numeral(Abs(Quo(i, 10)), 10) else "") + [Digit(Abs(Rem(i, 10)))]
    ensures Quo(i, 10) != 0 ==> Abs(Quo(i, 10)) < Abs(i)
  {
  }

  /** The hexadecimal numeral of an address, terminated, at buf[start]. */
  method ConvertHex(buf: array<char>, start: nat, value: nat) returns (len: nat)
    requires UInt64(value)
    requires start + 16 < buf.Length
    modifies buf
    ensures len == |Numeral(value, 16)| <= 16
    ensures buf[start..start + len] == Numeral(value, 16) && buf[start + len] == '\0'
    ensures OutsideUnchanged(buf, start, start + len + 1)
  {
    hide Numeral, Digit;
    HexLength(value);
    ghost var digits, done := Numeral(value, 16), "";
    var i, p, more := value, start, true;
    while more
      invariant HoldsReversed(buf, start, done) && p == start + |done|
      invariant digits == (if more then Numeral(i, 16) else "") + done
      invariant OutsideUnchanged(buf, start, p)
      decreases more, i
    {
      var lsd := i % 16;
      PeelHexDigit(i);
      i := i / 16;
      buf[p] := Digit(lsd);
      done := [buf[p]] + done;
      p := p + 1;
      more := i != 0;
    }
    buf[p] := '\0';
    assert HoldsReversed(buf, start, digits);
    ReverseRange(buf, start, p, digits);
    len := p - start;
  }

  lemma PeelHexDigit(i: nat)
    ensures Numeral(i, 16) == (if i / 16 != 0 then Numeral(i / 16, 16) else "") + [Digit(i % 16)]
  {
  }

  // ---- The stream ----

  const SMALL_BUFFER := 4000
  const MAX_NUMERIC_SIZE := 32

  /** What one insertion offers to the stream. */
  datatype Item = Integer(v: int) | Pointer(address: nat) | Text(s: string)

  predicate Printable(item: Item) {
    match item
    case Integer(v) => Int64(v) || UInt64(v)
    case Pointer(a) => UInt64(a)
    case Text(_) => true
  }

  function Shown(item: Item): string {
    match item
    case Integer(v) => Decimal(v)
    case Pointer(a) => "0x" + Numeral(a, 16)
    case Text(s) => s
  }

  predicate Fits(used: nat, item: Item) {
    var room := SMALL_BUFFER - used;
    if item.Text? then room > |item.s| else room >= MAX_NUMERIC_SIZE
  }

  /** An insertion appends the whole item or nothing. */
  function Feed(content: string, item: Item): string {
    if Fits(|content|, item) then content + Shown(item) else content
  }

  function FeedAll(items: seq<Item>): string {
    if items == [] then "" else Feed(FeedAll(items[..|items| - 1]), items[|items| - 1])
  }

  function ShownAll(items: seq<Item>): string {
    if items == [] then "" else ShownAll(items[..|items| - 1]) + Shown(items[|items| - 1])
  }

  /** The items that found room. */
  function Kept(items: seq<Item>): seq<Item> {
    if items == [] then []
    else
      var (before, last) := (items[..|items| - 1], items[|items| - 1]);
      Kept(before) + if Fits(|FeedAll(before)|, last) then [last] else []
  }

  lemma ShownLength(item: Item)
    requires Printable(item)
    ensures !item.Text? ==> |Shown(item)| <= 20
  {
    match item
    case Integer(v) => DecimalLength(v);
    case Pointer(a) => HexLength(a);
    case Text(_) =>
  }

  /** Over any run of insertions the stream holds whole items, in order, and never fills up. */
  lemma {:induction false} StreamHoldsWholeItems(items: seq<Item>)
    requires forall item <- items :: Printable(item)
    ensures |FeedAll(items)| < SMALL_BUFFER
    ensures FeedAll(items) == ShownAll(Kept(items))
  {
    if items != [] {
      var before, last := items[..|items| - 1], items[|items| - 1];
      StreamHoldsWholeItems(before);
      ShownLength(last);
      if Fits(|FeedAll(before)|, last) {
        assert (Kept(before) + [last])[..|Kept(before)|] == Kept(before);
      } else {
        assert Kept(before) + [] == Kept(before);
      }
    }
  }

  lemma NothingTooLong(item: Item, used: nat)
    requires used + |Shown(item)| + MAX_NUMERIC_SIZE <= SMALL_BUFFER
    ensures Fits(used, item)
  {
  }

  /** Nothing is dropped while the text stays a numeric field short of the buffer. */
  lemma {:induction false} NothingDropped(items: seq<Item>)
    requires |ShownAll(items)| + MAX_NUMERIC_SIZE <= SMALL_BUFFER
    ensures FeedAll(items) == ShownAll(items) && Kept(items) == items
  {
    hide Shown, Decimal, Numeral;
    if items != [] {
      var before, last := items[..|items| - 1], items[|items| - 1];
      assert ShownAll(items) == ShownAll(before) + Shown(last);
      NothingDropped(before);
      assert Fits(|FeedAll(before)|, last) by { NothingTooLong(last, |ShownAll(before)|); }
      assert items == before + [last];
    }
  }

  /** What is shown can be told from the text: an address is 0x and its hexadecimal numeral. */
  lemma ShownReadsBack(item: Item)
    requires Printable(item)
    ensures match item {
      case Integer(v) => CanonicalDecimal(Shown(item)) && ParseDecimal(Shown(item)) == v
      case Pointer(a) =>
        var s := Shown(item);
        |s| > 2 && s[..2] == "0x" && Canonical(s[2..], 16) && Value(s[2..], 16) == a
      case Text(s) => Shown(item) == s
    }
  {
    match item
    case Integer(v) => DecimalReadsBack(v);
    case Pointer(a) =>
      NumeralReadsBack(a, 16);
      assert Shown(item)[2..] == Numeral(a, 16);
    case Text(_) =>
  }

  /** An item appears whole exactly when its bytes leave one free, and for a number when 32 are free;
      if not, nothing of it does. */
  lemma FeedIff(content: string, item: Item)
    requires Printable(item) && Shown(item) != ""
    ensures Feed(content, item) == content + Shown(item) <==>
            |content| + (if item.Text? then |item.s| + 1 else MAX_NUMERIC_SIZE) <= SMALL_BUFFER
    ensures Feed(content, item) in {content, content + Shown(item)}
  {
    assert |content + Shown(item)| > |content|;
  }

  lemma SliceInThree(s: string, at: nat)
    requires at + 2 <= |s|
    ensures s == s[..at] + [s[at], s[at + 1]] + s[at + 2..]
  {
  }

  /** FixedBuffer<SIZE>: the bytes before `cur` are the content. */
  class FixedBuffer {
    const data: array<char>
    var cur: nat

    ghost predicate Valid()
      reads this
    {
      cur <= data.Length
    }

    ghost function Contents(): string
      reads this, data
      requires Valid()
    {
      data[..cur]
    }

    constructor (size: nat)
      ensures Valid() && fresh(data) && data.Length == size && Contents() == ""
    {
      data := new char[size](_ => '\0');
      cur := 0;
    }

    function Room(): int
      reads this
    {
      data.Length - cur
    }

    /** Copies only when at least one byte stays free. */
    method Append(buf: string)
      requires Valid()
      modifies this, data
      ensures Valid()
      ensures Contents() == old(Contents()) + if old(Room()) > |buf| then buf else ""
    {
      if Room() > |buf| {
        forall i | 0 <= i < |buf| {
          data[cur + i] := buf[i];
        }
        cur := cur + |buf|;
      }
    }

    /** Takes over bytes a formatter has placed after the content. */
    method Add(len: nat)
      requires Valid() && len <= Room()
      modifies this`cur
      ensures Valid() && cur == old(cur) + len
    {
      cur := cur + len;
    }

    method Reset()
      modifies this`cur
      ensures Valid() && Contents() == ""
    {
      cur := 0;
    }
  }

  class Stream {
    const buffer: FixedBuffer

    ghost predicate Valid()
      reads this, buffer
    {
      buffer.Valid() && buffer.data.Length == SMALL_BUFFER && buffer.cur < SMALL_BUFFER
    }

    ghost function Contents(): string
      reads this, buffer, buffer.data
      requires Valid()
    {
      buffer.Contents()
    }

    constructor ()
      ensures Valid() && fresh(buffer) && fresh(buffer.data) && Contents() == FeedAll([])
    {
      buffer := new FixedBuffer(SMALL_BUFFER);
    }

    method PutInteger(v: int)
      requires Valid() && Printable(Integer(v))
      modifies buffer, buffer.data
      ensures Valid() && Contents() == Feed(old(Contents()), Integer(v))
    {
      if buffer.Room() >= MAX_NUMERIC_SIZE {
        hide Decimal, Numeral, Int64, UInt64;
        var len := Convert(buffer.data, buffer.cur, v);
        buffer.Add(len);
      }
    }

    method PutPointer(address: nat)
      requires Valid() && Printable(Pointer(address))
      modifies buffer, buffer.data
      ensures Valid() && Contents() == Feed(old(Contents()), Pointer(address))
    {
      if buffer.Room() >= MAX_NUMERIC_SIZE {
        hide Numeral, UInt64;
        var data, at := buffer.data, buffer.cur;
        data[at], data[at + 1] := '0', 'x';
        var n := ConvertHex(data, at + 2, address);
        assert data[..at] == old(Contents());
        SliceInThree(data[..at + 2 + n], at);
        assert data[..at + 2 + n] == data[..at] + "0x" + data[at + 2..at + 2 + n];
        buffer.Add(2 + n);
      }
    }

    /** Characters, booleans and strings. */
    method PutText(s: string)
      requires Valid()
      modifies buffer, buffer.data
      ensures Valid() && Contents() == Feed(old(Contents()), Text(s))
    {
      buffer.Append(s);
    }
  }
}
