/** Network byte order for the typed integers of netlib/net/Buffer.h. */
module BigEndian {
  type byte = x: int | 0 <= x < 256

  function Power256(k: nat): nat {
    if k == 0 then 1 else 256 * Power256(k - 1)
  }

  /** An unsigned value, most significant byte first. */
  function Encode(u: nat, width: nat): (bs: seq<byte>)
    ensures |bs| == width
  {
    if width == 0 then [] else Encode(u / 256, width - 1) + [u % 256]
  }

  function Decode(bs: seq<byte>): nat {
    if bs == [] then 0 else Decode(bs[..|bs| - 1]) * 256 + bs[|bs| - 1]
  }

  lemma {:induction false} DecodeEncode(u: nat, width: nat)
    requires u < Power256(width)
    ensures Decode(Encode(u, width)) == u
  {
    if width > 0 {
      DecodeEncode(u / 256, width - 1);
      assert Encode(u, width)[..width - 1] == Encode(u / 256, width - 1);
    }
  }

  lemma {:induction false} EncodeDecode(bs: seq<byte>)
    ensures Decode(bs) < Power256(|bs|) && Encode(Decode(bs), |bs|) == bs
  {
    if bs != [] {
      var high, low := bs[..|bs| - 1], bs[|bs| - 1];
      EncodeDecode(high);
      assert Decode(bs) / 256 == Decode(high) && Decode(bs) % 256 == low;
      assert bs == high + [low];
    }
  }

  // ---- Two's complement ----

  predicate FitsWidth(x: int, width: nat) {
    0 <= 2 * x + Power256(width) && 2 * x < Power256(width)
  }

  function ToWire(x: int, width: nat): (bs: seq<byte>)
    requires FitsWidth(x, width)
    ensures |bs| == width
  {
    Encode(if x < 0 then x + Power256(width) else x, width)
  }

  function FromWire(bs: seq<byte>): int {
    var u := Decode(bs);
    if 2 * u >= Power256(|bs|) then u - Power256(|bs|) else u
  }

  /** Every value that fits reads back, and every byte string is the encoding of what it reads as. */
  lemma WireRoundTrip(x: int, width: nat)
    requires FitsWidth(x, width)
    ensures FromWire(ToWire(x, width)) == x
  {
    DecodeEncode(if x < 0 then x + Power256(width) else x, width);
  }

  lemma WireIsComplete(bs: seq<byte>)
    requires bs != []
    ensures FitsWidth(FromWire(bs), |bs|) && ToWire(FromWire(bs), |bs|) == bs
  {
    EncodeDecode(bs);
  }

  /** The first byte is the most significant. */
  lemma {:induction false} FirstByteCounts(first: byte, rest: seq<byte>)
    ensures Decode([first] + rest) == first * Power256(|rest|) + Decode(rest)
  {
    var bs := [first] + rest;
    if rest != [] {
      var n := |rest| - 1;
      assert bs[..|bs| - 1] == [first] + rest[..n] && bs[|bs| - 1] == rest[n];
      FirstByteCounts(first, rest[..n]);
      assert Power256(|rest|) == 256 * Power256(n);
    } else {
      assert bs[..0] == [];
    }
  }

  /** A value is negative exactly when the top bit of the first byte is set. */
  lemma SignBit(bs: seq<byte>)
    requires bs != []
    ensures FromWire(bs) < 0 <==> bs[0] >= 128
  {
    var rest := bs[1..];
    EncodeDecode(bs);
    EncodeDecode(rest);
    assert bs == [bs[0]] + rest;
    FirstByteCounts(bs[0], rest);
    assert Power256(|bs|) == 256 * Power256(|rest|);
    hide Decode, Power256, Encode;
    TopBit(bs[0], Power256(|rest|), Decode(rest));
  }

  lemma TopBit(b: nat, p: nat, low: nat)
    requires low < p
    ensures 2 * (b * p + low) >= 256 * p <==> b >= 128
  {
    if b >= 128 {
      assert b * p >= 128 * p;
    } else {
      assert b * p <= 127 * p;
    }
  }

  /** A typed integer: its width is 1, 2, 4 or 8 bytes in Buffer.h. */
  datatype Typed = Typed(x: int, width: nat)

  predicate Fits(v: Typed) {
    FitsWidth(v.x, v.width)
  }

  predicate AllFit(vs: seq<Typed>) {
    forall i | 0 <= i < |vs| :: Fits(vs[i])
  }

  function WireAll(vs: seq<Typed>): seq<byte>
    requires AllFit(vs)
  {
    if vs == [] then [] else ToWire(vs[0].x, vs[0].width) + WireAll(vs[1..])
  }

  /** Reading integers of the given widths off the front; what is left over is the second part. */
  function ReadAll(widths: seq<nat>, bs: seq<byte>): (seq<int>, seq<byte>)
    decreases |widths|
  {
    if widths == [] || |bs| < widths[0] then ([], bs)
    else
      var (rest, tail) := ReadAll(widths[1..], bs[widths[0]..]);
      ([FromWire(bs[..widths[0]])] + rest, tail)
  }

  function Widths(vs: seq<Typed>): seq<nat> {
    seq(|vs|, i requires 0 <= i < |vs| => vs[i].width)
  }

  function Values(vs: seq<Typed>): seq<int> {
    seq(|vs|, i requires 0 <= i < |vs| => vs[i].x)
  }

  /** Integers written one after the other read back in the order written, whatever follows them. */
  lemma {:induction false} ReadBackInOrder(vs: seq<Typed>, tail: seq<byte>)
    requires AllFit(vs)
    ensures ReadAll(Widths(vs), WireAll(vs) + tail) == (Values(vs), tail)
  {
    hide ToWire, FromWire, FitsWidth;
    if vs == [] {
      assert WireAll(vs) + tail == tail;
    } else {
      var v, rest := vs[0], vs[1..];
      var bs := WireAll(vs) + tail;
      var first := ToWire(v.x, v.width);
      assert bs == first + (WireAll(rest) + tail);
      assert bs[..v.width] == first && bs[v.width..] == WireAll(rest) + tail;
      assert Widths(vs)[1..] == Widths(rest);
      assert Values(vs) == [v.x] + Values(rest);
      WireRoundTrip(v.x, v.width);
      ReadBackInOrder(rest, tail);
    }
  }
}
