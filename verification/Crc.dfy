/** The X.25 checksum over whole buffers (inc/mavlink/checksum.h). */
module Crc {
  import opened Bits
  import opened CrcStep

  const X25_INIT_CRC: word := 0xffff

  /** checksum.h lets a platform supply its own crc_accumulate (HAVE_CRC_ACCUMULATE). */
  type Accumulator = (byte, word) -> word

  /** A buffer folded into the checksum, first byte first. */
  function AccumulateAll(acc: Accumulator, crc: word, data: seq<byte>): word {
    if data == [] then crc
    else acc(data[|data| - 1], AccumulateAll(acc, crc, data[..|data| - 1]))
  }

  method CrcCalculate(acc: Accumulator, buffer: seq<byte>) returns (crc: word)
    ensures crc == AccumulateAll(acc, X25_INIT_CRC, buffer)
  {
    crc := CrcAccumulateBuffer(acc, X25_INIT_CRC, buffer);
  }

  method CrcAccumulateBuffer(acc: Accumulator, crcAccum: word, buffer: seq<byte>) returns (crc: word)
    ensures crc == AccumulateAll(acc, crcAccum, buffer)
  {
    crc := crcAccum;
    var i := 0;
    while i < |buffer|
      invariant i <= |buffer|
      invariant crc == AccumulateAll(acc, crcAccum, buffer[..i])
    {
      assert buffer[..i + 1] == buffer[..i] + [buffer[i]];
      AccumulateSnoc(acc, crcAccum, buffer[..i], buffer[i]);
      crc := acc(buffer[i], crc);
      i := i + 1;
    }
    assert buffer[..i] == buffer;
  }

  lemma {:induction false} AccumulateSnoc(acc: Accumulator, crc: word, data: seq<byte>, c: byte)
    ensures AccumulateAll(acc, crc, data + [c]) == acc(c, AccumulateAll(acc, crc, data))
  {
    assert (data + [c])[..|data|] == data;
  }

  lemma {:induction false} AccumulateConcat(acc: Accumulator, crc: word, a: seq<byte>, b: seq<byte>)
    ensures AccumulateAll(acc, crc, a + b) == AccumulateAll(acc, AccumulateAll(acc, crc, a), b)
    decreases |b|
  {
    if b == [] {
      assert a + b == a;
    } else {
      var n := |b| - 1;
      AccumulateConcat(acc, crc, a, b[..n]);
      assert a + b == (a + b[..n]) + [b[n]];
      AccumulateSnoc(acc, crc, a + b[..n], b[n]);
    }
  }

  lemma {:induction false} AccumulateAllInjective(data: seq<byte>, a: word, b: word)
    requires AccumulateAll(Accumulate, a, data) == AccumulateAll(Accumulate, b, data)
    ensures a == b
    decreases |data|
  {
    if data != [] {
      var n := |data| - 1;
      AccumulateInjective(data[n], AccumulateAll(Accumulate, a, data[..n]), AccumulateAll(Accumulate, b, data[..n]));
      AccumulateAllInjective(data[..n], a, b);
    }
  }

  /** Equal length, and equal everywhere outside the positions at and at + 1. */
  predicate DifferOnlyNear(a: seq<byte>, b: seq<byte>, at: nat) {
    && |a| == |b|
    && forall i :: 0 <= i < |a| && i != at && i != at + 1 ==> a[i] == b[i]
  }

  lemma {:induction false} PairInside(crc: word, p: seq<byte>, a0: byte, a1: byte, b0: byte, b1: byte, s: seq<byte>)
    requires AccumulateAll(Accumulate, crc, p + [a0, a1] + s) == AccumulateAll(Accumulate, crc, p + [b0, b1] + s)
    ensures a0 == b0 && a1 == b1
  {
    var c := AccumulateAll(Accumulate, crc, p);
    SplitAtPair(Accumulate, crc, p, a0, a1, s);
    SplitAtPair(Accumulate, crc, p, b0, b1, s);
    AccumulateAllInjective(s, Accumulate(a1, Accumulate(a0, c)), Accumulate(b1, Accumulate(b0, c)));
    PairDetected(c, a0, a1, b0, b1);
  }

  lemma {:induction false} ByteAtEnd(crc: word, p: seq<byte>, a: byte, b: byte)
    requires AccumulateAll(Accumulate, crc, p + [a]) == AccumulateAll(Accumulate, crc, p + [b])
    ensures a == b
  {
    AccumulateSnoc(Accumulate, crc, p, a);
    AccumulateSnoc(Accumulate, crc, p, b);
    ByteDetected(AccumulateAll(Accumulate, crc, p), a, b);
  }

  lemma {:induction false} SplitNear(a: seq<byte>, b: seq<byte>, at: nat)
    requires DifferOnlyNear(a, b, at) && at + 1 < |a|
    ensures a == a[..at] + [a[at], a[at + 1]] + a[at + 2..]
    ensures b == a[..at] + [b[at], b[at + 1]] + a[at + 2..]
  {
  }

  lemma {:induction false} SplitLast(a: seq<byte>, b: seq<byte>, at: nat)
    requires DifferOnlyNear(a, b, at) && at + 1 == |a|
    ensures a == a[..at] + [a[at]] && b == a[..at] + [b[at]]
  {
  }

  /** A change confined to one byte or two adjacent bytes of a buffer always changes its checksum. */
  lemma {:induction false} BurstDetected(crc: word, a: seq<byte>, b: seq<byte>, at: nat)
    requires DifferOnlyNear(a, b, at)
    requires AccumulateAll(Accumulate, crc, a) == AccumulateAll(Accumulate, crc, b)
    ensures a == b
  {
    if at + 1 < |a| {
      SplitNear(a, b, at);
      PairInside(crc, a[..at], a[at], a[at + 1], b[at], b[at + 1], a[at + 2..]);
    } else if at < |a| {
      SplitLast(a, b, at);
      ByteAtEnd(crc, a[..at], a[at], b[at]);
    }
  }

  lemma {:induction false} SplitAtPair(acc: Accumulator, crc: word, p: seq<byte>, x: byte, y: byte, s: seq<byte>)
    ensures AccumulateAll(acc, crc, p + [x, y] + s)
         == AccumulateAll(acc, acc(y, acc(x, AccumulateAll(acc, crc, p))), s)
  {
    AccumulateConcat(acc, crc, p + [x, y], s);
    assert p + [x, y] == (p + [x]) + [y];
    AccumulateSnoc(acc, crc, p, x);
    AccumulateSnoc(acc, crc, p + [x], y);
  }
}
