/** Splitting a serialised message into extended MAVLink fragments (mavlink_protobuf_manager.hpp). */
module Fragments {
  import opened Bits
  import opened Crc
  import opened MavlinkMessages

  const EXTENDED_MESSAGE_ID: byte := 255
  const EXTENDED_HEADER_LEN: byte := 14

  type uint32 = x: int | 0 <= x < 0x1_0000_0000

  /** An extended message: the framed header and the payload bytes it travels with. */
  datatype Fragment = Fragment(base: Message, payload: seq<byte>)

  /** The fields of the 14-byte extended header. */
  datatype ExtHeader = ExtHeader(targetSystem: byte, targetComponent: byte, typecode: byte, length: uint32,
                                 streamId: word, offset: uint32, flags: byte)

  // ----- Little-endian fields

  function Le16(v: word): seq<byte> {
    [v % 0x100, v / 0x100]
  }

  function Le32(v: uint32): seq<byte> {
    Le16(v % 0x1_0000) + Le16(v / 0x1_0000)
  }

  function Read16(b: seq<byte>, at: nat): word
    requires at + 2 <= |b|
  {
    var low: int, high: int := b[at], b[at + 1];
    low + high * 0x100
  }

  function Read32(b: seq<byte>, at: nat): uint32
    requires at + 4 <= |b|
  {
    Read16(b, at) + Read16(b, at + 2) * 0x1_0000
  }

  function Encode(h: ExtHeader): seq<byte> {
    [h.targetSystem, h.targetComponent, h.typecode] + Le32(h.length) + Le16(h.streamId) + Le32(h.offset) + [h.flags]
  }

  function Decode(b: seq<byte>): ExtHeader
    requires |b| >= EXTENDED_HEADER_LEN
  {
    ExtHeader(b[0], b[1], b[2], Read32(b, 3), Read16(b, 7), Read32(b, 9), b[13])
  }

  lemma {:induction false} Read16Of(b: seq<byte>, at: nat, v: word)
    requires at + 2 <= |b| && b[at..at + 2] == Le16(v)
    ensures Read16(b, at) == v
  {
    assert b[at] == b[at..at + 2][0] && b[at + 1] == b[at..at + 2][1];
  }

  lemma {:induction false} Read32Of(b: seq<byte>, at: nat, v: uint32)
    requires at + 4 <= |b| && b[at..at + 4] == Le32(v)
    ensures Read32(b, at) == v
  {
    assert b[at..at + 2] == b[at..at + 4][..2] == Le16(v % 0x1_0000);
    assert b[at + 2..at + 4] == b[at..at + 4][2..] == Le16(v / 0x1_0000);
    Read16Of(b, at, v % 0x1_0000);
    Read16Of(b, at + 2, v / 0x1_0000);
  }

  /** Reading the header back from any buffer that starts with its encoding. */
  lemma {:induction false} HeaderRoundTrip(h: ExtHeader, rest: seq<byte>)
    ensures |Encode(h)| == EXTENDED_HEADER_LEN && Decode(Encode(h) + rest) == h
  {
    var b := Encode(h) + rest;
    assert b[3..7] == Le32(h.length);
    assert b[7..9] == Le16(h.streamId);
    assert b[9..13] == Le32(h.offset);
    Read32Of(b, 3, h.length);
    Read16Of(b, 7, h.streamId);
    Read32Of(b, 9, h.offset);
  }

  function HeaderOf(f: Fragment): ExtHeader {
    Decode(f.base.buffer)
  }

  predicate More(f: Fragment) {
    HeaderOf(f).flags % 2 == 1
  }

  // ----- Splitting

  /** Who sends to whom, under which type code and stream, and how much payload a fragment holds. */
  datatype Route = Route(acc: Accumulator, systemId: byte, componentId: byte, targetSystem: byte,
                         targetComponent: byte, typecode: byte, streamId: word, maxPayload: nat)

  /** Sizes the fragment counter's 32-bit arithmetic can hold. */
  predicate Fits(r: Route, size: nat) {
    0 < r.maxPayload && size + r.maxPayload <= 0x8000_0000
  }

  function CountOf(r: Route, size: nat): nat
    requires r.maxPayload > 0
  {
    (size + r.maxPayload - 1) / r.maxPayload
  }

  /** The header of the fragment that starts at offset. */
  function HeaderAt(r: Route, size: nat, offset: nat): ExtHeader
    requires Fits(r, size) && offset <= size
  {
    var more := offset + r.maxPayload < size;
    ExtHeader(r.targetSystem, r.targetComponent, r.typecode, if more then r.maxPayload else size - offset,
              r.streamId, offset, if more then 1 else 0)
  }

  /** Uninitialised stack contents, the sequence number, and the header decide the framed part. */
  function BaseOf(r: Route, h: ExtHeader, junk: Message, seqno: byte): Message {
    HeaderRoundTrip(h, []);
    var filled := junk.(msgid := EXTENDED_MESSAGE_ID, buffer := Encode(h) + junk.buffer[EXTENDED_HEADER_LEN..]);
    Finalized(r.acc, filled, seqno, r.systemId, r.componentId, EXTENDED_HEADER_LEN, 0)
  }

  lemma {:induction false} BaseKeepsHeader(r: Route, h: ExtHeader, junk: Message, seqno: byte)
    ensures Decode(BaseOf(r, h, junk, seqno).buffer) == h
  {
    HeaderRoundTrip(h, junk.buffer[EXTENDED_HEADER_LEN..]);
    var filled := Encode(h) + junk.buffer[EXTENDED_HEADER_LEN..];
    var b := BaseOf(r, h, junk, seqno).buffer;
    HeaderRoundTrip(h, b[EXTENDED_HEADER_LEN..]);
    assert b[..EXTENDED_HEADER_LEN] == filled[..EXTENDED_HEADER_LEN] == Encode(h);
    assert b == Encode(h) + b[EXTENDED_HEADER_LEN..];
  }

  /** The i-th fragment of data announces and carries the i-th slice of at most maxPayload bytes. */
  predicate IsFragment(r: Route, data: seq<byte>, i: nat, f: Fragment)
    requires Fits(r, |data|)
  {
    var offset := i * r.maxPayload;
    && offset < |data|
    && HeaderOf(f) == HeaderAt(r, |data|, offset)
    && f.payload == data[offset..offset + HeaderOf(f).length]
  }

  predicate AreFragments(r: Route, data: seq<byte>, fs: seq<Fragment>)
    requires Fits(r, |data|)
  {
    && |fs| == CountOf(r, |data|)
    && forall i :: 0 <= i < |fs| ==> IsFragment(r, data, i, fs[i])
  }

  lemma {:induction false} DivisionBounds(a: nat, k: nat, n: nat)
    requires k > 0 && n == a / k
    ensures n * k <= a < n * k + k
  {
    assert a == k * n + a % k;
  }

  /** A fragment with the framed part the sender gives it: sequence numbers count up from txSeq. */
  predicate Emitted(r: Route, data: seq<byte>, junk: Message, txSeq: byte, i: nat, f: Fragment)
    requires Fits(r, |data|)
  {
    IsFragment(r, data, i, f) && f.base == BaseOf(r, HeaderOf(f), junk, (txSeq + i) % 0x100)
  }

  predicate AllEmitted(r: Route, data: seq<byte>, junk: Message, txSeq: byte, fs: seq<Fragment>)
    requires Fits(r, |data|)
  {
    forall i :: 0 <= i < |fs| ==> Emitted(r, data, junk, txSeq, i, fs[i])
  }

  lemma {:induction false} AllEmittedSnoc(r: Route, data: seq<byte>, junk: Message, txSeq: byte, fs: seq<Fragment>, f: Fragment)
    requires Fits(r, |data|) && AllEmitted(r, data, junk, txSeq, fs) && Emitted(r, data, junk, txSeq, |fs|, f)
    ensures AllEmitted(r, data, junk, txSeq, fs + [f])
  {
  }

  method FragmentAt(r: Route, data: seq<byte>, junk: Message, txSeq: byte, ghost i: nat, offset: nat, seqno: byte, last: bool)
      returns (f: Fragment)
    requires Fits(r, |data|) && offset < |data| && offset == i * r.maxPayload && seqno == (txSeq + i) % 0x100
    requires last <==> offset + r.maxPayload >= |data|
    ensures Emitted(r, data, junk, txSeq, i, f)
    ensures HeaderOf(f) == HeaderAt(r, |data|, offset)
  {
    var length, flags: byte := |data| - offset, 0;
    if !last {
      length, flags := r.maxPayload, 1;
    }
    var h := ExtHeader(r.targetSystem, r.targetComponent, r.typecode, length, r.streamId, offset, flags);
    BaseKeepsHeader(r, h, junk, seqno);
    f := Fragment(BaseOf(r, h, junk, seqno), data[offset..offset + length]);
  }

  method FragmentMessage(r: Route, data: seq<byte>, junk: Message, txSeq: byte) returns (fragments: seq<Fragment>, nextSeq: byte)
    requires Fits(r, |data|)
    ensures |fragments| == CountOf(r, |data|)
    ensures AllEmitted(r, data, junk, txSeq, fragments)
    ensures nextSeq == (txSeq + |fragments|) % 0x100
  {
    var fragmentCount := CountOf(r, |data|);
    CountBounds(|data|, r.maxPayload, fragmentCount);
    fragments, nextSeq := EmitAll(r, data, junk, txSeq, fragmentCount);
  }

  method EmitAll(r: Route, data: seq<byte>, junk: Message, txSeq: byte, fragmentCount: nat)
      returns (fragments: seq<Fragment>, nextSeq: byte)
    requires Fits(r, |data|) && CoversExactly(|data|, r.maxPayload, fragmentCount)
    ensures |fragments| == fragmentCount
    ensures AllEmitted(r, data, junk, txSeq, fragments)
    ensures nextSeq == (txSeq + |fragments|) % 0x100
  {
    fragments, nextSeq := [], txSeq;
    var offset, i := 0, 0;
    while i < fragmentCount
      invariant i <= fragmentCount && |fragments| == i && nextSeq == (txSeq + i) % 0x100
      invariant i < fragmentCount ==> offset == i * r.maxPayload
      invariant AllEmitted(r, data, junk, txSeq, fragments)
    {
      LastOrNot(|data|, r.maxPayload, fragmentCount, i, offset);
      NextSequence(txSeq, i, nextSeq);
      var f := FragmentAt(r, data, junk, txSeq, i, offset, nextSeq, i == fragmentCount - 1);
      AllEmittedSnoc(r, data, junk, txSeq, fragments, f);
      fragments := fragments + [f];
      nextSeq := (nextSeq + 1) % 0x100;
      var length := HeaderOf(f).length;
      assert i < fragmentCount - 1 ==> length == r.maxPayload;
      offset := offset + length;
      i := i + 1;
    }
  }

  lemma {:induction false} NextSequence(txSeq: byte, i: nat, seqno: byte)
    requires seqno == (txSeq + i) % 0x100
    ensures (seqno + 1) % 0x100 == (txSeq + (i + 1)) % 0x100
  {
  }

  /** n slices of at most k bytes are exactly enough for size bytes. */
  predicate CoversExactly(size: nat, k: nat, n: nat) {
    size <= n * k && (n > 0 ==> (n - 1) * k < size)
  }

  lemma {:induction false} CountBounds(size: nat, k: nat, n: nat)
    requires k > 0 && n == (size + k - 1) / k
    ensures CoversExactly(size, k, n)
  {
    DivisionBounds(size + k - 1, k, n);
    assert n > 0 ==> (n - 1) * k == n * k - k;
  }

  lemma {:induction false} LastOrNot(size: nat, k: nat, n: nat, i: nat, offset: nat)
    requires k > 0 && CoversExactly(size, k, n) && i < n && offset == i * k
    ensures offset < size
    ensures offset + k < size <==> i < n - 1
    ensures offset + k == (i + 1) * k
  {
    assert offset + k == (i + 1) * k;
    if i < n - 1 {
      MulMonotonic(i + 1, n - 1, k);
    } else {
      assert i == n - 1;
    }
  }

  lemma {:induction false} MulMonotonic(a: nat, b: nat, k: nat)
    requires a <= b
    ensures a * k <= b * k
  {
    assert (b - a) * k >= 0;
    assert b * k == a * k + (b - a) * k;
  }

  // ----- The fragments partition the data

  function Concat(fs: seq<Fragment>): seq<byte> {
    if fs == [] then [] else Concat(fs[..|fs| - 1]) + fs[|fs| - 1].payload
  }

  lemma {:induction false} ConcatSnoc(fs: seq<Fragment>, f: Fragment)
    ensures Concat(fs + [f]) == Concat(fs) + f.payload
  {
    assert (fs + [f])[..|fs|] == fs;
  }

  /** One slice: where it starts, where it ends, and whether it is the last. */
  lemma {:induction false} SliceOf(r: Route, data: seq<byte>, fs: seq<Fragment>, i: nat)
    requires Fits(r, |data|) && AreFragments(r, data, fs) && i < |fs|
    ensures var offset := i * r.maxPayload;
            && offset < |data| && HeaderOf(fs[i]) == HeaderAt(r, |data|, offset)
            && fs[i].payload == data[offset..offset + |fs[i].payload|]
            && |fs[i].payload| == HeaderOf(fs[i]).length
            && offset + |fs[i].payload| == (if i < |fs| - 1 then (i + 1) * r.maxPayload else |data|)
            && (More(fs[i]) <==> i < |fs| - 1)
  {
    CountBounds(|data|, r.maxPayload, |fs|);
    LastOrNot(|data|, r.maxPayload, |fs|, i, i * r.maxPayload);
    assert IsFragment(r, data, i, fs[i]);
  }

  /** Where fragment i of n starts; for i == n, the end of the data. */
  function StartOf(r: Route, size: nat, n: nat, i: nat): nat {
    if i < n then i * r.maxPayload else size
  }

  lemma {:induction false} SlicePayload(r: Route, data: seq<byte>, fs: seq<Fragment>, i: nat)
    requires Fits(r, |data|) && AreFragments(r, data, fs) && i < |fs|
    ensures var here, next := StartOf(r, |data|, |fs|, i), StartOf(r, |data|, |fs|, i + 1);
            here <= next <= |data| && fs[i].payload == data[here..next]
  {
    SliceOf(r, data, fs, i);
    if i + 1 < |fs| {
      SliceOf(r, data, fs, i + 1);
    }
  }

  /** The first i fragments carry exactly the bytes before the start of the next one. */
  lemma {:induction false} FragmentsPartition(r: Route, data: seq<byte>, fs: seq<Fragment>, i: nat)
    requires Fits(r, |data|) && AreFragments(r, data, fs) && i <= |fs|
    ensures StartOf(r, |data|, |fs|, i) <= |data|
    ensures Concat(fs[..i]) == data[..StartOf(r, |data|, |fs|, i)]
    decreases i
  {
    if i == 0 {
      CountBounds(|data|, r.maxPayload, |fs|);
    } else {
      FragmentsPartition(r, data, fs, i - 1);
      SlicePayload(r, data, fs, i - 1);
      assert fs[..i] == fs[..i - 1] + [fs[i - 1]];
      ConcatSnoc(fs[..i - 1], fs[i - 1]);
    }
  }
}
