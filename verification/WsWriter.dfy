/** The frame writer, which puts the header in front of the payload and masks it in place. */
module WsWriter {
  import opened Bits
  import opened WsFrame
  import opened Options

  /** The lengths the masking loop can count to. */
  const MASK_LIMIT := 0x7FFF_FFFC

  lemma {:induction false} Powers()
    ensures Pow256(0) == 1 && Pow256(1) == 0x100 && Pow256(2) == 0x1_0000 && Pow256(3) == 0x100_0000
    ensures Pow256(4) == 0x1_0000_0000 && Pow256(5) == 0x100_0000_0000 && Pow256(6) == 0x1_0000_0000_0000
    ensures Pow256(7) == 0x100_0000_0000_0000
  {
    assert Pow256(1) == 0x100;
    assert Pow256(2) == 0x1_0000;
    assert Pow256(3) == 0x100_0000;
    assert Pow256(4) == 0x1_0000_0000;
    assert Pow256(5) == 0x100_0000_0000;
    assert Pow256(6) == 0x1_0000_0000_0000;
  }

  lemma {:induction false} TwoBytes(n: nat)
    requires n < 65536
    ensures BigEndian(n, 2) == [n / 0x100, n % 256]
  {
    Powers();
    assert BigEndian(n, 1) == [ByteAt(n, 0)] + BigEndian(n, 0);
    assert BigEndian(n, 2) == [ByteAt(n, 1)] + BigEndian(n, 1);
  }

  lemma {:induction false} EightBytes(n: nat)
    ensures BigEndian(n, 8) == [ByteAt(n, 7), ByteAt(n, 6), ByteAt(n, 5), ByteAt(n, 4),
                                ByteAt(n, 3), ByteAt(n, 2), ByteAt(n, 1), ByteAt(n, 0)]
  {
    assert BigEndian(n, 2) == [ByteAt(n, 1), ByteAt(n, 0)];
    assert BigEndian(n, 4) == [ByteAt(n, 3), ByteAt(n, 2)] + BigEndian(n, 2);
    assert BigEndian(n, 6) == [ByteAt(n, 5), ByteAt(n, 4)] + BigEndian(n, 4);
    assert BigEndian(n, 8) == [ByteAt(n, 7), ByteAt(n, 6)] + BigEndian(n, 6);
  }

  lemma {:induction false} TopBits(n: nat)
    requires n < 0x8000_0000_0000_0000
    ensures n / 0x100_0000_0000_0000 % 128 == ByteAt(n, 7)
  {
    Powers();
    assert n / 0x100_0000_0000_0000 < 128;
  }

  // ----- Writing over a stretch of a buffer

  /** b is s with data written over it from a place on. */
  ghost predicate Written(b: seq<byte>, s: seq<byte>, at: nat, data: seq<byte>) {
    && |b| == |s| && at + |data| <= |s|
    && forall k :: 0 <= k < |s| ==> b[k] == if at <= k < at + |data| then data[k - at] else s[k]
  }

  lemma {:induction false} WrittenThen(b: seq<byte>, c: seq<byte>, s: seq<byte>, at: nat, x: seq<byte>, y: seq<byte>)
    requires Written(b, s, at, x) && Written(c, b, at + |x|, y)
    ensures Written(c, s, at, x + y)
  {
  }

  lemma {:induction false} WrittenBefore(b: seq<byte>, c: seq<byte>, s: seq<byte>, at: nat, x: seq<byte>, y: seq<byte>)
    requires Written(b, s, at + |x|, y) && Written(c, b, at, x)
    ensures Written(c, s, at, x + y)
  {
  }

  /** What is written is there, and what is elsewhere is as it was. */
  lemma {:induction false} WrittenReads(b: seq<byte>, s: seq<byte>, at: nat, data: seq<byte>, i: nat, j: nat)
    requires Written(b, s, at, data) && i <= j <= |s|
    ensures b[at..at + |data|] == data
    ensures j <= at || at + |data| <= i ==> b[i..j] == s[i..j]
  {
  }

  /** Writing what is there already. */
  lemma {:induction false} WrittenStays(b: seq<byte>, s: seq<byte>, at: nat, x: seq<byte>, y: seq<byte>)
    requires Written(b, s, at, x) && at + |x| + |y| <= |s| && s[at + |x|..at + |x| + |y|] == y
    ensures Written(b, s, at, x + y)
  {
    forall k | at + |x| <= k < at + |x| + |y|
      ensures s[k] == y[k - at - |x|]
    {
      assert s[k] == s[at + |x|..at + |x| + |y|][k - at - |x|];
    }
  }

  lemma {:induction false} WrittenIs(b: seq<byte>, s: seq<byte>, at: nat, x: seq<byte>, y: seq<byte>)
    requires Written(b, s, at, x) && x == y
    ensures Written(b, s, at, y)
  {
  }

  method PutByte(buf: array<byte>, at: nat, x: byte)
    requires at < buf.Length
    modifies buf
    ensures Written(buf[..], old(buf[..]), at, [x])
  {
    buf[at] := x;
  }

  method PutTwo(buf: array<byte>, at: nat, first: byte, len: nat)
    requires len < 65536 && at + 3 <= buf.Length
    modifies buf
    ensures Written(buf[..], old(buf[..]), at, [first] + BigEndian(len, 2))
  {
    TwoBytes(len);
    buf[at] := first;
    buf[at + 1] := len / 0x100;
    buf[at + 2] := len % 256;
  }

  method PutEight(buf: array<byte>, at: nat, len: nat)
    requires len < 0x8000_0000_0000_0000 && at + 8 <= buf.Length
    modifies buf
    ensures Written(buf[..], old(buf[..]), at, BigEndian(len, 8))
  {
    Powers();
    TopBits(len);
    EightBytes(len);
    buf[at] := len / 0x100_0000_0000_0000 % 128;
    buf[at + 1] := len / 0x1_0000_0000_0000 % 256;
    buf[at + 2] := len / 0x100_0000_0000 % 256;
    buf[at + 3] := len / 0x1_0000_0000 % 256;
    buf[at + 4] := len / 0x100_0000 % 256;
    buf[at + 5] := len / 0x1_0000 % 256;
    buf[at + 6] := len / 0x100 % 256;
    buf[at + 7] := len % 256;
  }

  method PutNine(buf: array<byte>, at: nat, first: byte, len: nat)
    requires len < 0x8000_0000_0000_0000 && at + 9 <= buf.Length
    modifies buf
    ensures Written(buf[..], old(buf[..]), at, [first] + BigEndian(len, 8))
  {
    ghost var s := buf[..];
    PutByte(buf, at, first);
    ghost var b := buf[..];
    PutEight(buf, at + 1, len);
    WrittenThen(b, buf[..], s, at, [first], BigEndian(len, 8));
  }

  /** Puts the length bytes at a place. */
  method PutLength(buf: array<byte>, at: nat, len: nat, masked: bool)
    requires len < 0x8000_0000_0000_0000 && at + |LengthBytes(len, masked)| <= buf.Length
    modifies buf
    ensures Written(buf[..], old(buf[..]), at, LengthBytes(len, masked))
  {
    var bit := if masked then 128 else 0;
    if len < 126 {
      PutByte(buf, at, len + bit);
    } else if len < 65536 {
      PutTwo(buf, at, 126 + bit, len);
    } else {
      PutNine(buf, at, 127 + bit, len);
    }
  }

  lemma {:induction false} MaskedNext(payload: seq<byte>, key: Nonce, n: nat, masked: seq<byte>)
    requires n < |payload| && masked == Masked(payload, key, 0)
    ensures masked[..n] + [XorByte(payload[n], key[n % 4])] == masked[..n + 1]
  {
    MaskedAt(payload, key, 0, n);
  }

  /** What the loop has not reached is the payload still. */
  lemma {:induction false} NotYetMasked(b: seq<byte>, s: seq<byte>, start: nat, len: nat, done: seq<byte>)
    requires Written(b, s, start, done) && |done| < len && start + len <= |s|
    ensures b[start + |done|] == s[start..start + len][|done|]
  {
  }

  lemma {:induction false} MaskedThen(b: seq<byte>, c: seq<byte>, s: seq<byte>, start: nat, masked: seq<byte>, n: nat, x: byte)
    requires n < |masked| && Written(b, s, start, masked[..n]) && Written(c, b, start + n, [x])
    requires masked[..n] + [x] == masked[..n + 1]
    ensures Written(c, s, start, masked[..n + 1])
  {
    WrittenThen(b, c, s, start, masked[..n], [x]);
  }

  lemma {:induction false} Remainder256(m: nat, q: nat, r: nat)
    requires m == 256 * q + r && r < 256
    ensures m % 256 == r
  {
  }

  lemma {:induction false} Remainder4(m: nat, q: nat, r: nat)
    requires m == 4 * q + r && r < 4
    ensures m % 4 == r
  {
  }

  /** The index is a byte; it selects the same byte of the key all the same. */
  lemma {:induction false} IndexWraps(n: nat, index: byte)
    requires index == n % 256
    ensures (index + 1) % 256 == (n + 1) % 256 && index % 4 == n % 4
  {
    var q, d, r := n / 256, index / 4, index % 4;
    Remainder4(n, 64 * q + d, r);
    if index == 255 {
      Remainder256(n + 1, q + 1, 0);
    } else {
      Remainder256(n + 1, q, index + 1);
    }
  }

  method MaskByte(buf: array<byte>, at: nat, k: byte)
    requires at < buf.Length
    modifies buf
    ensures Written(buf[..], old(buf[..]), at, [XorByte(old(buf[at]), k)])
  {
    buf[at] := XorByte(buf[at], k);
  }

  /** Masks a stretch of the buffer byte by byte. */
  method MaskInPlace(buf: array<byte>, start: nat, len: nat, key: Nonce)
    requires start + len <= buf.Length
    modifies buf
    ensures Written(buf[..], old(buf[..]), start, Masked(old(buf[start..start + len]), key, 0))
  {
    ghost var s, payload := buf[..], buf[start..start + len];
    ghost var masked := Masked(payload, key, 0);
    assert payload == s[start..start + len];
    var index: byte := 0;
    var n := 0;
    while n < len
      invariant n <= len && index == n % 256
      invariant Written(buf[..], s, start, masked[..n])
    {
      ghost var b := buf[..];
      NotYetMasked(b, s, start, len, masked[..n]);
      MaskedNext(payload, key, n, masked);
      IndexWraps(n, index);
      MaskByte(buf, start + n, key[index % 4]);
      MaskedThen(b, buf[..], s, start, masked, n, XorByte(payload[n], key[n % 4]));
      index := (index + 1) % 256;
      n := n + 1;
    }
    assert n == |masked|;
    assert masked[..n] == masked;
  }

  method PutKey(buf: array<byte>, at: nat, key: Nonce)
    requires at + 4 <= buf.Length
    modifies buf
    ensures Written(buf[..], old(buf[..]), at, key)
  {
    buf[at], buf[at + 1], buf[at + 2], buf[at + 3] := key[0], key[1], key[2], key[3];
  }

  /** The first byte and the length bytes, in front of a place. */
  method PutHeader(buf: array<byte>, at: nat, first: byte, len: nat, masked: bool)
    requires len < 0x8000_0000_0000_0000 && at + 1 + |LengthBytes(len, masked)| <= buf.Length
    modifies buf
    ensures Written(buf[..], old(buf[..]), at, [first] + LengthBytes(len, masked))
  {
    ghost var s := buf[..];
    PutByte(buf, at, first);
    ghost var b := buf[..];
    PutLength(buf, at + 1, len, masked);
    WrittenThen(b, buf[..], s, at, [first], LengthBytes(len, masked));
  }

  /** The masked payload, and the key in front of it. */
  method PutMask(buf: array<byte>, start: nat, len: nat, key: Nonce)
    requires 4 <= start && start + len <= buf.Length
    modifies buf
    ensures Written(buf[..], old(buf[..]), start - 4, key + Masked(old(buf[start..start + len]), key, 0))
  {
    ghost var s, payload := buf[..], buf[start..start + len];
    MaskInPlace(buf, start, len, key);
    ghost var b := buf[..];
    PutKey(buf, start - 4, key);
    WrittenBefore(b, buf[..], s, start - 4, key, Masked(payload, key, 0));
  }

  lemma {:induction false} WireParts(f: Frame, head: seq<byte>)
    requires ValidFrame(f) && head == [FirstByte(f)] + LengthBytes(|f.payload|, f.mask.Some?)
    ensures Wire(f) == head + (Key(f.mask) + Body(f)) && |Header(f)| == |head| + |Key(f.mask)|
    ensures |head| == if |f.payload| < 126 then 2 else if |f.payload| < 65536 then 4 else 10
  {
  }

  method PutPlain(buf: array<byte>, at: nat, start: nat, f: Frame)
    requires ValidFrame(f) && f.mask == None && start + |f.payload| <= buf.Length
    requires buf[start..start + |f.payload|] == f.payload
    requires at + |Header(f)| == start
    modifies buf
    ensures Written(buf[..], old(buf[..]), at, Wire(f)) && buf[at..start + |f.payload|] == Wire(f)
  {
    ghost var s := buf[..];
    ghost var head := [FirstByte(f)] + LengthBytes(|f.payload|, false);
    WireParts(f, head);
    PutHeader(buf, at, FirstByte(f), |f.payload|, false);
    ghost var b := buf[..];
    assert s[start..start + |f.payload|] == f.payload;
    WrittenStays(b, s, at, head, f.payload);
    assert [] + f.payload == f.payload;
    WrittenIs(b, s, at, head + f.payload, Wire(f));
    WrittenReads(b, s, at, Wire(f), 0, 0);
    assert b[at..start + |f.payload|] == Wire(f);
  }

  method PutMasked(buf: array<byte>, at: nat, start: nat, f: Frame)
    requires ValidFrame(f) && f.mask.Some? && start + |f.payload| <= buf.Length
    requires buf[start..start + |f.payload|] == f.payload
    requires at + |Header(f)| == start
    modifies buf
    ensures Written(buf[..], old(buf[..]), at, Wire(f)) && buf[at..start + |f.payload|] == Wire(f)
  {
    ghost var s := buf[..];
    var len := |f.payload|;
    ghost var head := [FirstByte(f)] + LengthBytes(len, true);
    WireParts(f, head);
    PutHeader(buf, at, FirstByte(f), len, true);
    ghost var b := buf[..];
    WrittenReads(b, s, at, head, start, start + len);
    assert buf[start..start + len] == b[start..start + len] == f.payload;
    PutMask(buf, start, len, f.mask.value);
    ghost var c := buf[..];
    WrittenThen(b, c, s, at, head, f.mask.value + Body(f));
    WrittenIs(c, s, at, head + (f.mask.value + Body(f)), Wire(f));
    WrittenReads(c, s, at, Wire(f), 0, 0);
    assert c[at..start + len] == Wire(f);
  }

  /** Turns a payload in a buffer into a frame around it, and gives the length of the header. Nothing else changes. */
  method PutFrame(buf: array<byte>, start: nat, len: nat, opcode: nat, final: bool, mask: Option<Nonce>) returns (pre: nat)
    requires 4 + 10 <= start && start + len <= buf.Length
    requires ValidFrame(Frame(opcode, final, buf[start..start + len], mask))
    requires mask.Some? ==> len < MASK_LIMIT
    modifies buf
    ensures var f := Frame(opcode, final, old(buf[start..start + len]), mask);
            && pre == |Header(f)| <= start
            && buf[start - pre..start + len] == Wire(f)
            && Written(buf[..], old(buf[..]), start - pre, Wire(f))
  {
    var f := Frame(opcode, final, buf[start..start + len], mask);
    WireParts(f, [FirstByte(f)] + LengthBytes(len, mask.Some?));
    pre := (if mask.Some? then 4 else 0) + if len < 126 then 2 else if len < 65536 then 4 else 10;
    if mask.Some? {
      PutMasked(buf, start - pre, start, f);
    } else {
      PutPlain(buf, start - pre, start, f);
    }
  }

  // ----- Close frames with a status

  const CLOSE_REASON_LIMIT := 0x8000

  /** The status that a close frame begins with, if there is a reason. */
  function Status(opcode: nat, reason: nat): seq<byte>
    requires reason < CLOSE_REASON_LIMIT
  {
    if opcode == CLOSE && reason != 0 then [reason / 256, reason % 256] else []
  }

  /**
   * What a client makes of a close frame with a status. The places of key and payload are fixed before the status is put
   * in front of the payload, so that they are two too high for the header: half of the key is what stood in the buffer,
   * the other half of the client's key takes the place of the status, and the payload is masked from the key's start.
   */
  function Displaced(final: bool, junk: seq<byte>, key: Nonce, data: seq<byte>): Frame
    requires |junk| == 2
  {
    var sent: Nonce := junk + key[..2];
    Frame(CLOSE, final, Masked(key[2..] + Masked(data, key, 0), sent, 0), Some(sent))
  }

  /** It is never the frame with that status. */
  lemma {:induction false} DisplacedIsWrong(final: bool, junk: seq<byte>, key: Nonce, data: seq<byte>, reason: nat)
    requires |junk| == 2 && 0 < reason < CLOSE_REASON_LIMIT
    ensures Displaced(final, junk, key, data) != Frame(CLOSE, final, Status(CLOSE, reason) + data, Some(key))
  {
    var sent: Nonce := junk + key[..2];
    var wire := key[2..] + Masked(data, key, 0);
    if sent == key {
      assert key[2] == sent[2] == key[0] && key[3] == sent[3] == key[1];
      MaskedAt(wire, sent, 0, 0);
      MaskedAt(wire, sent, 0, 1);
      XorSelf(key[0]);
      XorSelf(key[1]);
      assert Masked(wire, sent, 0)[0] == 0 && Masked(wire, sent, 0)[1] == 0;
      assert (Status(CLOSE, reason) + data)[0] == reason / 256 && (Status(CLOSE, reason) + data)[1] == reason % 256;
    }
  }

  lemma {:induction false} DisplacedWire(final: bool, junk: seq<byte>, key: Nonce, data: seq<byte>, f: Frame, head: seq<byte>)
    requires |junk| == 2 && |data| + 2 < 126 && f == Displaced(final, junk, key, data)
    requires head == [FirstByte(f)] + LengthBytes(|data| + 2, true)
    ensures ValidFrame(f) && |f.payload| == |data| + 2 && |head| == 2
    ensures Wire(f) == head + junk + key + Masked(data, key, 0)
  {
    var masked := Masked(data, key, 0);
    MaskedTwice(key[2..] + masked, junk + key[..2], 0);
    WireParts(f, head);
    KeyHalves(head, junk, key, masked);
  }

  lemma {:induction false} KeyHalves(head: seq<byte>, junk: seq<byte>, key: Nonce, masked: seq<byte>)
    ensures head + ((junk + key[..2]) + (key[2..] + masked)) == head + junk + key + masked
  {
    assert key == key[..2] + key[2..];
  }

  method PutStatus(buf: array<byte>, at: nat, reason: nat)
    requires at + 2 <= buf.Length && reason < CLOSE_REASON_LIMIT
    modifies buf
    ensures Written(buf[..], old(buf[..]), at, [reason / 256, reason % 256])
  {
    buf[at] := reason / 256;
    buf[at + 1] := reason % 256;
  }

  lemma {:induction false} MaskedFront(payload: seq<byte>, more: seq<byte>, key: Nonce)
    ensures Masked(payload + more, key, 0)[..|payload|] == Masked(payload, key, 0)
  {
    var all, front := Masked(payload + more, key, 0), Masked(payload, key, 0);
    forall i: nat | i < |payload|
      ensures all[i] == front[i]
    {
      MaskedAt(payload + more, key, 0, i);
      MaskedAt(payload, key, 0, i);
    }
    assert all[..|payload|] == front;
  }

  lemma {:induction false} FourSlices(b: seq<byte>, i: nat, j: nat, k: nat, l: nat, m: nat)
    requires i <= j <= k <= l <= m <= |b|
    ensures b[i..m] == b[i..j] + b[j..k] + b[k..l] + b[l..m]
  {
    assert b[i..m] == b[i..l] + b[l..m];
    assert b[i..l] == b[i..k] + b[k..l];
    assert b[i..k] == b[i..j] + b[j..k];
  }

  lemma {:induction false} DisplacedPieces(s: seq<byte>, b: seq<byte>, c: seq<byte>, d: seq<byte>, e: seq<byte>, start: nat,
                                           len: nat, key: Nonce, reason: nat, head: seq<byte>)
    requires 8 <= start && start + len + 2 <= |s| && reason < CLOSE_REASON_LIMIT && |head| == 2
    requires Written(b, s, start - 2, [reason / 256, reason % 256]) && Written(c, b, start - 8, head)
    requires Written(d, c, start, Masked(c[start..start + len + 2], key, 0)) && Written(e, d, start - 4, key)
    ensures e[start - 8..start - 6] == head && e[start - 6..start - 4] == s[start - 6..start - 4]
    ensures e[start - 4..start] == key && e[start..start + len] == Masked(s[start..start + len], key, 0)
  {
    var payload, more := s[start..start + len], s[start + len..start + len + 2];
    assert c[start..start + len + 2] == payload + more;
    MaskedFront(payload, more, key);
    var masked := Masked(payload + more, key, 0);
    assert d[start..start + len] == masked[..len];
    assert e[start..start + len] == d[start..start + len];
  }

  lemma {:induction false} DisplacedWritten(s: seq<byte>, b: seq<byte>, c: seq<byte>, d: seq<byte>, e: seq<byte>, start: nat,
                                            len: nat, key: Nonce, reason: nat, head: seq<byte>, wire: seq<byte>)
    requires 8 <= start && start + len + 2 <= |s| && reason < CLOSE_REASON_LIMIT && |head| == 2
    requires Written(b, s, start - 2, [reason / 256, reason % 256]) && Written(c, b, start - 8, head)
    requires Written(d, c, start, Masked(c[start..start + len + 2], key, 0)) && Written(e, d, start - 4, key)
    requires wire == head + s[start - 6..start - 4] + key + Masked(s[start..start + len], key, 0)
    ensures e[start - 8..start + len] == wire
  {
    DisplacedPieces(s, b, c, d, e, start, len, key, reason, head);
    FourSlices(e, start - 8, start - 6, start - 4, start, start + len);
  }

  lemma {:induction false} DisplacedDone(s: seq<byte>, b: seq<byte>, c: seq<byte>, d: seq<byte>, e: seq<byte>, start: nat,
                                         len: nat, key: Nonce, reason: nat, head: seq<byte>, f: Frame)
    requires 8 <= start && start + len + 2 <= |s| && len + 2 < 126 && reason < CLOSE_REASON_LIMIT
    requires f == Displaced(f.final, s[start - 6..start - 4], key, s[start..start + len])
    requires head == [FirstByte(f)] + LengthBytes(len + 2, true)
    requires Written(b, s, start - 2, [reason / 256, reason % 256]) && Written(c, b, start - 8, head)
    requires Written(d, c, start, Masked(c[start..start + len + 2], key, 0)) && Written(e, d, start - 4, key)
    ensures ValidFrame(f) && |Wire(f)| == len + 8 && e[start - 8..start + len] == Wire(f)
  {
    var junk, data := s[start - 6..start - 4], s[start..start + len];
    DisplacedWire(f.final, junk, key, data, f, head);
    DisplacedWritten(s, b, c, d, e, start, len, key, reason, head, head + junk + key + Masked(data, key, 0));
  }

  /** The client's close frame with a status, as the source puts it together. */
  method PutDisplaced(buf: array<byte>, start: nat, len: nat, final: bool, key: Nonce, reason: nat, ghost f: Frame)
    requires 8 <= start && start + len + 2 <= buf.Length && len + 2 < 126 && reason < CLOSE_REASON_LIMIT
    requires f == Displaced(final, buf[start - 6..start - 4], key, buf[start..start + len])
    modifies buf
    ensures ValidFrame(f) && |Wire(f)| == len + 8 && buf[start - 8..start + len] == Wire(f)
  {
    ghost var s := buf[..];
    assert s[start - 6..start - 4] == buf[start - 6..start - 4] && s[start..start + len] == buf[start..start + len];
    var first := CLOSE + if final then 128 else 0;
    PutStatus(buf, start - 2, reason);
    ghost var b := buf[..];
    PutHeader(buf, start - 8, first, len + 2, true);
    ghost var c := buf[..];
    MaskInPlace(buf, start, len + 2, key);
    ghost var d := buf[..];
    PutKey(buf, start - 4, key);
    ghost var e := buf[..];
    DisplacedDone(s, b, c, d, e, start, len, key, reason, [first] + LengthBytes(len + 2, true), f);
    assert buf[start - 8..start + len] == e[start - 8..start + len];
  }
}
