/** WebSocket frames on the wire, as section 5.2 and section 5.3 of RFC 6455 lay them out. */
module WsFrame {
  import opened Bits
  import opened Options

  const CONTINUATION := 0
  const TEXT := 1
  const BINARY := 2
  const CLOSE := 8
  const PING := 9
  const PONG := 10

  const MAX_MUX_RECURSION := 2

  /** The room that buffers have in front of and behind a payload. */
  const LWS_SEND_BUFFER_PRE_PADDING := 4 + 10 + 2 * MAX_MUX_RECURSION
  const LWS_SEND_BUFFER_POST_PADDING := 4

  /** A masking key. */
  type Nonce = n: seq<byte> | |n| == 4 witness [0, 0, 0, 0]

  datatype Frame = Frame(opcode: nat, final: bool, payload: seq<byte>, mask: Option<Nonce>)

  predicate IsControl(opcode: nat) { opcode >= 8 }

  predicate IsData(opcode: nat) { opcode == CONTINUATION || opcode == TEXT || opcode == BINARY }

  predicate ValidOpcode(opcode: nat) { IsData(opcode) || opcode == CLOSE || opcode == PING || opcode == PONG }

  /** The frames that can be written: lengths fit, and those of control frames are short. */
  predicate ValidFrame(f: Frame) {
    && ValidOpcode(f.opcode)
    && |f.payload| < 0x8000_0000_0000_0000
    && (IsControl(f.opcode) ==> |f.payload| < 126)
  }

  /** Byte k of a number, from the lowest. */
  function ByteAt(n: nat, k: nat): byte { n / Pow256(k) % 256 }

  function Pow256(k: nat): (p: nat)
    ensures p > 0
  {
    if k == 0 then 1 else 256 * Pow256(k - 1)
  }

  /** The low k bytes of a number, highest first. */
  function BigEndian(n: nat, k: nat): (r: seq<byte>)
    ensures |r| == k
  {
    if k == 0 then [] else [ByteAt(n, k - 1)] + BigEndian(n, k - 1)
  }

  function FirstByte(f: Frame): byte
    requires f.opcode < 16
  {
    f.opcode + if f.final then 128 else 0
  }

  /** The masking bit with the 7-bit length, and the bytes of an extended length. */
  function LengthBytes(len: nat, masked: bool): seq<byte> {
    var bit := if masked then 128 else 0;
    if len < 126 then [len + bit]
    else if len < 65536 then [126 + bit] + BigEndian(len, 2)
    else [127 + bit] + BigEndian(len, 8)
  }

  function Key(mask: Option<Nonce>): seq<byte> {
    if mask.Some? then mask.value else []
  }

  function Header(f: Frame): seq<byte>
    requires ValidFrame(f)
  {
    [FirstByte(f)] + LengthBytes(|f.payload|, f.mask.Some?) + Key(f.mask)
  }

  /** Payload bytes combined with the key, from a position in the key on. */
  function Masked(payload: seq<byte>, key: Nonce, index: nat): (r: seq<byte>)
    ensures |r| == |payload|
  {
    if payload == [] then [] else [XorByte(payload[0], key[index % 4])] + Masked(payload[1..], key, index + 1)
  }

  function Body(f: Frame): seq<byte> {
    if f.mask.Some? then Masked(f.payload, f.mask.value, 0) else f.payload
  }

  function Wire(f: Frame): seq<byte>
    requires ValidFrame(f)
  {
    Header(f) + Body(f)
  }

  predicate AllValid(frames: seq<Frame>) { forall i :: 0 <= i < |frames| ==> ValidFrame(frames[i]) }

  function WireAll(frames: seq<Frame>): seq<byte>
    requires AllValid(frames)
  {
    if frames == [] then [] else Wire(frames[0]) + WireAll(frames[1..])
  }

  // ----- Masking

  lemma {:induction false} MaskedAt(payload: seq<byte>, key: Nonce, index: nat, i: nat)
    requires i < |payload|
    ensures Masked(payload, key, index)[i] == XorByte(payload[i], key[(index + i) % 4])
    decreases |payload|
  {
    if i > 0 {
      MaskedAt(payload[1..], key, index + 1, i - 1);
    }
  }

  /** Masking again restores the payload. */
  lemma {:induction false} MaskedTwice(payload: seq<byte>, key: Nonce, index: nat)
    ensures Masked(Masked(payload, key, index), key, index) == payload
    decreases |payload|
  {
    if payload != [] {
      MaskedTwice(payload[1..], key, index + 1);
      XorCancels(payload[0], key[index % 4]);
      var m := Masked(payload, key, index);
      assert m[1..] == Masked(payload[1..], key, index + 1);
      assert payload == [payload[0]] + payload[1..];
    }
  }

  /** The key of zeros changes nothing. */
  lemma {:induction false} MaskedByZero(payload: seq<byte>, key: Nonce, index: nat)
    requires key == [0, 0, 0, 0]
    ensures Masked(payload, key, index) == payload
    decreases |payload|
  {
    if payload != [] {
      MaskedByZero(payload[1..], key, index + 1);
      XorZero(payload[0]);
      assert payload == [payload[0]] + payload[1..];
    }
  }

  // ----- Lengths byte by byte

  /** A number without its low k bytes. */
  function High(n: nat, k: nat): int { n / Pow256(k) * Pow256(k) }

  lemma {:induction false} Regrouped(q: nat, r: nat, p: nat)
    ensures (256 * q + r) * p == q * (256 * p) + r * p
  {
    assert (256 * q + r) * p == (256 * q) * p + r * p;
    assert (256 * q) * p == q * (256 * p);
  }

  lemma {:induction false} PartBelow(r: nat, p: nat, s: nat)
    requires r < 256 && s < p
    ensures 0 <= r * p + s < 256 * p
  {
    assert (255 - r) * p >= 0;
    assert 255 * p == r * p + (255 - r) * p;
  }

  lemma {:induction false} DivideTwice(n: nat, p: nat)
    requires p > 0
    ensures n / (256 * p) == n / p / 256
  {
    var x, s := n / p, n % p;
    var q, r := x / 256, x % 256;
    assert n == x * p + s;
    assert x == 256 * q + r;
    Regrouped(q, r, p);
    PartBelow(r, p, s);
    QuotientIs(n, 256 * p, q, r * p + s);
  }

  lemma {:induction false} AtLeastOnce(k: int, d: nat)
    requires k >= 1
    ensures k * d >= d
  {
    assert k * d == (k - 1) * d + d;
    assert (k - 1) * d >= 0;
  }

  lemma {:induction false} AtMostMinusOnce(k: int, d: nat)
    requires k <= -1
    ensures k * d <= 0 - d
  {
    assert k * d == (k + 1) * d - d;
    assert (-1 - k) * d >= 0;
    assert (k + 1) * d == -((-1 - k) * d);
  }

  lemma {:induction false} QuotientIs(n: nat, d: nat, q: nat, r: nat)
    requires d > 0 && r < d && n == q * d + r
    ensures n / d == q && n % d == r
  {
    var x := n / d;
    var k := x - q;
    assert k * d == x * d - q * d;
    assert k * d == r - n % d;
    if k >= 1 {
      AtLeastOnce(k, d);
    } else if k <= -1 {
      AtMostMinusOnce(k, d);
    }
  }

  /** Adding the next byte in its place. */
  lemma {:induction false} HighByByte(n: nat, k: nat)
    ensures High(n, k) == High(n, k + 1) + ByteAt(n, k) * Pow256(k)
  {
    var p := Pow256(k);
    DivideTwice(n, p);
    assert n / p == n / p / 256 * 256 + n / p % 256;
    assert (n / p / 256 * 256 + n / p % 256) * p == n / p / 256 * (256 * p) + n / p % 256 * p;
  }
}
