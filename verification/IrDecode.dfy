/** What each decoder accepts in the raw buffer, and the order in which they are tried. */
module IrDecode {
  import opened Bits
  import opened IrSignal
  import opened IrProtocol
  import opened Options

  datatype Protocol = NEC | SONY | RC5 | RC6 | PANASONIC | JVC | SANYO | MITSUBISHI | UNKNOWN

  /** A decoded transmission; the address is given by Panasonic alone. */
  datatype Code = Code(decodeType: Protocol, bits: nat, value: nat, address: nat)

  /** The raw buffer: one entry for the gap and then marks at odd and spaces at even places, and room to spare. */
  type Buffer = b: seq<nat> | |b| == RAWBUF witness seq(RAWBUF, _ => 0)

  // ----- Bits told apart by the length of the space (NEC, Panasonic, JVC)

  datatype Distance = Distance(mark: nat, one: nat, zero: nat)

  const NEC_TIMES := Distance(NEC_BIT_MARK, NEC_ONE_SPACE, NEC_ZERO_SPACE)
  const PANASONIC_TIMES := Distance(PANASONIC_BIT_MARK, PANASONIC_ONE_SPACE, PANASONIC_ZERO_SPACE)
  const JVC_TIMES := Distance(JVC_BIT_MARK, JVC_ONE_SPACE, JVC_ZERO_SPACE)

  predicate Times(d: Distance) {
    d == NEC_TIMES || d == PANASONIC_TIMES || d == JVC_TIMES
  }

  /** Whether the pair at index i of a row from place k is a bit. */
  predicate DistanceBit(b: Buffer, k: nat, i: nat, d: Distance)
    requires k + 2 * i + 1 < RAWBUF && Times(d)
  {
    MatchMark(b[k + 2 * i], d.mark) && (MatchSpace(b[k + 2 * i + 1], d.one) || MatchSpace(b[k + 2 * i + 1], d.zero))
  }

  /** The bits of n mark-space pairs from place k, unless one of the pairs is no bit. */
  function DistanceBits(b: Buffer, k: nat, n: nat, d: Distance): (r: Option<seq<bool>>)
    requires k + 2 * n <= RAWBUF && Times(d)
    ensures r.Some? ==> |r.value| == n
  {
    if forall i: nat :: i < n ==> DistanceBit(b, k, i, d) then
      Some(seq(n, i requires 0 <= i < n => MatchSpace(b[k + 2 * i + 1], d.one)))
    else None
  }

  lemma {:induction false} NextDistanceBit(b: Buffer, k: nat, i: nat, d: Distance, read: seq<bool>)
    requires k + 2 * (i + 1) <= RAWBUF && Times(d) && DistanceBits(b, k, i, d) == Some(read)
    requires DistanceBit(b, k, i, d)
    ensures DistanceBits(b, k, i + 1, d) == Some(read + [MatchSpace(b[k + 2 * i + 1], d.one)])
  {
    assert forall j: nat :: j < i ==> DistanceBit(b, k, j, d);
    assert seq(i + 1, j requires 0 <= j < i + 1 => MatchSpace(b[k + 2 * j + 1], d.one))
        == read + [MatchSpace(b[k + 2 * i + 1], d.one)];
  }

  lemma {:induction false} NoDistanceBit(b: Buffer, k: nat, i: nat, n: nat, d: Distance)
    requires k + 2 * n <= RAWBUF && i < n && Times(d) && !DistanceBit(b, k, i, d)
    ensures DistanceBits(b, k, n, d) == None
  {
  }

  // ----- Bits told apart by the length of the mark (Sony, Sanyo, Mitsubishi)

  datatype Width = Width(space: nat, one: nat, zero: nat)

  const SONY_TIMES := Width(SONY_HDR_SPACE, SONY_ONE_MARK, SONY_ZERO_MARK)
  const SANYO_TIMES := Width(SANYO_HDR_SPACE, SANYO_ONE_MARK, SANYO_ZERO_MARK)

  function Cons(bit: bool, rest: Option<seq<bool>>): Option<seq<bool>> {
    if rest.Some? then Some([bit] + rest.value) else None
  }

  /** The bits already read and those still to be read. */
  function Joined(read: seq<bool>, rest: Option<seq<bool>>): Option<seq<bool>> {
    if rest.Some? then Some(read + rest.value) else None
  }

  lemma {:induction false} JoinedNil(read: seq<bool>, rest: Option<seq<bool>>)
    ensures Joined([], rest) == rest && Joined(read, Some([])) == Some(read)
  {
    assert rest.Some? ==> [] + rest.value == rest.value;
    assert read + [] == read;
  }

  lemma {:induction false} JoinedLast(read: seq<bool>, bit: bool)
    ensures Joined(read, Some([bit])) == Some(read + [bit])
  {
  }

  lemma {:induction false} JoinedCons(read: seq<bool>, bit: bool, rest: Option<seq<bool>>)
    ensures Joined(read, Cons(bit, rest)) == Joined(read + [bit], rest)
  {
    if rest.Some? {
      assert read + ([bit] + rest.value) == read + [bit] + rest.value;
    }
  }

  /** Space-mark pairs up to the end of the recording or the first entry that is no such space. */
  function WidthBits(b: Buffer, rawlen: nat, k: nat, t: Width): Option<seq<bool>>
    requires rawlen <= RAWBUF && (t == SONY_TIMES || t == SANYO_TIMES)
    decreases rawlen - k
  {
    if k + 1 >= rawlen || !MatchSpace(b[k], t.space) then Some([])
    else if MatchMark(b[k + 1], t.one) then Cons(true, WidthBits(b, rawlen, k + 2, t))
    else if MatchMark(b[k + 1], t.zero) then Cons(false, WidthBits(b, rawlen, k + 2, t))
    else None
  }

  /** Mark-space pairs up to the end of the recording or the first entry that is no such space. */
  function MitsubishiBits(b: Buffer, rawlen: nat, k: nat): Option<seq<bool>>
    requires rawlen <= RAWBUF
    decreases rawlen - k
  {
    if k + 1 >= rawlen then Some([])
    else if !MatchMark(b[k], MITSUBISHI_ONE_MARK) && !MatchMark(b[k], MITSUBISHI_ZERO_MARK) then None
    else
      var bit := MatchMark(b[k], MITSUBISHI_ONE_MARK);
      if MatchSpace(b[k + 1], MITSUBISHI_HDR_SPACE) then Cons(bit, MitsubishiBits(b, rawlen, k + 2)) else Some([bit])
  }

  // ----- Bits told apart by the order of their levels (RC5, RC6)

  /** A place in the raw buffer, and how many units of that entry have been read. */
  datatype Place = Place(offset: nat, used: nat)

  /** How many units of t1 microseconds an entry lasts, 0 when it is no multiple from 1 to 3. */
  function Available(width: nat, level: Level, t1: nat): (n: nat)
    requires t1 >= MARK_EXCESS
    ensures n <= 3
  {
    var excess: int := if level == MARK then MARK_EXCESS else -MARK_EXCESS;
    if Match(width, t1 + excess) then 1
    else if Match(width, 2 * t1 + excess) then 2
    else if Match(width, 3 * t1 + excess) then 3
    else 0
  }

  function EntryLevel(offset: nat): Level {
    if offset % 2 == 1 then MARK else SPACE
  }

  /** The next level and the place after it; beyond the recording everything is space. */
  function NextLevel(b: Buffer, rawlen: nat, p: Place, t1: nat): (r: Option<(Level, Place)>)
    requires rawlen <= RAWBUF && t1 >= MARK_EXCESS
    ensures r.Some? && p.offset < rawlen ==>
      p.offset < r.value.1.offset || (p.offset == r.value.1.offset && p.used < r.value.1.used <= 2)
    ensures r.Some? && p.offset >= rawlen ==> r.value == (SPACE, p)
  {
    if p.offset >= rawlen then Some((SPACE, p))
    else
      var level := EntryLevel(p.offset);
      var avail := Available(b[p.offset], level, t1);
      if avail == 0 then None
      else if p.used + 1 >= avail then Some((level, Place(p.offset + 1, 0)))
      else Some((level, Place(p.offset, p.used + 1)))
  }

  /** Reads a level that must be the one given. */
  function Expect(b: Buffer, rawlen: nat, p: Place, t1: nat, level: Level): Option<Place>
    requires rawlen <= RAWBUF && t1 >= MARK_EXCESS
  {
    var r := NextLevel(b, rawlen, p, t1);
    if r.Some? && r.value.0 == level then Some(r.value.1) else None
  }

  function Rc5Bits(b: Buffer, rawlen: nat, p: Place): Option<seq<bool>>
    requires rawlen <= RAWBUF
    decreases rawlen - p.offset, 3 - p.used
  {
    if p.offset >= rawlen then Some([])
    else
      var first := NextLevel(b, rawlen, p, RC5_T1);
      if first.None? then None
      else
        var second := NextLevel(b, rawlen, first.value.1, RC5_T1);
        if second.None? || first.value.0 == second.value.0 then None
        else Cons(first.value.0 == SPACE, Rc5Bits(b, rawlen, second.value.1))
  }

  /** Both halves of the bit at index 3 last two units. */
  function Rc6Half(b: Buffer, rawlen: nat, p: Place, i: nat): (r: Option<(Level, Place)>)
    requires rawlen <= RAWBUF
    ensures r.Some? && p.offset < rawlen ==>
      p.offset < r.value.1.offset || (p.offset == r.value.1.offset && p.used < r.value.1.used <= 2)
    ensures r.Some? && p.offset >= rawlen ==> r.value == (SPACE, p)
  {
    var first := NextLevel(b, rawlen, p, RC6_T1);
    if i != 3 || first.None? then first
    else
      var second := NextLevel(b, rawlen, first.value.1, RC6_T1);
      if second.Some? && second.value.0 == first.value.0 then second else None
  }

  function Rc6Bits(b: Buffer, rawlen: nat, p: Place, i: nat): Option<seq<bool>>
    requires rawlen <= RAWBUF
    decreases rawlen - p.offset, 3 - p.used
  {
    if p.offset >= rawlen then Some([])
    else
      var first := Rc6Half(b, rawlen, p, i);
      if first.None? then None
      else
        var second := Rc6Half(b, rawlen, first.value.1, i);
        if second.None? || first.value.0 == second.value.0 then None
        else Cons(first.value.0 == MARK, Rc6Bits(b, rawlen, second.value.1, i + 1))
  }

  // ----- The decoders

  function Coded(kind: Protocol, bits: Option<seq<bool>>): Option<Code> {
    if bits.Some? then Some(Code(kind, |bits.value|, Value(bits.value) % WORD, 0)) else None
  }

  /** A frame of fewer than min bits is none. */
  function AtLeast(min: nat, code: Option<Code>): Option<Code> {
    if code.Some? && code.value.bits < min then None else code
  }

  function Repeated(kind: Protocol): Option<Code> {
    Some(Code(kind, 0, REPEAT, 0))
  }

  function NecCode(b: Buffer, rawlen: nat): Option<Code> {
    if !MatchMark(b[1], NEC_HDR_MARK) then None
    else if rawlen == 4 && MatchSpace(b[2], NEC_RPT_SPACE) && MatchMark(b[3], NEC_BIT_MARK) then Repeated(NEC)
    else if rawlen < 2 * NEC_BITS + 4 || !MatchSpace(b[2], NEC_HDR_SPACE) then None
    else Coded(NEC, DistanceBits(b, 3, NEC_BITS, NEC_TIMES))
  }

  /** A gap that is too short for a new code is taken for a repeat, reported under Sanyo's name. */
  function SonyCode(b: Buffer, rawlen: nat): Option<Code>
    requires rawlen <= RAWBUF
  {
    if rawlen < 2 * SONY_BITS + 2 then None
    else if b[0] < SONY_DOUBLE_SPACE_USECS then Repeated(SANYO)
    else if !MatchMark(b[1], SONY_HDR_MARK) then None
    else AtLeast(12, Coded(SONY, WidthBits(b, rawlen, 2, SONY_TIMES)))
  }

  /** Two header marks are skipped, and the second is counted as one of the bits reported. */
  function SanyoCode(b: Buffer, rawlen: nat): Option<Code>
    requires rawlen <= RAWBUF
  {
    if rawlen < 2 * SANYO_BITS + 2 then None
    else if b[0] < SANYO_DOUBLE_SPACE_USECS then Repeated(SANYO)
    else if !MatchMark(b[1], SANYO_HDR_MARK) || !MatchMark(b[2], SANYO_HDR_MARK) then None
    else
      var code := Coded(SANYO, WidthBits(b, rawlen, 3, SANYO_TIMES));
      AtLeast(12, if code.Some? then Some(code.value.(bits := code.value.bits + 1)) else None)
  }

  function MitsubishiCode(b: Buffer, rawlen: nat): Option<Code>
    requires rawlen <= RAWBUF
  {
    if rawlen < 2 * MITSUBISHI_BITS + 2 || !MatchMark(b[1], MITSUBISHI_HDR_SPACE) then None
    else AtLeast(MITSUBISHI_BITS, Coded(MITSUBISHI, MitsubishiBits(b, rawlen, 2)))
  }

  function Rc5Start(b: Buffer, rawlen: nat): Option<Place>
    requires rawlen <= RAWBUF
  {
    var p1 := Expect(b, rawlen, Place(1, 0), RC5_T1, MARK);
    if p1.None? then None
    else
      var p2 := Expect(b, rawlen, p1.value, RC5_T1, SPACE);
      if p2.None? then None else Expect(b, rawlen, p2.value, RC5_T1, MARK)
  }

  function Rc5Code(b: Buffer, rawlen: nat): Option<Code>
    requires rawlen <= RAWBUF
  {
    if rawlen < MIN_RC5_SAMPLES + 2 then None
    else
      var start := Rc5Start(b, rawlen);
      if start.None? then None else Coded(RC5, Rc5Bits(b, rawlen, start.value))
  }

  function Rc6Start(b: Buffer, rawlen: nat): Option<Place>
    requires rawlen <= RAWBUF
  {
    var p1 := Expect(b, rawlen, Place(3, 0), RC6_T1, MARK);
    if p1.None? then None else Expect(b, rawlen, p1.value, RC6_T1, SPACE)
  }

  function Rc6Code(b: Buffer, rawlen: nat): Option<Code>
    requires rawlen <= RAWBUF
  {
    if rawlen < MIN_RC6_SAMPLES || !MatchMark(b[1], RC6_HDR_MARK) || !MatchSpace(b[2], RC6_HDR_SPACE) then None
    else
      var start := Rc6Start(b, rawlen);
      if start.None? then None else Coded(RC6, Rc6Bits(b, rawlen, start.value, 0))
  }

  /** Here the header space is matched as if it were a mark, and the recorded length is not looked at. */
  function PanasonicCode(b: Buffer): Option<Code> {
    if !MatchMark(b[1], PANASONIC_HDR_MARK) || !MatchMark(b[2], PANASONIC_HDR_SPACE) then None
    else
      var bits := DistanceBits(b, 3, PANASONIC_BITS, PANASONIC_TIMES);
      if bits.None? then None
      else
        var data := Value(bits.value);
        Some(Code(PANASONIC, PANASONIC_BITS, data % WORD, data / WORD % 0x1_0000))
  }

  function JvcCode(b: Buffer, rawlen: nat): Option<Code>
    requires rawlen <= RAWBUF
  {
    if rawlen == 34 && MatchMark(b[1], JVC_BIT_MARK) && MatchMark(b[33], JVC_BIT_MARK) then Repeated(JVC)
    else if !MatchMark(b[1], JVC_HDR_MARK) || rawlen < 2 * JVC_BITS + 1 || !MatchSpace(b[2], JVC_HDR_SPACE) then None
    else JvcBits(b)
  }

  function JvcBits(b: Buffer): Option<Code> {
    var bits := DistanceBits(b, 3, JVC_BITS, JVC_TIMES);
    if MatchMark(b[35], JVC_BIT_MARK) then Coded(JVC, bits) else None
  }

  // ----- Any other code

  const FNV_PRIME_32 := 16777619
  const FNV_BASIS_32 := 2166136261

  /** 0, 1 or 2 as a width is shorter than, like or longer than the one before, with 20% tolerance. */
  function Compare(oldval: nat, newval: nat): nat {
    if 5 * newval < 4 * oldval then 0 else if 5 * oldval < 4 * newval then 2 else 1
  }

  function Hash(b: Buffer, n: nat): nat
    requires n + 2 < RAWBUF
  {
    if n == 0 then FNV_BASIS_32
    else Xor(Hash(b, n - 1) * FNV_PRIME_32 % WORD, Compare(b[n], b[n + 2]))
  }

  function HashCode(b: Buffer, rawlen: nat): Option<Code>
    requires rawlen <= RAWBUF
  {
    if rawlen < 6 then None else Some(Code(UNKNOWN, 32, Hash(b, rawlen - 3) % WORD, 0))
  }

  // ----- The order of the decoders

  function OrElse(first: Option<Code>, second: Option<Code>): Option<Code> {
    if first.Some? then first else second
  }

  function Decoded(b: Buffer, rawlen: nat): Option<Code>
    requires rawlen <= RAWBUF
  {
    OrElse(NecCode(b, rawlen),
    OrElse(SonyCode(b, rawlen),
    OrElse(SanyoCode(b, rawlen),
    OrElse(MitsubishiCode(b, rawlen),
    OrElse(Rc5Code(b, rawlen),
    OrElse(Rc6Code(b, rawlen),
    OrElse(PanasonicCode(b),
    OrElse(JvcCode(b, rawlen), HashCode(b, rawlen)))))))))
  }
}
