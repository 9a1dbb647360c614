/** The receiver's decoding methods, each refining its specification in IrDecode. */
module IrRecv {
  import opened Bits
  import opened IrSignal
  import opened IrProtocol
  import opened IrReceive
  import opened IrDecode
  import opened Options

  class DecodeResults {
    var decodeType: Protocol
    var panasonicAddress: nat
    var value: nat
    var bits: nat
    var rawlen: nat

    constructor ()
    {
      decodeType, panasonicAddress, value, bits, rawlen := UNKNOWN, 0, 0, 0, 0;
    }

    /** The fields report the code; only a Panasonic code has an address. */
    ghost predicate Holds(code: Code)
      reads this
    {
      && decodeType == code.decodeType && value == code.value && bits == code.bits
      && (code.decodeType == PANASONIC ==> panasonicAddress == code.address)
    }
  }

  /** The result of a decoder that found what its specification says. */
  twostate predicate Reported(results: DecodeResults, code: Option<Code>, ok: bool)
    reads results
  {
    && ok == code.Some?
    && results.rawlen == old(results.rawlen)
    && (ok ==> results.Holds(code.value))
    && (!ok ==> results.decodeType == old(results.decodeType) && results.value == old(results.value))
    && (!ok || code.value.decodeType != PANASONIC ==> results.panasonicAddress == old(results.panasonicAddress))
  }

  lemma {:induction false} JvcBitsCases(b: Buffer, data: nat)
    ensures var bits := DistanceBits(b, 3, JVC_BITS, JVC_TIMES);
            JvcBits(b) == if bits.Some? && MatchMark(b[35], JVC_BIT_MARK) then
              Some(Code(JVC, JVC_BITS, Value(bits.value) % WORD, 0)) else None
    ensures data < Pow2(JVC_BITS) ==> data % WORD == data
  {
    if data < Pow2(JVC_BITS) {
      Pow2Word();
      SmallWord(data);
    }
  }

  class IRrecv {
    const irparams: IRparams

    constructor (irparams: IRparams)
      ensures this.irparams == irparams
    {
      this.irparams := irparams;
    }

    ghost predicate Valid()
      reads irparams, irparams.rawbuf
    {
      irparams.Valid()
    }

    ghost function Raw(): Buffer
      requires Valid()
      reads irparams, irparams.rawbuf
    {
      irparams.rawbuf[..]
    }

    method Report(results: DecodeResults, decodeType: Protocol, bits: nat, value: nat)
      modifies results`decodeType, results`bits, results`value
      ensures results.decodeType == decodeType && results.bits == bits && results.value == value
    {
      results.decodeType, results.bits, results.value := decodeType, bits, value;
    }

    /** One mark-space pair. */
    method ReadDistanceBit(from: nat, i: nat, n: nat, d: Distance, ghost read: seq<bool>) returns (ok: bool, bit: bool)
      requires Valid() && i < n && from + 2 * n <= RAWBUF && Times(d)
      requires DistanceBits(Raw(), from, i, d) == Some(read)
      ensures if ok then DistanceBits(Raw(), from, i + 1, d) == Some(read + [bit]) else DistanceBits(Raw(), from, n, d) == None
    {
      var offset := from + 2 * i;
      bit := false;
      ok := false;
      if MatchMark(irparams.rawbuf[offset], d.mark) {
        offset := offset + 1;
        if MatchSpace(irparams.rawbuf[offset], d.one) {
          ok, bit := true, true;
        } else if MatchSpace(irparams.rawbuf[offset], d.zero) {
          ok := true;
        }
      }
      if ok {
        NextDistanceBit(Raw(), from, i, d, read);
      } else {
        NoDistanceBit(Raw(), from, i, n, d);
      }
    }

    /** The loop over n mark-space pairs; a register of n bits never overflows. */
    method ReadDistanceBits(from: nat, n: nat, d: Distance) returns (ok: bool, data: nat)
      requires Valid() && from + 2 * n <= RAWBUF && Times(d)
      ensures ok == DistanceBits(Raw(), from, n, d).Some?
      ensures ok ==> data == Value(DistanceBits(Raw(), from, n, d).value) < Pow2(n)
    {
      data := 0;
      ghost var read := [];
      for i := 0 to n
        invariant DistanceBits(Raw(), from, i, d) == Some(read) && data == Value(read)
      {
        var found, bit := ReadDistanceBit(from, i, n, d, read);
        if !found {
          return false, data;
        }
        ValueSnoc(read, bit);
        data, read := if bit then 2 * data + 1 else 2 * data, read + [bit];
      }
      ok := true;
      ValueBound(read);
    }

    method DecodeNEC(results: DecodeResults) returns (ok: bool)
      requires Valid()
      modifies results
      ensures Reported(results, NecCode(Raw(), irparams.rawlen), ok)
    {
      var offset := 1;
      if !MatchMark(irparams.rawbuf[offset], NEC_HDR_MARK) {
        return false;
      }
      offset := offset + 1;
      if irparams.rawlen == 4 && MatchSpace(irparams.rawbuf[offset], NEC_RPT_SPACE)
         && MatchMark(irparams.rawbuf[offset + 1], NEC_BIT_MARK)
      {
        Report(results, NEC, 0, REPEAT);
        return true;
      }
      if irparams.rawlen < 2 * NEC_BITS + 4 {
        return false;
      }
      if !MatchSpace(irparams.rawbuf[offset], NEC_HDR_SPACE) {
        return false;
      }
      offset := offset + 1;
      var read, data := ReadDistanceBits(offset, NEC_BITS, NEC_TIMES);
      if !read {
        return false;
      }
      Pow2Word();
      SmallWord(data);
      Report(results, NEC, NEC_BITS, data);
      ok := true;
    }

    /** One more bit into the data word, whose oldest bits are lost when it overflows. */
    method ShiftIn(data: nat, bit: bool, ghost read: seq<bool>) returns (data': nat, ghost read': seq<bool>)
      requires data == Value(read) % WORD
      ensures read' == read + [bit] && data' == Value(read') % WORD
    {
      read' := read + [bit];
      data' := if bit then (2 * data + 1) % WORD else 2 * data % WORD;
      ReadBit(read, bit, WORD);
    }

    /** The loop over space-mark pairs, up to the first entry that is no such space. */
    method ReadWidthBits(from: nat, t: Width) returns (ok: bool, data: nat, offset: nat)
      requires Valid() && (t == SONY_TIMES || t == SANYO_TIMES)
      ensures var bits := WidthBits(Raw(), irparams.rawlen, from, t);
              && ok == bits.Some?
              && (ok ==> data == Value(bits.value) % WORD && offset == from + 2 * |bits.value|)
    {
      data := 0;
      offset := from;
      ghost var b, read, all := Raw(), [], WidthBits(Raw(), irparams.rawlen, from, t);
      JoinedNil([], all);
      while offset + 1 < irparams.rawlen
        invariant all == Joined(read, WidthBits(b, irparams.rawlen, offset, t))
        invariant data == Value(read) % WORD && offset == from + 2 * |read|
      {
        if !MatchSpace(irparams.rawbuf[offset], t.space) {
          break;
        }
        offset := offset + 1;
        if MatchMark(irparams.rawbuf[offset], t.one) {
          JoinedCons(read, true, WidthBits(b, irparams.rawlen, offset + 1, t));
          data, read := ShiftIn(data, true, read);
        } else if MatchMark(irparams.rawbuf[offset], t.zero) {
          JoinedCons(read, false, WidthBits(b, irparams.rawlen, offset + 1, t));
          data, read := ShiftIn(data, false, read);
        } else {
          return false, data, offset;
        }
        offset := offset + 1;
      }
      JoinedNil(read, None);
      ok := true;
    }

    method DecodeSony(results: DecodeResults) returns (ok: bool)
      requires Valid()
      modifies results
      ensures Reported(results, SonyCode(Raw(), irparams.rawlen), ok)
    {
      if irparams.rawlen < 2 * SONY_BITS + 2 {
        return false;
      }
      if irparams.rawbuf[0] < SONY_DOUBLE_SPACE_USECS {
        Report(results, SANYO, 0, REPEAT);
        return true;
      }
      if !MatchMark(irparams.rawbuf[1], SONY_HDR_MARK) {
        return false;
      }
      var read, data, offset := ReadWidthBits(2, SONY_TIMES);
      if !read {
        return false;
      }
      results.bits := (offset - 1) / 2;
      if results.bits < 12 {
        results.bits := 0;
        return false;
      }
      Report(results, SONY, results.bits, data);
      ok := true;
    }

    method DecodeSanyo(results: DecodeResults) returns (ok: bool)
      requires Valid()
      modifies results
      ensures Reported(results, SanyoCode(Raw(), irparams.rawlen), ok)
    {
      if irparams.rawlen < 2 * SANYO_BITS + 2 {
        return false;
      }
      if irparams.rawbuf[0] < SANYO_DOUBLE_SPACE_USECS {
        Report(results, SANYO, 0, REPEAT);
        return true;
      }
      if !MatchMark(irparams.rawbuf[1], SANYO_HDR_MARK) {
        return false;
      }
      if !MatchMark(irparams.rawbuf[2], SANYO_HDR_MARK) {
        return false;
      }
      var read, data, offset := ReadWidthBits(3, SANYO_TIMES);
      if !read {
        return false;
      }
      results.bits := (offset - 1) / 2;
      if results.bits < 12 {
        results.bits := 0;
        return false;
      }
      Report(results, SANYO, results.bits, data);
      ok := true;
    }

    method ReadMitsubishiBits() returns (ok: bool, data: nat, offset: nat)
      requires Valid()
      ensures var bits := MitsubishiBits(Raw(), irparams.rawlen, 2);
              && ok == bits.Some?
              && (ok ==> data == Value(bits.value) % WORD && (offset - 1) / 2 == |bits.value|)
    {
      data := 0;
      offset := 2;
      ghost var b, read, all := Raw(), [], MitsubishiBits(Raw(), irparams.rawlen, 2);
      JoinedNil([], all);
      while offset + 1 < irparams.rawlen
        invariant all == Joined(read, MitsubishiBits(b, irparams.rawlen, offset))
        invariant data == Value(read) % WORD && offset == 2 + 2 * |read|
      {
        ghost var before, bit := read, MatchMark(b[offset], MITSUBISHI_ONE_MARK);
        if MatchMark(irparams.rawbuf[offset], MITSUBISHI_ONE_MARK) {
          data, read := ShiftIn(data, true, read);
        } else if MatchMark(irparams.rawbuf[offset], MITSUBISHI_ZERO_MARK) {
          data, read := ShiftIn(data, false, read);
        } else {
          return false, data, offset;
        }
        offset := offset + 1;
        if !MatchSpace(irparams.rawbuf[offset], MITSUBISHI_HDR_SPACE) {
          JoinedLast(before, bit);
          return true, data, offset;
        }
        JoinedCons(before, bit, MitsubishiBits(b, irparams.rawlen, offset + 1));
        offset := offset + 1;
      }
      JoinedNil(read, None);
      ok := true;
    }

    method DecodeMitsubishi(results: DecodeResults) returns (ok: bool)
      requires Valid()
      modifies results
      ensures Reported(results, MitsubishiCode(Raw(), irparams.rawlen), ok)
    {
      if irparams.rawlen < 2 * MITSUBISHI_BITS + 2 {
        return false;
      }
      if !MatchMark(irparams.rawbuf[1], MITSUBISHI_HDR_SPACE) {
        return false;
      }
      var read, data, offset := ReadMitsubishiBits();
      if !read {
        return false;
      }
      results.bits := (offset - 1) / 2;
      if results.bits < MITSUBISHI_BITS {
        results.bits := 0;
        return false;
      }
      Report(results, MITSUBISHI, results.bits, data);
      ok := true;
    }

    /** One level from the raw buffer; no level (-1 in the source) if the entry is no multiple of t1. */
    method GetRClevel(offset: nat, used: nat, t1: nat) returns (level: Option<Level>, offset': nat, used': nat)
      requires Valid() && t1 >= MARK_EXCESS
      ensures var r := NextLevel(Raw(), irparams.rawlen, Place(offset, used), t1);
              if r.Some? then level == Some(r.value.0) && Place(offset', used') == r.value.1 else level == None
    {
      offset', used' := offset, used;
      if offset >= irparams.rawlen {
        return Some(SPACE), offset', used';
      }
      var width := irparams.rawbuf[offset];
      var val := if offset % 2 == 1 then MARK else SPACE;
      var correction: int := if val == MARK then MARK_EXCESS else -MARK_EXCESS;
      var avail: nat;
      if Match(width, t1 + correction) {
        avail := 1;
      } else if Match(width, 2 * t1 + correction) {
        avail := 2;
      } else if Match(width, 3 * t1 + correction) {
        avail := 3;
      } else {
        return None, offset', used';
      }
      used' := used' + 1;
      if used' >= avail {
        used' := 0;
        offset' := offset' + 1;
      }
      level := Some(val);
    }

    method ReadRC5Bits(start: Place) returns (ok: bool, nbits: nat, data: nat)
      requires Valid()
      ensures var bits := Rc5Bits(Raw(), irparams.rawlen, start);
              ok == bits.Some? && (ok ==> nbits == |bits.value| && data == Value(bits.value) % WORD)
    {
      var offset, used: nat;
      ghost var b, read, all := Raw(), [], Rc5Bits(Raw(), irparams.rawlen, start);
      JoinedNil([], all);
      data, nbits, offset, used := 0, 0, start.offset, start.used;
      while offset < irparams.rawlen
        invariant all == Joined(read, Rc5Bits(b, irparams.rawlen, Place(offset, used)))
        invariant data == Value(read) % WORD && nbits == |read|
        decreases irparams.rawlen - offset, 3 - used
      {
        var levelA, offsetA, usedA := GetRClevel(offset, used, RC5_T1);
        var levelB, offsetB, usedB := GetRClevel(offsetA, usedA, RC5_T1);
        ghost var rest := Rc5Bits(b, irparams.rawlen, Place(offsetB, usedB));
        if levelA == Some(SPACE) && levelB == Some(MARK) {
          JoinedCons(read, true, rest);
          data, read := ShiftIn(data, true, read);
        } else if levelA == Some(MARK) && levelB == Some(SPACE) {
          JoinedCons(read, false, rest);
          data, read := ShiftIn(data, false, read);
        } else {
          return false, nbits, data;
        }
        offset, used := offsetB, usedB;
        nbits := nbits + 1;
      }
      JoinedNil(read, None);
      ok := true;
    }

    method DecodeRC5(results: DecodeResults) returns (ok: bool)
      requires Valid()
      modifies results
      ensures Reported(results, Rc5Code(Raw(), irparams.rawlen), ok)
    {
      if irparams.rawlen < MIN_RC5_SAMPLES + 2 {
        return false;
      }
      var level: Option<Level>, offset: nat, used: nat := None, 1, 0;
      level, offset, used := GetRClevel(offset, used, RC5_T1);
      if level != Some(MARK) {
        return false;
      }
      level, offset, used := GetRClevel(offset, used, RC5_T1);
      if level != Some(SPACE) {
        return false;
      }
      level, offset, used := GetRClevel(offset, used, RC5_T1);
      if level != Some(MARK) {
        return false;
      }
      var read, nbits, data := ReadRC5Bits(Place(offset, used));
      if !read {
        return false;
      }
      Report(results, RC5, nbits, data);
      ok := true;
    }

    /** Half a bit of RC6, which is read twice when the bit is the trailer bit. */
    method GetHalf(offset: nat, used: nat, nbits: nat) returns (level: Option<Level>, offset': nat, used': nat)
      requires Valid()
      ensures var r := Rc6Half(Raw(), irparams.rawlen, Place(offset, used), nbits);
              if r.Some? then level == Some(r.value.0) && Place(offset', used') == r.value.1 else level == None
    {
      level, offset', used' := GetRClevel(offset, used, RC6_T1);
      if nbits == 3 {
        var again: Option<Level>;
        again, offset', used' := GetRClevel(offset', used', RC6_T1);
        if level != again {
          return None, offset', used';
        }
      }
    }

    method ReadRC6Bits(start: Place) returns (ok: bool, nbits: nat, data: nat)
      requires Valid()
      ensures var bits := Rc6Bits(Raw(), irparams.rawlen, start, 0);
              ok == bits.Some? && (ok ==> nbits == |bits.value| && data == Value(bits.value) % WORD)
    {
      var offset, used: nat;
      ghost var b, read, all := Raw(), [], Rc6Bits(Raw(), irparams.rawlen, start, 0);
      JoinedNil([], all);
      data, nbits, offset, used := 0, 0, start.offset, start.used;
      while offset < irparams.rawlen
        invariant all == Joined(read, Rc6Bits(b, irparams.rawlen, Place(offset, used), nbits))
        invariant data == Value(read) % WORD && nbits == |read|
        decreases irparams.rawlen - offset, 3 - used
      {
        var levelA, offsetA, usedA := GetHalf(offset, used, nbits);
        var levelB, offsetB, usedB := GetHalf(offsetA, usedA, nbits);
        ghost var rest := Rc6Bits(b, irparams.rawlen, Place(offsetB, usedB), nbits + 1);
        if levelA == Some(MARK) && levelB == Some(SPACE) {
          JoinedCons(read, true, rest);
          data, read := ShiftIn(data, true, read);
        } else if levelA == Some(SPACE) && levelB == Some(MARK) {
          JoinedCons(read, false, rest);
          data, read := ShiftIn(data, false, read);
        } else {
          return false, nbits, data;
        }
        offset, used := offsetB, usedB;
        nbits := nbits + 1;
      }
      JoinedNil(read, None);
      ok := true;
    }

    method DecodeRC6(results: DecodeResults) returns (ok: bool)
      requires Valid()
      modifies results
      ensures Reported(results, Rc6Code(Raw(), irparams.rawlen), ok)
    {
      if irparams.rawlen < MIN_RC6_SAMPLES {
        return false;
      }
      if !MatchMark(irparams.rawbuf[1], RC6_HDR_MARK) {
        return false;
      }
      if !MatchSpace(irparams.rawbuf[2], RC6_HDR_SPACE) {
        return false;
      }
      var level: Option<Level>, offset: nat, used: nat := None, 3, 0;
      level, offset, used := GetRClevel(offset, used, RC6_T1);
      if level != Some(MARK) {
        return false;
      }
      level, offset, used := GetRClevel(offset, used, RC6_T1);
      if level != Some(SPACE) {
        return false;
      }
      var read, nbits, data := ReadRC6Bits(Place(offset, used));
      if !read {
        return false;
      }
      Report(results, RC6, nbits, data);
      ok := true;
    }

    method DecodePanasonic(results: DecodeResults) returns (ok: bool)
      requires Valid()
      modifies results
      ensures Reported(results, PanasonicCode(Raw()), ok)
    {
      if !MatchMark(irparams.rawbuf[1], PANASONIC_HDR_MARK) {
        return false;
      }
      if !MatchMark(irparams.rawbuf[2], PANASONIC_HDR_SPACE) {
        return false;
      }
      var read, data := ReadDistanceBits(3, PANASONIC_BITS, PANASONIC_TIMES);
      if !read {
        return false;
      }
      Report(results, PANASONIC, PANASONIC_BITS, data % WORD);
      results.panasonicAddress := data / WORD % 0x1_0000;
      ok := true;
    }

    method DecodeJVC(results: DecodeResults) returns (ok: bool)
      requires Valid()
      modifies results
      ensures Reported(results, JvcCode(Raw(), irparams.rawlen), ok)
    {
      var offset := 1;
      if irparams.rawlen - 1 == 33 && MatchMark(irparams.rawbuf[offset], JVC_BIT_MARK)
         && MatchMark(irparams.rawbuf[irparams.rawlen - 1], JVC_BIT_MARK)
      {
        Report(results, JVC, 0, REPEAT);
        return true;
      }
      if !MatchMark(irparams.rawbuf[offset], JVC_HDR_MARK) {
        return false;
      }
      offset := offset + 1;
      if irparams.rawlen < 2 * JVC_BITS + 1 {
        return false;
      }
      if !MatchSpace(irparams.rawbuf[offset], JVC_HDR_SPACE) {
        return false;
      }
      ok := DecodeJVCBits(results);
    }

    /** The bits after a header, and the mark at their end. */
    method DecodeJVCBits(results: DecodeResults) returns (ok: bool)
      requires Valid()
      modifies results
      ensures Reported(results, JvcBits(Raw()), ok)
    {
      var offset := 3;
      var read, data := ReadDistanceBits(offset, JVC_BITS, JVC_TIMES);
      JvcBitsCases(Raw(), data);
      ok := read && MatchMark(irparams.rawbuf[offset + 2 * JVC_BITS], JVC_BIT_MARK);
      if ok {
        Report(results, JVC, JVC_BITS, data);
      }
    }

    method DecodeHash(results: DecodeResults) returns (ok: bool)
      requires Valid()
      modifies results
      ensures Reported(results, HashCode(Raw(), irparams.rawlen), ok)
    {
      if irparams.rawlen < 6 {
        return false;
      }
      var hash := FNV_BASIS_32;
      for i := 1 to irparams.rawlen - 2
        invariant hash == Hash(Raw(), i - 1)
      {
        var value := Compare(irparams.rawbuf[i], irparams.rawbuf[i + 2]);
        hash := Xor(hash * FNV_PRIME_32 % WORD, value);
      }
      Report(results, UNKNOWN, 32, hash % WORD);
      ok := true;
    }

    /** The decoders in their order; a recording that none of them knows is thrown away. */
    method Decode(results: DecodeResults) returns (ok: bool)
      requires Valid()
      modifies results, irparams`rcvstate, irparams`rawlen
      ensures Valid()
      ensures var stopped := old(irparams.rcvstate) == STATE_STOP;
              var code := Decoded(old(Raw()), old(irparams.rawlen));
              && ok == (stopped && code.Some?)
              && (ok ==> results.Holds(code.value))
              && irparams.View() == if stopped && !ok then old(irparams.View()).(rcvstate := STATE_IDLE, rawlen := 0)
                                    else old(irparams.View())
    {
      results.rawlen := irparams.rawlen;
      if irparams.rcvstate != STATE_STOP {
        return false;
      }
      ok := DecodeNEC(results);
      if ok { return; }
      ok := DecodeSony(results);
      if ok { return; }
      ok := DecodeSanyo(results);
      if ok { return; }
      ok := DecodeMitsubishi(results);
      if ok { return; }
      ok := DecodeRC5(results);
      if ok { return; }
      ok := DecodeRC6(results);
      if ok { return; }
      ok := DecodePanasonic(results);
      if ok { return; }
      ok := DecodeJVC(results);
      if ok { return; }
      ok := DecodeHash(results);
      if ok { return; }
      irparams.Resume();
    }
  }

  lemma {:induction false} SmallWord(data: nat)
    requires data < WORD
    ensures data % WORD == data
  {
  }
}
