/** Base64 as the server's handshakes use it: an encoder for section 4 of RFC 4648, and a decoder with an end of its own. */
module Base64 {
  import opened Bits

  const NUL: char := 0 as char

  // ----- The alphabet

  function Symbol(k: nat): char
    requires k < 64
  {
    if k < 26 then ('A' as int + k) as char
    else if k < 52 then ('a' as int + k - 26) as char
    else if k < 62 then ('0' as int + k - 52) as char
    else if k == 62 then '+'
    else '/'
  }

  /** One more than the value of a symbol; 0 for any other character. */
  function Value(c: char): (v: nat)
    ensures v <= 64
  {
    if 'A' <= c <= 'Z' then c as int - 'A' as int + 1
    else if 'a' <= c <= 'z' then c as int - 'a' as int + 27
    else if '0' <= c <= '9' then c as int - '0' as int + 53
    else if c == '+' then 63
    else if c == '/' then 64
    else 0
  }

  lemma {:induction false} ValueOfSymbol(k: nat)
    requires k < 64
    ensures Value(Symbol(k)) == k + 1 && Symbol(k) != NUL && Value('=') == 0
  {
  }

  // ----- Encoding

  /** Three bytes as a number of 24 bits, and its four digits of 6 bits. */
  function Group(a: byte, b: byte, c: byte): nat { a * 0x1_0000 + b * 0x100 + c }

  function Digit(group: nat, i: nat): (d: nat)
    ensures d < 64
  {
    if i == 0 then group / 0x4_0000 % 64
    else if i == 1 then group / 0x1000 % 64
    else if i == 2 then group / 64 % 64
    else group % 64
  }

  function First(x: seq<byte>): nat {
    Group(if |x| > 0 then x[0] else 0, if |x| > 1 then x[1] else 0, if |x| > 2 then x[2] else 0)
  }

  function Later(x: seq<byte>): seq<byte> { if |x| > 3 then x[3..] else [] }

  /** The four symbols of up to three bytes, padded. */
  function Four(g: nat, len: nat): (s: string)
    ensures |s| == 4
  {
    [Symbol(Digit(g, 0)), Symbol(Digit(g, 1)),
     if len > 1 then Symbol(Digit(g, 2)) else '=',
     if len > 2 then Symbol(Digit(g, 3)) else '=']
  }

  /** The encoding of section 4 of RFC 4648: groups of three bytes as four symbols, the last one padded. */
  function Encoding(x: seq<byte>): string
    decreases |x|
  {
    if x == [] then "" else Four(First(x), |x|) + Encoding(Later(x))
  }

  lemma {:induction false} EncodingStep(sofar: string, x: seq<byte>, four: string)
    requires x != [] && four == Four(First(x), |x|)
    ensures sofar + Encoding(x) == (sofar + four) + Encoding(Later(x)) && |Encoding(x)| == 4 + |Encoding(Later(x))|
  {
    var tail := Encoding(Later(x));
    assert Encoding(x) == four + tail;
    assert sofar + (four + tail) == (sofar + four) + tail;
  }

  lemma {:induction false} LaterLength(n: nat, m: nat)
    requires n > 0 && m == if n > 3 then n - 3 else 0
    ensures (n + 2) / 3 == 1 + (m + 2) / 3
  {
  }

  lemma {:induction false} EncodingLength(x: seq<byte>)
    ensures |Encoding(x)| == (|x| + 2) / 3 * 4
    decreases |x|
  {
    if x != [] {
      EncodingStep("", x, Four(First(x), |x|));
      EncodingLength(Later(x));
      LaterLength(|x|, |Later(x)|);
    }
  }

  lemma {:induction false} TopDigits(g: nat, a: nat, b: nat, r: nat)
    requires g == a * 0x4_0000 + b * 0x1000 + r && a < 64 && b < 64 && r < 0x1000
    ensures Digit(g, 0) == a && Digit(g, 1) == b
  {
    assert g / 0x1000 == a * 64 + b;
    assert g / 0x4_0000 == a;
  }

  lemma {:induction false} LowDigits(g: nat, q: nat, c: nat, d: nat)
    requires g == q * 0x1000 + c * 64 + d && c < 64 && d < 64
    ensures Digit(g, 2) == c && Digit(g, 3) == d
  {
    assert g / 64 == q * 64 + c;
  }

  /** Shifting and masking bytes gives the digits of their group. */
  lemma {:induction false} Shifts(a: byte, b: byte, c: byte)
    ensures var g := Group(a, b, c);
            && a / 4 == Digit(g, 0) && a % 4 * 16 + b / 16 == Digit(g, 1)
            && b % 16 * 4 + c / 64 == Digit(g, 2) && c % 64 == Digit(g, 3)
  {
    var g := Group(a, b, c);
    TopDigits(g, a / 4, a % 4 * 16 + b / 16, b % 16 * 0x100 + c);
    LowDigits(g, a * 16 + b / 16, b % 16 * 4 + c / 64, c % 64);
  }

  /** Encodes into a buffer; -1 if that is not two characters longer than the encoding. */
  method EncodeString(x: seq<byte>, out: array<char>, outSize: nat) returns (n: int)
    requires outSize <= out.Length
    modifies out
    ensures n == if |Encoding(x)| + 1 < outSize then |Encoding(x)| else -1
    ensures n >= 0 ==> out[..n] == Encoding(x) && out[n] == NUL
    ensures out[outSize..] == old(out[outSize..])
  {
    var p, done := 0, 0;
    while p < |x|
      invariant p <= |x| && done <= out.Length && (done == 0 || done < outSize)
      invariant out[..done] + Encoding(x[p..]) == Encoding(x)
      invariant out[outSize..] == old(out[outSize..])
    {
      ghost var rest, sofar := x[p..], out[..done];
      var len := if |x| - p < 3 then |x| - p else 3;
      var a := x[p];
      var b: byte := if len > 1 then x[p + 1] else 0;
      var c: byte := if len > 2 then x[p + 2] else 0;
      p := p + len;
      assert x[p..] == Later(rest);
      ghost var four := Four(First(rest), |rest|);
      EncodingStep(sofar, rest, four);
      if done + 4 >= outSize {
        return -1;
      }
      PutFour(out, done, a, b, c, len);
      assert First(rest) == Group(a, b, c) && four == Four(First(rest), len);
      assert out[..done + 4] == sofar + four;
      done := done + 4;
    }
    if done + 1 >= outSize {
      return -1;
    }
    out[done] := NUL;
    assert Encoding([]) == "";
    return done;
  }

  method PutFour(out: array<char>, at: nat, a: byte, b: byte, c: byte, len: nat)
    requires at + 4 <= out.Length
    modifies out
    ensures out[..at + 4] == old(out[..at]) + Four(Group(a, b, c), len) && out[at + 4..] == old(out[at + 4..])
  {
    Shifts(a, b, c);
    out[at] := Symbol(a / 4);
    out[at + 1] := Symbol(a % 4 * 16 + b / 16);
    out[at + 2] := if len > 1 then Symbol(b % 16 * 4 + c / 64) else '=';
    out[at + 3] := if len > 2 then Symbol(c % 64) else '=';
  }
  // ----- Decoding

  type sextet = d: int | 0 <= d < 64

  /** What reading leaves: the input behind it, the four digits, and the characters counted. */
  datatype Scan = Scan(rest: string, digits: seq<sextet>, len: nat)

  /** Characters up to the next symbol count, but the last one of the input neither counts nor is looked at. */
  function ReadSymbol(input: string, len: nat): (r: (string, sextet, nat))
    requires input != ""
    ensures |r.0| < |input|
    decreases |input|
  {
    var rest, v := input[1..], Value(input[0]);
    if rest == "" then ("", 0, len)
    else if v > 0 then (rest, v - 1, len + 1)
    else ReadSymbol(rest, len + 1)
  }

  function ReadQuad(input: string, digits: seq<sextet>, i: nat, len: nat): (s: Scan)
    requires |digits| == 4 && i <= 4
    ensures |s.digits| == 4 && |s.rest| <= |input| && (i < 4 && input != "" ==> |s.rest| < |input|)
    decreases 4 - i
  {
    if i == 4 || input == "" then Scan(input, digits, len)
    else
      var t := ReadSymbol(input, len);
      ReadQuad(t.0, digits[i := t.1], i + 1, t.2)
  }

  function HighByte(d0: nat, d1: nat): byte
    requires d0 < 64 && d1 < 64
  {
    d0 * 4 + d1 / 16
  }

  function MiddleByte(d1: nat, d2: nat): byte
    requires d1 < 64 && d2 < 64
  {
    d1 * 16 % 256 + d2 / 4
  }

  function LowByte(d2: nat, d3: nat): byte
    requires d2 < 64 && d3 < 64
  {
    d2 % 4 * 64 + d3
  }

  function Bytes(digits: seq<sextet>, len: nat): (b: seq<byte>)
    requires |digits| == 4
    ensures |b| == if len < 2 then 0 else if len < 5 then len - 1 else 3
  {
    var a, b, c := HighByte(digits[0], digits[1]), MiddleByte(digits[1], digits[2]), LowByte(digits[2], digits[3]);
    if len < 2 then [] else if len == 2 then [a] else if len == 3 then [a, b] else [a, b, c]
  }

  /** The bytes written, and the number that is counted for them. */
  function Decoding(input: string, digits: seq<sextet>): (seq<byte>, int)
    requires |digits| == 4
    decreases |input|
  {
    if input == "" then ([], 0)
    else
      var s := ReadQuad(input, digits, 0, 0);
      var later := Decoding(s.rest, s.digits);
      (Bytes(s.digits, s.len) + later.0, s.len - 1 + later.1)
  }

  /** Whether the counts stay within the size given. */
  predicate Fits(input: string, digits: seq<sextet>, done: int, outSize: int)
    requires |digits| == 4
    decreases |input|
  {
    if input == "" then done + 1 < outSize
    else
      var s := ReadQuad(input, digits, 0, 0);
      done + s.len - 1 <= outSize && Fits(s.rest, s.digits, done + s.len - 1, outSize)
  }

  const ZEROS: seq<sextet> := [0, 0, 0, 0]

  lemma {:induction false} DecodingStep(sofar: seq<byte>, input: string, digits: seq<sextet>)
    requires input != "" && |digits| == 4
    ensures var s := ReadQuad(input, digits, 0, 0);
            && sofar + Decoding(input, digits).0 == (sofar + Bytes(s.digits, s.len)) + Decoding(s.rest, s.digits).0
            && Decoding(input, digits).1 == s.len - 1 + Decoding(s.rest, s.digits).1
            && (s.len == 0 ==> s.rest == "")
  {
    var s := ReadQuad(input, digits, 0, 0);
    var b, tail := Bytes(s.digits, s.len), Decoding(s.rest, s.digits).0;
    if s.len == 0 {
      NothingCounted(input, digits);
    }
    assert sofar + (b + tail) == (sofar + b) + tail;
  }

  lemma {:induction false} FitsStep(input: string, digits: seq<sextet>, done: int, outSize: int, s: Scan)
    requires input != "" && |digits| == 4 && s == ReadQuad(input, digits, 0, 0)
    ensures Fits(input, digits, done, outSize)
        <==> done + s.len - 1 <= outSize && Fits(s.rest, s.digits, done + s.len - 1, outSize)
  {
  }

  /** A group of which nothing is counted is the end of the input. */
  lemma {:induction false} NothingCounted(input: string, digits: seq<sextet>)
    requires input != "" && |digits| == 4 && ReadQuad(input, digits, 0, 0).len == 0
    ensures ReadQuad(input, digits, 0, 0).rest == ""
  {
    var t := ReadSymbol(input, 0);
    SymbolCounts(input, 0);
    QuadCounts(t.0, digits[0 := t.1], 1, t.2);
  }

  lemma {:induction false} SymbolCounts(input: string, len: nat)
    requires input != ""
    ensures ReadSymbol(input, len).2 >= len && (ReadSymbol(input, len).2 == len ==> ReadSymbol(input, len).0 == "")
    decreases |input|
  {
    if |input| > 1 && Value(input[0]) == 0 {
      SymbolCounts(input[1..], len + 1);
    }
  }

  lemma {:induction false} QuadCounts(input: string, digits: seq<sextet>, i: nat, len: nat)
    requires |digits| == 4 && i <= 4
    ensures ReadQuad(input, digits, i, len).len >= len
    decreases 4 - i
  {
    if i < 4 && input != "" {
      var t := ReadSymbol(input, len);
      SymbolCounts(input, len);
      QuadCounts(t.0, digits[i := t.1], i + 1, t.2);
    }
  }

  /** Reads on to the next symbol, or to the end. */
  method ScanSymbol(input: string, start: nat, count: nat) returns (p: nat, digit: sextet, len: nat)
    requires start < |input|
    ensures start < p <= |input| && (input[p..], digit, len) == ReadSymbol(input[start..], count)
  {
    p, digit, len := start, 0, count;
    var v := 0;
    while p < |input| && v == 0
      invariant start <= p <= |input|
      invariant v == 0 && p < |input| ==> ReadSymbol(input[start..], count) == ReadSymbol(input[p..], len)
      invariant v != 0 || p == |input| ==> start < p && ReadSymbol(input[start..], count) == (input[p..], digit, len)
    {
      v := Value(input[p]);
      assert input[p..][1..] == input[p + 1..];
      p := p + 1;
      if p < |input| {
        len := len + 1;
        if v > 0 {
          digit := v - 1;
        }
      } else {
        digit := 0;
      }
    }
  }

  /** Reads the four symbols of a group. */
  method ScanQuad(input: string, start: nat, digits: seq<sextet>) returns (p: nat, quad: seq<sextet>, len: nat)
    requires start < |input| && |digits| == 4
    ensures start < p <= |input| && |quad| == 4 && Scan(input[p..], quad, len) == ReadQuad(input[start..], digits, 0, 0)
  {
    p, quad, len := start, digits, 0;
    var i := 0;
    while i < 4 && p < |input|
      invariant start <= p <= |input| && i <= 4 && |quad| == 4 && (i > 0 ==> start < p)
      invariant ReadQuad(input[start..], digits, 0, 0) == ReadQuad(input[p..], quad, i, len)
    {
      var digit;
      p, digit, len := ScanSymbol(input, p, len);
      quad := quad[i := digit];
      i := i + 1;
    }
  }

  /** Decodes into a buffer; -1 if its size is less than two more than the count. */
  method DecodeString(input: string, out: array<byte>, outSize: nat) returns (n: int)
    requires outSize <= out.Length
    modifies out
    ensures n == if Fits(input, ZEROS, 0, outSize) then Decoding(input, ZEROS).1 else -1
    ensures Fits(input, ZEROS, 0, outSize) ==>
      var b := Decoding(input, ZEROS).0;
      |b| < outSize && out[..|b|] == b && out[|b|] == 0
    ensures out[outSize..] == old(out[outSize..])
  {
    ghost var ahead := (rest: string, digits: seq<sextet>, n: int, sofar: seq<byte>) =>
      if |digits| == 4 then Ahead(rest, digits, n, sofar, outSize) else Decoded(false, [], 0);
    assert [] + Decoding(input, ZEROS).0 == Decoding(input, ZEROS).0;
    assert ahead(input, ZEROS, 0, []) == Ahead(input, ZEROS, 0, [], outSize);
    n := DecodeAll(input, out, outSize, ahead, ahead(input, ZEROS, 0, []));
  }

  method DecodeAll(input: string, out: array<byte>, outSize: nat, ghost ahead: Progress, ghost whole: Decoded) returns (n: int)
    requires outSize <= out.Length && IsAhead(ahead, outSize) && whole == ahead(input, ZEROS, 0, [])
    modifies out
    ensures n == if whole.fits then whole.count else -1
    ensures whole.fits ==> |whole.bytes| < outSize && out[..|whole.bytes|] == whole.bytes && out[|whole.bytes|] == 0
    ensures out[outSize..] == old(out[outSize..])
  {
    var p, at: nat := 0, 0;
    var digits := ZEROS;
    n := 0;
    assert input[0..] == input && out[..0] == [];
    while p < |input|
      invariant p <= |input| && |digits| == 4 && at <= outSize
      invariant at <= n || (p == |input| && at == n + 1)
      invariant ahead(input[p..], digits, n, out[..at]) == whole
      invariant out[outSize..] == old(out[outSize..])
    {
      ghost var sofar, rest, before := out[..at], input[p..], digits;
      var len;
      p, digits, len := ScanQuad(input, p, digits);
      AheadStep(ahead, rest, before, n, sofar, outSize, input[p..], digits, len);
      if outSize < n + len - 1 {
        return -1;
      }
      at := PutBytes(out, at, digits, len);
      n := n + len - 1;
      assert out[..at] == sofar + Bytes(digits, len);
    }
    assert input[p..] == "";
    AheadEnd(ahead, digits, n, out[..at], outSize);
    if n + 1 >= outSize {
      return -1;
    }
    out[at] := 0;
  }

  datatype Decoded = Decoded(fits: bool, bytes: seq<byte>, count: int)

  /** What comes of some bytes done and an input still ahead. */
  ghost function Ahead(rest: string, digits: seq<sextet>, n: int, sofar: seq<byte>, outSize: nat): Decoded
    requires |digits| == 4
  {
    Decoded(Fits(rest, digits, n, outSize), sofar + Decoding(rest, digits).0, n + Decoding(rest, digits).1)
  }

  type Progress = (string, seq<sextet>, int, seq<byte>) -> Decoded

  ghost predicate IsAhead(ahead: Progress, outSize: nat) {
    forall rest, digits, n, sofar {:trigger Ahead(rest, digits, n, sofar, outSize)} ::
      |digits| == 4 ==> ahead(rest, digits, n, sofar) == Ahead(rest, digits, n, sofar, outSize)
  }

  lemma {:induction false} AheadStep(ahead: Progress, rest: string, digits: seq<sextet>, n: int, sofar: seq<byte>,
                                     outSize: nat, later: string, quad: seq<sextet>, len: nat)
    requires IsAhead(ahead, outSize) && |digits| == 4 && |quad| == 4 && rest != ""
    requires ReadQuad(rest, digits, 0, 0) == Scan(later, quad, len)
    ensures n + len - 1 <= outSize ==>
      ahead(rest, digits, n, sofar) == ahead(later, quad, n + len - 1, sofar + Bytes(quad, len))
    ensures n + len - 1 > outSize ==> !ahead(rest, digits, n, sofar).fits
    ensures len == 0 ==> later == ""
  {
    DecodingStep(sofar, rest, digits);
    FitsStep(rest, digits, n, outSize, Scan(later, quad, len));
    assert ahead(rest, digits, n, sofar) == Ahead(rest, digits, n, sofar, outSize);
    var bytes := sofar + Bytes(quad, len);
    assert ahead(later, quad, n + len - 1, bytes) == Ahead(later, quad, n + len - 1, bytes, outSize);
  }

  lemma {:induction false} AheadEnd(ahead: Progress, digits: seq<sextet>, n: int, sofar: seq<byte>, outSize: nat)
    requires IsAhead(ahead, outSize) && |digits| == 4
    ensures ahead("", digits, n, sofar) == Decoded(n + 1 < outSize, sofar, n)
  {
    assert ahead("", digits, n, sofar) == Ahead("", digits, n, sofar, outSize);
    assert sofar + [] == sofar;
  }

  method PutBytes(out: array<byte>, at: nat, digits: seq<sextet>, len: nat) returns (end: nat)
    requires |digits| == 4 && at + |Bytes(digits, len)| <= out.Length
    modifies out
    ensures end == at + |Bytes(digits, len)| && out[..end] == old(out[..at]) + Bytes(digits, len)
    ensures out[end..] == old(out[end..])
  {
    var b := Bytes(digits, len);
    end := at;
    if len >= 2 {
      out[end] := b[0];
      end := end + 1;
    }
    if len >= 3 {
      out[end] := b[1];
      end := end + 1;
    }
    if len >= 4 {
      out[end] := b[2];
      end := end + 1;
    }
  }

  // ----- Decoding what was encoded

  lemma {:induction false} SymbolRead(k: sextet, rest: string, input: string, len: nat)
    requires input == [Symbol(k)] + rest
    ensures ReadSymbol(input, len) == if rest == "" then ("", 0, len) else (rest, k, len + 1)
  {
    ValueOfSymbol(k);
    assert input[1..] == rest;
  }

  /** The bytes come back from the digits of their group. */
  lemma {:induction false} BytesBack(a: byte, b: byte, c: byte)
    ensures var g := Group(a, b, c);
            && HighByte(Digit(g, 0), Digit(g, 1)) == a
            && MiddleByte(Digit(g, 1), Digit(g, 2)) == b
            && LowByte(Digit(g, 2), Digit(g, 3)) == c
  {
    Shifts(a, b, c);
    FromDigits(a, b, c, a / 4, a % 4 * 16 + b / 16, b % 16 * 4 + c / 64, c % 64);
  }

  lemma {:induction false} FromDigits(a: byte, b: byte, c: byte, d0: nat, d1: nat, d2: nat, d3: nat)
    requires d0 == a / 4 && d1 == a % 4 * 16 + b / 16 && d2 == b % 16 * 4 + c / 64 && d3 == c % 64
    ensures d0 * 4 + d1 / 16 == a && d1 * 16 % 256 + d2 / 4 == b && d2 % 4 * 64 + d3 == c
  {
    assert d1 / 16 == a % 4 && d1 % 16 == b / 16;
    assert d1 * 16 == a % 4 * 256 + b / 16 * 16;
    assert d2 / 4 == b % 16 && d2 % 4 == c / 64;
  }

  lemma {:induction false} SymbolsRead(d0: sextet, d1: sextet, d2: sextet, d3: sextet, rest: string, input: string,
                                       digits: seq<sextet>)
    requires rest != "" && |digits| == 4
    requires input == [Symbol(d0)] + ([Symbol(d1)] + ([Symbol(d2)] + ([Symbol(d3)] + rest)))
    ensures ReadQuad(input, digits, 0, 0) == Scan(rest, [d0, d1, d2, d3], 4)
  {
    var r3 := [Symbol(d3)] + rest;
    var r2 := [Symbol(d2)] + r3;
    var r1 := [Symbol(d1)] + r2;
    SymbolRead(d0, r1, input, 0);
    SymbolRead(d1, r2, r1, 1);
    SymbolRead(d2, r3, r2, 2);
    SymbolRead(d3, rest, r3, 3);
    FourReads(input, digits, r1, d0, r2, d1, r3, d2, rest, d3, 4);
  }

  lemma {:induction false} FourParts(g: nat, rest: string)
    ensures Four(g, 3) + rest
         == [Symbol(Digit(g, 0))] + ([Symbol(Digit(g, 1))] + ([Symbol(Digit(g, 2))] + ([Symbol(Digit(g, 3))] + rest)))
  {
  }

  /** A whole group in front of more is read as it was written. */
  lemma {:induction false} GroupRead(a: byte, b: byte, c: byte, rest: string, input: string, digits: seq<sextet>)
    requires rest != "" && |digits| == 4 && input == Four(Group(a, b, c), 3) + rest
    ensures var s := ReadQuad(input, digits, 0, 0);
            s.rest == rest && s.len == 4 && Bytes(s.digits, 4) == [a, b, c]
  {
    var g := Group(a, b, c);
    FourParts(g, rest);
    var d0: sextet, d1: sextet, d2: sextet, d3: sextet := Digit(g, 0), Digit(g, 1), Digit(g, 2), Digit(g, 3);
    GroupBytes(a, b, c, d0, d1, d2, d3);
    SymbolsRead(d0, d1, d2, d3, rest, input, digits);
  }

  lemma {:induction false} BytesParts(digits: seq<sextet>, d0: sextet, d1: sextet, d2: sextet, d3: sextet, len: nat)
    requires digits == [d0, d1, d2, d3]
    ensures len == 4 ==> Bytes(digits, len) == [HighByte(d0, d1), MiddleByte(d1, d2), LowByte(d2, d3)]
    ensures len == 3 ==> Bytes(digits, len) == [HighByte(d0, d1), MiddleByte(d1, d2)]
  {
  }

  lemma {:induction false} GroupBytes(a: byte, b: byte, c: byte, d0: sextet, d1: sextet, d2: sextet, d3: sextet)
    requires var g := Group(a, b, c); d0 == Digit(g, 0) && d1 == Digit(g, 1) && d2 == Digit(g, 2) && d3 == Digit(g, 3)
    ensures Bytes([d0, d1, d2, d3], 4) == [a, b, c]
  {
    BytesParts([d0, d1, d2, d3], d0, d1, d2, d3, 4);
    BytesBack(a, b, c);
  }

  lemma {:induction false} FourReads(input: string, digits: seq<sextet>, r1: string, d0: sextet, r2: string, d1: sextet,
                                     r3: string, d2: sextet, r4: string, d3: sextet, len: nat)
    requires input != "" && r1 != "" && r2 != "" && r3 != "" && |digits| == 4
    requires ReadSymbol(input, 0) == (r1, d0, 1) && ReadSymbol(r1, 1) == (r2, d1, 2) && ReadSymbol(r2, 2) == (r3, d2, 3)
    requires ReadSymbol(r3, 3) == (r4, d3, len)
    ensures ReadQuad(input, digits, 0, 0) == Scan(r4, [d0, d1, d2, d3], len)
  {
    var q1 := digits[0 := d0];
    var q2 := q1[1 := d1];
    var q3 := q2[2 := d2];
    var q4 := q3[3 := d3];
    assert q4 == [d0, d1, d2, d3];
    assert ReadQuad(r4, q4, 4, len) == Scan(r4, q4, len);
    assert ReadQuad(r3, q3, 3, 3) == ReadQuad(r4, q4, 4, len);
    assert ReadQuad(r2, q2, 2, 2) == ReadQuad(r3, q3, 3, 3);
    assert ReadQuad(r1, q1, 1, 1) == ReadQuad(r2, q2, 2, 2);
  }

  /** The last character is not looked at, whether it is a symbol or padding. */
  lemma {:induction false} LastSymbols(d0: sextet, d1: sextet, d2: sextet, last: char, input: string, digits: seq<sextet>)
    requires |digits| == 4 && input == [Symbol(d0)] + ([Symbol(d1)] + ([Symbol(d2)] + [last]))
    ensures ReadQuad(input, digits, 0, 0) == Scan("", [d0, d1, d2, 0], 3)
  {
    var r3 := [last];
    var r2 := [Symbol(d2)] + r3;
    var r1 := [Symbol(d1)] + r2;
    SymbolRead(d0, r1, input, 0);
    SymbolRead(d1, r2, r1, 1);
    SymbolRead(d2, r3, r2, 2);
    assert r3[1..] == "";
    assert ReadSymbol(r3, 3) == ("", 0, 3);
    FourReads(input, digits, r1, d0, r2, d1, r3, d2, "", 0, 3);
  }

  /** The first of two padding characters counts, as a symbol of no bits. */
  lemma {:induction false} LastPadding(d0: sextet, d1: sextet, input: string, digits: seq<sextet>)
    requires |digits| == 4 && input == [Symbol(d0)] + ([Symbol(d1)] + "==")
    ensures ReadQuad(input, digits, 0, 0) == Scan("", [d0, d1, 0, digits[3]], 3)
  {
    var r2 := "==";
    var r1 := [Symbol(d1)] + r2;
    SymbolRead(d0, r1, input, 0);
    SymbolRead(d1, r2, r1, 1);
    PaddingRead(r2);
    var q1 := digits[0 := d0];
    var q2 := q1[1 := d1];
    var q3 := q2[2 := 0];
    assert q3 == [d0, d1, 0, digits[3]];
    assert ReadQuad("", q3, 3, 3) == Scan("", q3, 3);
    assert ReadQuad(r2, q2, 2, 2) == ReadQuad("", q3, 3, 3);
    assert ReadQuad(r1, q1, 1, 1) == ReadQuad(r2, q2, 2, 2);
  }

  lemma {:induction false} PaddingRead(r: string)
    requires r == "=="
    ensures ReadSymbol(r, 2) == ("", 0, 3)
  {
    var r1 := r[1..];
    assert r1 == "=" && r1[1..] == "";
    assert ReadSymbol(r1, 3) == ("", 0, 3);
  }

  lemma {:induction false} OneByteDigits(a: byte, d0: sextet, d1: sextet)
    requires d0 == Digit(Group(a, 0, 0), 0) && d1 == Digit(Group(a, 0, 0), 1)
    ensures HighByte(d0, d1) == a && MiddleByte(d1, 0) == 0
  {
    BytesBack(a, 0, 0);
    Shifts(a, 0, 0);
  }

  /** The last group counts three characters, whatever its padding: two bytes come of it. */
  lemma {:induction false} LastRead(a: byte, b: byte, c: byte, len: nat, input: string, digits: seq<sextet>, s: Scan)
    requires 0 < len <= 3 && |digits| == 4 && input == Four(Group(a, b, c), len) && (len == 1 ==> b == 0 && c == 0)
    requires s == ReadQuad(input, digits, 0, 0)
    ensures s.rest == "" && s.len == 3 && Bytes(s.digits, 3) == [a, b]
  {
    var g := Group(a, b, c);
    var d0: sextet, d1: sextet, d2: sextet := Digit(g, 0), Digit(g, 1), Digit(g, 2);
    if len == 1 {
      OneByteDigits(a, d0, d1);
      LastPadding(d0, d1, input, digits);
      BytesParts(s.digits, d0, d1, 0, digits[3], 3);
    } else {
      BytesBack(a, b, c);
      LastSymbols(d0, d1, d2, input[3], input, digits);
      BytesParts(s.digits, d0, d1, d2, 0, 3);
    }
  }

  /** What the decoder makes of an encoding: all but the last byte, or all, or all and a zero byte. */
  function Returned(x: seq<byte>): seq<byte> {
    if x == [] then []
    else if |x| % 3 == 0 then x[..|x| - 1]
    else if |x| % 3 == 1 then x + [0]
    else x
  }

  lemma {:induction false} ReturnedLater(x: seq<byte>)
    requires |x| > 3
    ensures Returned(x) == x[..3] + Returned(x[3..])
  {
    assert x == x[..3] + x[3..];
  }

  lemma {:induction false} ReturnedLast(x: seq<byte>, b: byte)
    requires 0 < |x| <= 3 && b == if |x| > 1 then x[1] else 0
    ensures Returned(x) == [x[0], b]
  {
  }

  lemma {:induction false} LastParts(input: string, digits: seq<sextet>, s: Scan, two: seq<byte>, done: nat, outSize: nat)
    requires input != "" && |digits| == 4 && s == ReadQuad(input, digits, 0, 0) && s.rest == "" && s.len == 3
    requires Bytes(s.digits, 3) == two
    ensures Decoding(input, digits) == (two, 2) && (Fits(input, digits, done, outSize) <==> done + 3 < outSize)
  {
    assert two + [] == two;
    FitsStep(input, digits, done, outSize, s);
  }

  lemma {:induction false} LastDecodes(x: seq<byte>, input: string, digits: seq<sextet>, done: nat, outSize: nat)
    requires |digits| == 4 && 0 < |x| <= 3 && input == Encoding(x)
    ensures Decoding(input, digits) == (Returned(x), |Returned(x)|)
    ensures Fits(input, digits, done, outSize) <==> done + |Returned(x)| + 1 < outSize
  {
    var b: byte, c: byte := if |x| > 1 then x[1] else 0, if |x| > 2 then x[2] else 0;
    var four := Four(First(x), |x|);
    assert input == four + "" == four;
    var s := ReadQuad(input, digits, 0, 0);
    LastRead(x[0], b, c, |x|, input, digits, s);
    ReturnedLast(x, b);
    LastParts(input, digits, s, [x[0], b], done, outSize);
  }

  lemma {:induction false} GroupDecodes(input: string, digits: seq<sextet>, s: Scan, three: seq<byte>, later: seq<byte>,
                                        done: nat, outSize: nat)
    requires input != "" && |digits| == 4 && s == ReadQuad(input, digits, 0, 0) && s.len == 4
    requires |three| == 3 && Bytes(s.digits, 4) == three && Decoding(s.rest, s.digits) == (later, |later|)
    requires Fits(s.rest, s.digits, done + 3, outSize) <==> done + 3 + |later| + 1 < outSize
    ensures Decoding(input, digits) == (three + later, |three + later|)
    ensures Fits(input, digits, done, outSize) <==> done + |three + later| + 1 < outSize
  {
    FitsStep(input, digits, done, outSize, s);
  }

  /** An encoding of more than three bytes is a whole group and the encoding of the others. */
  lemma {:induction false} EncodingParts(x: seq<byte>)
    requires |x| > 3
    ensures Encoding(x) == Four(Group(x[0], x[1], x[2]), 3) + Encoding(x[3..]) && Encoding(x[3..]) != ""
    ensures Encoding(x) != "" && Returned(x) == [x[0], x[1], x[2]] + Returned(x[3..])
  {
    EncodingLength(x[3..]);
    assert Four(First(x), |x|) == Four(First(x), 3);
    ReturnedLater(x);
    assert x[..3] == [x[0], x[1], x[2]];
  }

  lemma {:induction false} EncodingDecodes(x: seq<byte>, digits: seq<sextet>, done: nat, outSize: nat)
    requires |digits| == 4
    ensures Decoding(Encoding(x), digits) == (Returned(x), |Returned(x)|)
    ensures Fits(Encoding(x), digits, done, outSize) <==> done + |Returned(x)| + 1 < outSize
    decreases |x|
  {
    if 0 < |x| <= 3 {
      LastDecodes(x, Encoding(x), digits, done, outSize);
    } else if x != [] {
      EncodingParts(x);
      var input := Encoding(x);
      GroupRead(x[0], x[1], x[2], Encoding(x[3..]), input, digits);
      var s := ReadQuad(input, digits, 0, 0);
      EncodingDecodes(x[3..], s.digits, done + 3, outSize);
      GroupDecodes(input, digits, s, [x[0], x[1], x[2]], Returned(x[3..]), done, outSize);
    }
  }

  /**
   * Decoding inverts encoding exactly for inputs whose length is 2 modulo 3, and for the empty one: the decoder does
   * not look at the last character, and takes one padding character for a symbol of no bits.
   */
  lemma {:induction false} DecodesExactly(x: seq<byte>)
    ensures Decoding(Encoding(x), ZEROS) == (Returned(x), |Returned(x)|)
    ensures Decoding(Encoding(x), ZEROS).0 == x <==> x == [] || |x| % 3 == 2
  {
    EncodingDecodes(x, ZEROS, 0, 0);
  }
}
