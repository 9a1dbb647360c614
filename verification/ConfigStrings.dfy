/** String literals: the printer's escapes, the scanner's rules inside quotes, and the buffer the scanner fills. */
module ConfigStrings {
  import opened Options

  /** The bytes of a C string, none of them the terminator. */
  predicate IsByte(c: char) { 1 <= c as int <= 255 }

  predicate CString(s: string) { forall i :: 0 <= i < |s| ==> IsByte(s[i]) }

  const NUL: char := 0 as char

  // ----- The printer

  function HexDigit(n: nat): char
    requires n < 16
  {
    if n < 10 then ('0' as int + n) as char else ('A' as int + n - 10) as char
  }

  /** What is printed for one character. */
  function Escape(c: char): string
    requires c as int <= 255
  {
    if c == '\"' || c == '\\' then ['\\', c]
    else if c == '\n' then "\\n"
    else if c == '\r' then "\\r"
    else if c as int == 12 then "\\f"
    else if c == '\t' then "\\t"
    else if c >= ' ' then [c]
    else ['\\', 'x', HexDigit(c as int / 16), HexDigit(c as int % 16)]
  }

  function Escaped(s: string): string
    requires CString(s)
  {
    if s == "" then "" else Escape(s[0]) + Escaped(s[1..])
  }

  function Literal(s: string): string
    requires CString(s)
  {
    "\"" + Escaped(s) + "\""
  }

  lemma {:induction false} EscapedThen(a: string, b: string)
    requires CString(a) && CString(b)
    ensures Escaped(a + b) == Escaped(a) + Escaped(b)
    decreases |a|
  {
    if a == "" {
      assert a + b == b;
    } else {
      assert (a + b)[1..] == a[1..] + b;
      EscapedThen(a[1..], b);
    }
  }

  lemma {:induction false} EscapedNext(s: string, p: nat)
    requires CString(s) && p < |s|
    ensures Escaped(s[..p + 1]) == Escaped(s[..p]) + Escape(s[p])
  {
    EscapedThen(s[..p], [s[p]]);
    assert s[..p] + [s[p]] == s[..p + 1];
    assert [s[p]][1..] == "";
  }

  method WriteString(value: Option<string>) returns (out: string)
    requires value.Some? ==> CString(value.value)
    ensures out == Literal(if value.Some? then value.value else "")
  {
    out := "\"";
    if value.Some? {
      var s := value.value;
      var p := 0;
      while p < |s|
        invariant p <= |s| && out == "\"" + Escaped(s[..p])
      {
        var c := s[p];
        var written;
        if c == '\"' || c == '\\' {
          written := ['\\', c];
        } else if c == '\n' {
          written := "\\n";
        } else if c == '\r' {
          written := "\\r";
        } else if c as int == 12 {
          written := "\\f";
        } else if c == '\t' {
          written := "\\t";
        } else if c >= ' ' {
          written := [c];
        } else {
          written := ['\\', 'x', HexDigit(c as int / 16), HexDigit(c as int % 16)];
        }
        EscapedNext(s, p);
        out := out + written;
        p := p + 1;
      }
      assert s[..p] == s;
    }
    out := out + "\"";
  }

  // ----- The scanner

  function HexValue(c: char): (v: int)
    ensures -1 <= v < 16
  {
    if '0' <= c <= '9' then c as int - '0' as int
    else if 'A' <= c <= 'F' then c as int - 'A' as int + 10
    else if 'a' <= c <= 'f' then c as int - 'a' as int + 10
    else -1
  }

  /** The text a rule appends, and how much of the input it takes; None at the closing quote. */
  datatype Rule = Piece(text: string, length: nat) | Quote

  /** A run of characters up to a quote or backslash. */
  function Plain(input: string): (n: nat)
    ensures n <= |input| && (n < |input| ==> input[n] == '\"' || input[n] == '\\')
    ensures forall i :: 0 <= i < n ==> input[i] != '\"' && input[i] != '\\'
  {
    if input == "" || input[0] == '\"' || input[0] == '\\' then 0 else 1 + Plain(input[1..])
  }

  /** The rule that matches inside quotes, the longest that does. */
  function Match(input: string): (r: Rule)
    requires input != ""
    ensures r.Piece? ==> 0 < r.length <= |input|
  {
    if input[0] == '\"' then Quote
    else if input[0] != '\\' then Piece(input[..Plain(input)], Plain(input))
    else if |input| > 1 && input[1] == 'n' then Piece("\n", 2)
    else if |input| > 1 && input[1] == 'r' then Piece("\r", 2)
    else if |input| > 1 && input[1] == 't' then Piece("\t", 2)
    else if |input| > 1 && input[1] == 'f' then Piece([12 as char], 2)
    else if |input| > 1 && input[1] == '\\' then Piece("\\", 2)
    else if |input| > 1 && input[1] == '\"' then Piece("\"", 2)
    else if |input| > 3 && input[1] == 'x' && HexValue(input[2]) >= 0 && HexValue(input[3]) >= 0 then
      var c := (16 * HexValue(input[2]) + HexValue(input[3])) as char;
      Piece(if c == NUL then "" else [c], 4)
    else Piece("\\", 1)
  }

  /** The string inside quotes and what follows the closing one; None if it is never closed. */
  function Scan(input: string): Option<(string, string)>
    decreases |input|
  {
    if input == "" then None
    else
      match Match(input)
      case Quote => Some(("", input[1..]))
      case Piece(text, length) =>
        match Scan(input[length..])
        case None => None
        case Some(found) => Some((text + found.0, found.1))
  }

  lemma {:induction false} HexBack(n: nat)
    requires n < 16
    ensures HexValue(HexDigit(n)) == n
  {
  }

  /** A character that is printed as it is. */
  predicate IsPlain(c: char) { IsByte(c) && Escape(c) == [c] }

  lemma {:induction false} PlainChar(c: char)
    requires IsPlain(c)
    ensures Escape(c) == [c] && c != '\"' && c != '\\'
  {
  }

  lemma {:induction false} PlainEscaped(s: string, rest: string)
    requires CString(s) && rest != "" && (rest[0] == '\"' || rest[0] == '\\')
    requires forall i :: 0 <= i < |s| ==> IsPlain(s[i])
    ensures Escaped(s) == s && Plain(s + rest) == |s|
    decreases |s|
  {
    if s == "" {
      assert s + rest == rest;
    } else {
      PlainChar(s[0]);
      assert (s + rest)[1..] == s[1..] + rest;
      PlainEscaped(s[1..], rest);
    }
  }

  /** How many characters at the front are printed as they are. */
  function PlainRun(s: string): (n: nat)
    requires CString(s)
    ensures n <= |s| && (forall i :: 0 <= i < n ==> IsPlain(s[i])) && (n < |s| ==> !IsPlain(s[n]))
  {
    if s == "" || !IsPlain(s[0]) then 0 else 1 + PlainRun(s[1..])
  }

  lemma {:induction false} ScanEscape(c: char, rest: string, input: string)
    requires IsByte(c) && !IsPlain(c) && input == Escape(c) + rest
    ensures Match(input) == Piece([c], |Escape(c)|) && input[|Escape(c)|..] == rest
  {
    if |Escape(c)| == 4 {
      HexBack(c as int / 16);
      HexBack(c as int % 16);
    }
  }

  /** A text before what has been found. */
  function Before(text: string, found: Option<(string, string)>): Option<(string, string)> {
    if found.Some? then Some((text + found.value.0, found.value.1)) else None
  }

  lemma {:induction false} BeforeThen(a: string, b: string, found: Option<(string, string)>)
    ensures Before(a, Before(b, found)) == Before(a + b, found) && Before("", found) == found
  {
    if found.Some? {
      assert a + (b + found.value.0) == a + b + found.value.0;
      assert "" + found.value.0 == found.value.0;
    }
  }

  lemma {:induction false} ScanTurn(input: string, text: string, length: nat, rest: string)
    requires input != "" && Match(input) == Piece(text, length) && rest == input[length..]
    ensures Scan(input) == Before(text, Scan(rest))
  {
  }

  lemma {:induction false} EscapeScanned(s: string, rest: string, input: string)
    requires CString(s) && s != "" && !IsPlain(s[0]) && input == Escaped(s) + "\"" + rest
    ensures Scan(input) == Before([s[0]], Scan(Escaped(s[1..]) + "\"" + rest))
  {
    var tail := Escaped(s[1..]) + "\"" + rest;
    assert input == Escape(s[0]) + tail;
    ScanEscape(s[0], tail, input);
    ScanTurn(input, [s[0]], |Escape(s[0])|, tail);
  }

  lemma {:induction false} EscapeStart(c: char)
    requires IsByte(c) && !IsPlain(c)
    ensures Escape(c) != "" && Escape(c)[0] == '\\'
  {
  }

  lemma {:induction false} TailStart(s: string, tail: string)
    requires CString(s) && (s != "" ==> !IsPlain(s[0])) && tail == Escaped(s) + "\""
    ensures tail[0] == '\"' || tail[0] == '\\'
  {
    if s != "" {
      EscapeStart(s[0]);
      assert tail[0] == Escape(s[0])[0];
    }
  }

  lemma {:induction false} EscapedJoin(plain: string, rest: string, end: string)
    requires CString(plain) && CString(rest) && Escaped(plain) == plain
    ensures Escaped(plain + rest) + end == plain + (Escaped(rest) + end)
  {
    EscapedThen(plain, rest);
  }

  lemma {:induction false} EscapedSplit(s: string, n: nat, tail: string)
    requires CString(s) && n == PlainRun(s) && tail == Escaped(s[n..]) + "\""
    ensures Escaped(s) + "\"" == s[..n] + tail && (tail[0] == '\"' || tail[0] == '\\')
  {
    assert tail[0] == '\"' || tail[0] == '\\' by {
      TailStart(s[n..], tail);
    }
    assert Escaped(s[..n]) == s[..n] by {
      PlainEscaped(s[..n], "\"");
    }
    EscapedJoin(s[..n], s[n..], "\"");
    assert s[..n] + s[n..] == s;
  }

  lemma {:induction false} PlainThen(plain: string, tail: string, input: string)
    requires plain != "" && CString(plain) && forall i :: 0 <= i < |plain| ==> IsPlain(plain[i])
    requires tail != "" && (tail[0] == '\"' || tail[0] == '\\') && input == plain + tail
    ensures Scan(input) == Before(plain, Scan(tail))
  {
    PlainEscaped(plain, tail);
    PlainMatch(plain, tail, input);
    ScanTurn(input, plain, |plain|, tail);
  }

  lemma {:induction false} PlainScanned(s: string, n: nat, rest: string, input: string, tail: string)
    requires CString(s) && 0 < n == PlainRun(s) && input == Escaped(s) + "\"" + rest
    requires tail == Escaped(s[n..]) + "\"" + rest
    ensures Scan(input) == Before(s[..n], Scan(tail))
  {
    EscapedSplit(s, n, Escaped(s[n..]) + "\"");
    assert input == s[..n] + tail;
    PlainThen(s[..n], tail, input);
  }

  lemma {:induction false} PlainMatch(s: string, tail: string, input: string)
    requires s != "" && input == s + tail && Plain(input) == |s|
    ensures Match(input) == Piece(s, |s|) && input[|s|..] == tail
  {
    assert input[..|s|] == s;
  }

  lemma {:induction false} QuoteIsScanned(rest: string, input: string)
    requires input == "\"" + rest
    ensures Scan(input) == Some(("", rest))
  {
    assert input[0] == '\"' && input[1..] == rest;
  }

  lemma {:induction false} RestScanned(s: string, n: nat, rest: string, input: string, tail: string)
    requires n <= |s| && Scan(input) == Before(s[..n], Scan(tail)) && Scan(tail) == Some((s[n..], rest))
    ensures Scan(input) == Some((s, rest))
  {
    assert s[..n] + s[n..] == s;
  }

  lemma {:induction false} EscapedIsScanned(s: string, rest: string, input: string)
    requires CString(s) && input == Escaped(s) + "\"" + rest
    ensures Scan(input) == Some((s, rest))
    decreases |s|
  {
    if s == "" {
      assert input == "\"" + rest;
      QuoteIsScanned(rest, input);
    } else {
      var n := if IsPlain(s[0]) then PlainRun(s) else 1;
      var tail := Escaped(s[n..]) + "\"" + rest;
      if IsPlain(s[0]) {
        PlainScanned(s, n, rest, input, tail);
      } else {
        EscapeScanned(s, rest, input);
        assert s[..1] == [s[0]];
      }
      EscapedIsScanned(s[n..], rest, tail);
      RestScanned(s, n, rest, input, tail);
    }
  }

  /** Scanning what was printed for a string gives the string, and leaves what follows. */
  lemma {:induction false} LiteralIsScanned(s: string, rest: string)
    requires CString(s)
    ensures Literal(s)[0] == '\"' && Scan(Literal(s)[1..] + rest) == Some((s, rest))
  {
    assert Literal(s)[1..] == Escaped(s) + "\"";
    EscapedIsScanned(s, rest, Escaped(s) + "\"" + rest);
  }

  // ----- The buffer

  const STRING_BLOCK_SIZE := 64

  class StringBuffer {
    var data: array?<char>
    var length: nat
    var capacity: nat

    /** A terminated string in a block of whole units, or nothing yet. */
    ghost predicate Valid()
      reads this, data
    {
      && (data == null ==> length == 0 && capacity == 0)
      && (data != null ==>
            && data.Length == capacity && capacity % STRING_BLOCK_SIZE == 0
            && length < capacity && data[length] == NUL && NUL !in data[..length])
    }

    ghost function Contents(): string
      reads this, data
      requires Valid()
    {
      if data == null then "" else data[..length]
    }

    constructor ()
      ensures Valid() && Contents() == "" && data == null
    {
      data, length, capacity := null, 0, 0;
    }

    /** Appends a string; the block grows to the next multiple of its unit that has room for the terminator. */
    method Append(text: string)
      requires Valid() && CString(text)
      modifies this, data
      ensures Valid() && Contents() == old(Contents()) + text
      ensures data != null && (data != old(data) ==> fresh(data))
      ensures old(length) + |text| < old(capacity) ==> capacity == old(capacity)
      ensures old(length) + |text| >= old(capacity) ==> length < capacity <= length + STRING_BLOCK_SIZE
    {
      var newlen := length + |text| + 1;
      ghost var before := Contents();
      if newlen > capacity {
        Grow((newlen + (STRING_BLOCK_SIZE - 1)) / STRING_BLOCK_SIZE * STRING_BLOCK_SIZE);
      }
      var i := 0;
      while i < |text|
        invariant i <= |text| && data != null && length + |text| < data.Length == capacity
        invariant data[..length + i] == before + text[..i] && (data != old(data) ==> fresh(data))
        invariant length == old(length) && capacity % STRING_BLOCK_SIZE == 0
        invariant newlen <= old(capacity) ==> capacity == old(capacity)
        invariant newlen > old(capacity) ==> newlen <= capacity < newlen + STRING_BLOCK_SIZE
      {
        data[length + i] := text[i];
        i := i + 1;
      }
      assert text[..i] == text;
      data[length + |text|] := NUL;
      length := length + |text|;
      assert data[..length] == before + text;
    }

    /** Moves the string to a larger block. */
    method Grow(size: nat)
      requires Valid() && size > length && size % STRING_BLOCK_SIZE == 0
      modifies this`data, this`capacity
      ensures Valid() && fresh(data) && data != null && capacity == size && Contents() == old(Contents())
    {
      var grown := new char[size];
      var i := 0;
      while i < length
        invariant i <= length && grown[..i] == Contents()[..i]
        modifies grown
      {
        grown[i] := data[i];
        i := i + 1;
      }
      grown[length] := NUL;
      data, capacity := grown, size;
    }

    /** Gives the string away and starts anew. */
    method Release() returns (s: string)
      requires Valid()
      modifies this
      ensures s == old(Contents()) && Valid() && Contents() == ""
    {
      s := if data == null then "" else data[..length];
      data, length, capacity := null, 0, 0;
    }
  }

  /** The scanning loop between the quotes. */
  method ScanString(input: string) returns (found: Option<(string, string)>)
    requires CString(input)
    ensures found == Scan(input)
  {
    var buffer := new StringBuffer();
    var p := 0;
    BeforeThen("", "", Scan(input));
    assert input[0..] == input;
    while p < |input|
      invariant p <= |input| && buffer.Valid() && fresh(buffer) && (buffer.data != null ==> fresh(buffer.data))
      invariant Scan(input) == Before(buffer.Contents(), Scan(input[p..]))
    {
      var rest := input[p..];
      match Match(rest)
      case Quote =>
        var s := buffer.Release();
        assert Scan(rest) == Some(("", rest[1..])) && s + "" == s;
        return Some((s, rest[1..]));
      case Piece(text, length) =>
        PieceIsCString(rest);
        ghost var sofar, tail := buffer.Contents(), input[p + length..];
        ScanTurn(rest, text, length, tail);
        BeforeThen(sofar, text, Scan(tail));
        buffer.Append(text);
        p := p + length;
        assert Scan(input) == Before(sofar + text, Scan(tail));
        assert buffer.Contents() == sofar + text;
        assert input[p..] == tail;
    }
    return None;
  }

  lemma {:induction false} PieceIsCString(input: string)
    requires input != "" && CString(input) && Match(input).Piece?
    ensures CString(Match(input).text)
  {
  }
}
