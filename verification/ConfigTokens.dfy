/** The tokens of configuration files, with the numbers the parser knows them by. */
module ConfigTokens {

  /** A token and its semantic value. */
  datatype Token =
    | Boolean(b: bool)
    | Integer(i: int)
    | Hex(i: int)
    | Integer64(l: int)
    | Hex64(l: int)
    | Float(f: real)
    | Str(s: string)
    | Name(s: string)
    | Equals
    | Newline
    | ArrayStart
    | ArrayEnd
    | ListStart
    | ListEnd
    | Comma
    | GroupStart
    | GroupEnd
    | Semicolon
    | Garbage
    | ScanError

  const END := 0

  /** The parser's internal number of a token (YYTRANSLATE of the token code). */
  function Kind(t: Token): (k: nat)
    ensures 3 <= k <= 22
  {
    match t
    case Boolean(_) => 3
    case Integer(_) => 4
    case Hex(_) => 5
    case Integer64(_) => 6
    case Hex64(_) => 7
    case Float(_) => 8
    case Str(_) => 9
    case Name(_) => 10
    case Equals => 11
    case Newline => 12
    case ArrayStart => 13
    case ArrayEnd => 14
    case ListStart => 15
    case ListEnd => 16
    case Comma => 17
    case GroupStart => 18
    case GroupEnd => 19
    case Semicolon => 20
    case Garbage => 21
    case ScanError => 22
  }

  /** The lookahead: the first token left, or the end of the input. */
  function Lookahead(input: seq<Token>): nat {
    if input == [] then END else Kind(input[0])
  }
}
