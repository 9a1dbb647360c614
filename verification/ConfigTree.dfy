/** Configurations as trees, the tokens the printer writes for them, and the actions that build them. */
module ConfigTree {
  import opened ConfigTokens
  import opened ConfigParser
  import opened ConfigSettings

  datatype Member = Member(name: string, value: Tree)

  datatype Tree =
    | BoolValue(b: bool)
    | IntValue(i: int, hex: bool)
    | Int64Value(l: int, hex: bool)
    | FloatValue(f: real)
    | StringValue(s: string)
    | GroupOf(members: seq<Member>)
    | ArrayOf(elements: seq<Tree>)
    | ListOf(elements: seq<Tree>)
    | Undetermined

  predicate IsScalar(t: Tree) {
    t.BoolValue? || t.IntValue? || t.Int64Value? || t.FloatValue? || t.StringValue?
  }

  function TreeType(t: Tree): SettingType {
    match t
    case BoolValue(_) => TBOOL
    case IntValue(_, _) => TINT
    case Int64Value(_, _) => TINT64
    case FloatValue(_) => TFLOAT
    case StringValue(_) => TSTRING
    case GroupOf(_) => TGROUP
    case ArrayOf(_) => TARRAY
    case ListOf(_) => TLIST
    case Undetermined => TNONE
  }

  /** Members of valid and different names. */
  predicate NamesApart(members: seq<Member>) {
    && (forall i :: 0 <= i < |members| ==> ValidName(members[i].name))
    && (forall i, j :: 0 <= i < j < |members| ==> members[i].name != members[j].name)
  }

  /** The trees whose printed form is exact: no floats, arrays of scalars of one type, names valid and different. */
  predicate Printable(t: Tree) {
    match t
    case GroupOf(ms) => NamesApart(ms) && forall i :: 0 <= i < |ms| ==> Printable(ms[i].value)
    case ArrayOf(es) =>
      forall i :: 0 <= i < |es| ==> IsScalar(es[i]) && Printable(es[i]) && TreeType(es[i]) == TreeType(es[0])
    case ListOf(es) => forall i :: 0 <= i < |es| ==> Printable(es[i])
    case FloatValue(_) => false
    case Undetermined => false
    case _ => true
  }

  /** The token of a scalar. */
  function ScalarToken(t: Tree): Token
    requires IsScalar(t)
  {
    match t
    case BoolValue(b) => Boolean(b)
    case IntValue(i, hex) => if hex then Hex(i) else Integer(i)
    case Int64Value(l, hex) => if hex then Hex64(l) else Integer64(l)
    case FloatValue(f) => Float(f)
    case StringValue(s) => Str(s)
  }

  /** The tokens of a value. */
  function Tokens(t: Tree): seq<Token>
    requires Printable(t)
  {
    match t
    case GroupOf(ms) => [GroupStart] + MemberTokens(ms) + [GroupEnd]
    case ArrayOf(es) => [ArrayStart] + ElementTokens(es) + [ArrayEnd]
    case ListOf(es) => [ListStart] + ElementTokens(es) + [ListEnd]
    case _ => [ScalarToken(t)]
  }

  function MemberTokens(ms: seq<Member>): seq<Token>
    requires forall i :: 0 <= i < |ms| ==> Printable(ms[i].value)
  {
    if ms == [] then []
    else [Name(ms[0].name), Equals] + Tokens(ms[0].value) + [Semicolon] + MemberTokens(ms[1..])
  }

  function ElementTokens(es: seq<Tree>): seq<Token>
    requires forall i :: 0 <= i < |es| ==> Printable(es[i])
  {
    if es == [] then [] else Tokens(es[0]) + MoreTokens(es[1..])
  }

  /** The elements after the first, each behind a comma. */
  function MoreTokens(es: seq<Tree>): seq<Token>
    requires forall i :: 0 <= i < |es| ==> Printable(es[i])
  {
    if es == [] then [] else [Comma] + Tokens(es[0]) + MoreTokens(es[1..])
  }

  /** The actions that build a value. */
  function Events(t: Tree): seq<Event>
    requires Printable(t)
  {
    match t
    case GroupOf(ms) => [Open(GROUP)] + MemberEvents(ms) + [Close]
    case ArrayOf(es) => [Open(ARRAY)] + ElementEvents(es) + [Close]
    case ListOf(es) => [Open(LIST)] + ElementEvents(es) + [Close]
    case StringValue(_) => [Piece(ScalarToken(t)), Text]
    case _ => [Literal(ScalarToken(t))]
  }

  function MemberEvents(ms: seq<Member>): seq<Event>
    requires forall i :: 0 <= i < |ms| ==> Printable(ms[i].value)
  {
    if ms == [] then [] else [Named(Name(ms[0].name))] + Events(ms[0].value) + MemberEvents(ms[1..])
  }

  function ElementEvents(es: seq<Tree>): seq<Event>
    requires forall i :: 0 <= i < |es| ==> Printable(es[i])
  {
    if es == [] then [] else Events(es[0]) + ElementEvents(es[1..])
  }

  // ----- How high the parser's stack grows

  function Max(a: nat, b: nat): nat { if a < b then b else a }

  /** A bracketed value takes two places before its contents, and four in all with its end. */
  function Bracketed(room: nat): nat {
    if room <= 2 then 4 else 2 + room
  }

  /** The highest the stack grows above a value's place while the value is parsed. */
  function Height(t: Tree): (h: nat)
    ensures h >= 1
  {
    match t
    case GroupOf(ms) => Bracketed(MembersHeight(ms))
    case ArrayOf(es) => Bracketed(if |es| > 1 then 3 else 1)
    case ListOf(es) =>
      Bracketed(if es == [] then 1 else Max(Height(es[0]), if |es| == 1 then 1 else 1 + MoreHeight(es[1..])))
    case _ => 1
  }

  function MemberHeight(m: Member): nat { Max(5, 3 + Height(m.value)) }

  /** The same for settings after the first, each above the list of settings before it. */
  function LaterHeight(ms: seq<Member>): nat {
    if ms == [] then 0 else Max(MemberHeight(ms[0]), LaterHeight(ms[1..]))
  }

  function MembersHeight(ms: seq<Member>): nat {
    if ms == [] then 1
    else Max(MemberHeight(ms[0]), if |ms| == 1 then 1 else 1 + LaterHeight(ms[1..]))
  }

  /** The same for the elements of a list after the first, each above a comma. */
  function MoreHeight(es: seq<Tree>): nat {
    if es == [] then 0 else Max(1 + Height(es[0]), MoreHeight(es[1..]))
  }
}
