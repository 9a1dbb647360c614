/** Settings in memory: records that point to their parent and to a list of children. */
module ConfigSettings {
  import opened Options

  datatype SettingType = TNONE | TGROUP | TINT | TINT64 | TFLOAT | TSTRING | TBOOL | TARRAY | TLIST

  /** The value of a setting: zero until it is first set, and then one of the cases of the union. */
  datatype Value =
    | Zero
    | IVal(ival: int)
    | LLVal(llval: int)
    | FVal(fval: real)
    | SVal(sval: Option<string>)
    | Elements(elements: seq<nat>)

  /** A record, addressed by its place in memory. */
  datatype Setting =
    | Freed
    | Setting(name: Option<string>, stype: SettingType, format: int, value: Value, parent: Option<nat>)

  type Memory = seq<Setting>

  const CONFIG_FORMAT_DEFAULT := 0
  const CONFIG_FORMAT_HEX := 1

  predicate Live(m: Memory, s: nat) {
    s < |m| && m[s].Setting?
  }

  predicate IsVector(t: SettingType) { t == TARRAY || t == TLIST }

  predicate IsAggregate(t: SettingType) { t == TGROUP || IsVector(t) }

  function Kids(s: Setting): seq<nat> {
    if s.Setting? && s.value.Elements? then s.value.elements else []
  }

  // ----- Names

  predicate IsPathToken(c: char) { c == ':' || c == '.' || c == '/' }

  predicate IsAlpha(c: char) { 'a' <= c <= 'z' || 'A' <= c <= 'Z' }

  predicate IsDigit(c: char) { '0' <= c <= '9' }

  predicate NameChar(c: char) { IsAlpha(c) || IsDigit(c) || c == '*' || c == '_' || c == '-' }

  predicate ValidName(s: string) {
    s != "" && (IsAlpha(s[0]) || s[0] == '*') && forall i :: 0 < i < |s| ==> NameChar(s[i])
  }

  /** The part of a string before its first path token: all that a comparison of names looks at. */
  function Head(s: string): string {
    if s == "" || IsPathToken(s[0]) then "" else [s[0]] + Head(s[1..])
  }

  predicate HasName(m: Memory, s: nat, name: string) {
    Live(m, s) && m[s].name.Some? && Head(m[s].name.value) == Head(name)
  }

  /** The place of the first element of that name, or the number of elements. */
  function Search(m: Memory, elements: seq<nat>, name: string): (i: nat)
    ensures i <= |elements|
    ensures i < |elements| ==> HasName(m, elements[i], name)
    ensures forall k :: 0 <= k < i ==> !HasName(m, elements[k], name)
  {
    if elements == [] then 0
    else if HasName(m, elements[0], name) then 0
    else 1 + Search(m, elements[1..], name)
  }

  function FindMember(m: Memory, g: nat, name: string): Option<nat>
    requires Live(m, g)
  {
    var i := Search(m, Kids(m[g]), name);
    if m[g].stype == TGROUP && i < |Kids(m[g])| then Some(Kids(m[g])[i]) else None
  }

  function Elem(m: Memory, v: nat, i: nat): Option<nat>
    requires Live(m, v)
  {
    if IsAggregate(m[v].stype) && i < |Kids(m[v])| then Some(Kids(m[v])[i]) else None
  }

  // ----- Making settings

  /** A new record as the last child of an aggregate. */
  function Create(m: Memory, p: nat, name: Option<string>, t: SettingType): (r: (Memory, Option<nat>))
    requires Live(m, p)
    ensures |m| <= |r.0| && (r.1.Some? <==> IsAggregate(m[p].stype)) && (r.1.Some? ==> Live(r.0, r.1.value))
  {
    if !IsAggregate(m[p].stype) then (m, None)
    else
      var grown := m[p].(value := Elements(Kids(m[p]) + [|m|]));
      (m[p := grown] + [Setting(name, t, CONFIG_FORMAT_DEFAULT, Zero, Some(p))], Some(|m|))
  }

  /** To add to a group under a null name is to compare it with the names of the children, which follows it. */
  predicate FollowsNull(m: Memory, p: nat, name: Option<string>)
    requires Live(m, p)
  {
    && m[p].stype == TGROUP && name.None?
    && exists k :: 0 <= k < |Kids(m[p])| && Live(m, Kids(m[p])[k]) && m[Kids(m[p])[k]].name.Some?
  }

  /** As Create, if the name is null, or valid and new; the children of arrays and lists have no name. */
  function Add(m: Memory, p: nat, name: Option<string>, t: SettingType): (r: (Memory, Option<nat>))
    requires Live(m, p) && !FollowsNull(m, p, name)
  {
    var n := if IsVector(m[p].stype) then None else name;
    if n.Some? && !ValidName(n.value) then (m, None)
    else if n.Some? && FindMember(m, p, n.value).Some? then (m, None)
    else Create(m, p, n, t)
  }

  // ----- Setting values

  const INT32_MAX := 0x7FFF_FFFF
  const INT32_MIN := -0x8000_0000

  /** The smallest power of two, from unit on, of which 2^24 are more than n. */
  function Precision(n: nat, unit: nat): (r: nat)
    requires unit > 0
    ensures r >= unit && n < 0x100_0000 * r && (r == unit || 0x80_0000 * r <= n)
    decreases n - unit
  {
    if n < 0x100_0000 * unit then unit else Precision(n, 2 * unit)
  }

  /** The nearest multiple of a unit, and of two equally near ones the even one. */
  function Nearest(n: nat, unit: nat): int
    requires unit > 0
  {
    var q, r := n / unit, n % unit;
    (if 2 * r < unit || (2 * r == unit && q % 2 == 0) then q else q + 1) * unit
  }

  /** An integer in single precision: 24 significant bits. */
  function Single(v: int): int {
    if v >= 0 then Nearest(v, Precision(v, 1)) else -Nearest(-v, Precision(-v, 1))
  }

  function SetInt(s: Setting, v: int, autoConvert: bool): Option<Setting>
    requires s.Setting?
  {
    match s.stype
    case TNONE => Some(s.(stype := TINT, value := IVal(v)))
    case TINT => Some(s.(value := IVal(v)))
    case TFLOAT => if autoConvert then Some(s.(value := FVal(Single(v) as real))) else None
    case _ => None
  }

  function SetInt64(s: Setting, v: int, autoConvert: bool): Option<Setting>
    requires s.Setting?
  {
    match s.stype
    case TNONE => Some(s.(stype := TINT64, value := LLVal(v)))
    case TINT64 => Some(s.(value := LLVal(v)))
    case TINT => Some(s.(value := IVal(if INT32_MIN <= v <= INT32_MAX then v else 0)))
    case TFLOAT => if autoConvert then Some(s.(value := FVal(Single(v) as real))) else None
    case _ => None
  }

  /** No multiple of the unit is nearer, and a multiple is its own nearest. */
  lemma {:induction false} NearestIsNear(n: nat, unit: nat)
    requires unit > 0
    ensures 2 * (n - Nearest(n, unit)) <= unit && 2 * (Nearest(n, unit) - n) <= unit
    ensures Nearest(n, unit) == n <==> n % unit == 0
  {
    var q, r := n / unit, n % unit;
    assert n == q * unit + r;
    assert (q + 1) * unit == q * unit + unit;
  }

  lemma {:induction false} SingleExact(v: int, n: nat, unit: nat)
    requires n == (if v >= 0 then v else -v) && unit == Precision(n, 1)
    ensures Single(v) == v <==> n % unit == 0
    ensures n < 0x100_0000 ==> unit == 1
  {
    NearestIsNear(n, unit);
  }

  /** Automatic conversion of an integer to floating point keeps it if and only if it has 24 significant bits at most. */
  lemma {:induction false} ConversionExact(s: Setting, v: int, n: nat, unit: nat)
    requires s.Setting? && s.stype == TFLOAT
    requires n == (if v >= 0 then v else -v) && unit == Precision(n, 1)
    ensures SetInt(s, v, true) == SetInt64(s, v, true)
    ensures SetInt(s, v, true) == Some(s.(value := FVal(v as real))) <==> n % unit == 0
  {
    SingleExact(v, n, unit);
    assert SetInt(s, v, true).value.value == FVal(Single(v) as real);
  }

  function Truncate(f: real): int {
    if f >= 0.0 then f.Floor else -((-f).Floor)
  }

  function SetFloat(s: Setting, v: real, autoConvert: bool): Option<Setting>
    requires s.Setting?
  {
    match s.stype
    case TNONE => Some(s.(stype := TFLOAT, value := FVal(v)))
    case TFLOAT => Some(s.(value := FVal(v)))
    case TINT => if autoConvert then Some(s.(value := IVal(Truncate(v)))) else None
    case TINT64 => if autoConvert then Some(s.(value := LLVal(Truncate(v)))) else None
    case _ => None
  }

  function SetBool(s: Setting, v: int): Option<Setting>
    requires s.Setting?
  {
    if s.stype == TNONE || s.stype == TBOOL then Some(s.(stype := TBOOL, value := IVal(v))) else None
  }

  function SetString(s: Setting, v: Option<string>): Option<Setting>
    requires s.Setting?
  {
    if s.stype == TNONE || s.stype == TSTRING then Some(s.(stype := TSTRING, value := SVal(v))) else None
  }

  function SetFormat(s: Setting, format: int): Option<Setting>
    requires s.Setting?
  {
    if (s.stype == TINT || s.stype == TINT64) && (format == CONFIG_FORMAT_DEFAULT || format == CONFIG_FORMAT_HEX)
    then Some(s.(format := format)) else None
  }

  /** What a scalar is set to, and the type of a new element for it. */
  datatype Scalar = AnInt(i: int) | AnInt64(l: int) | AFloat(f: real) | ABool(b: int) | AString(s: Option<string>)

  function TypeOf(v: Scalar): SettingType {
    match v
    case AnInt(_) => TINT
    case AnInt64(_) => TINT64
    case AFloat(_) => TFLOAT
    case ABool(_) => TBOOL
    case AString(_) => TSTRING
  }

  function SetScalar(s: Setting, v: Scalar, autoConvert: bool): Option<Setting>
    requires s.Setting?
  {
    match v
    case AnInt(i) => SetInt(s, i, autoConvert)
    case AnInt64(l) => SetInt64(s, l, autoConvert)
    case AFloat(f) => SetFloat(s, f, autoConvert)
    case ABool(b) => SetBool(s, b)
    case AString(t) => SetString(s, t)
  }

  /** The first element of an array determines the type of all; a list takes any. */
  predicate CheckType(m: Memory, v: nat, t: SettingType)
    requires Live(m, v)
  {
    || Kids(m[v]) == []
    || m[v].stype == TLIST
    || (Live(m, Kids(m[v])[0]) && m[Kids(m[v])[0]].stype == t)
  }

  /** Sets the element at an index, or appends one for a negative index. */
  function SetElem(m: Memory, v: nat, idx: int, x: Scalar, autoConvert: bool): (r: (Memory, Option<nat>))
    requires Live(m, v)
  {
    if !IsVector(m[v].stype) then (m, None)
    else if idx < 0 then
      if !CheckType(m, v, TypeOf(x)) then (m, None)
      else
        var made := Create(m, v, None, TypeOf(x));
        var e := made.1.value;
        (made.0[e := SetScalar(made.0[e], x, autoConvert).value], made.1)
    else
      var e := Elem(m, v, idx);
      if e.None? || !Live(m, e.value) then (m, None)
      else
        var changed := SetScalar(m[e.value], x, autoConvert);
        if changed.None? then (m, None) else (m[e.value := changed.value], e)
  }

  // ----- Removing settings

  /** Whether s is i or one of its ancestors, by the parent links. */
  predicate Ancestor(m: Memory, s: nat, i: nat)
    decreases i
  {
    s == i || (Live(m, i) && m[i].parent.Some? && m[i].parent.value < i && Ancestor(m, s, m[i].parent.value))
  }

  /** The records of a setting and everything below it are freed. */
  function Destroy(m: Memory, s: nat): (r: Memory)
    ensures |r| == |m|
  {
    seq(|m|, i requires 0 <= i < |m| => if Ancestor(m, s, i) then Freed else m[i])
  }

  function Without(elements: seq<nat>, k: nat): seq<nat>
    requires k < |elements|
  {
    elements[..k] + elements[k + 1..]
  }

  function Unlink(m: Memory, p: nat, k: nat): Memory
    requires Live(m, p) && k < |Kids(m[p])|
  {
    m[p := m[p].(value := Elements(Without(Kids(m[p]), k)))]
  }

  function Remove(m: Memory, p: nat, k: nat): Memory
    requires Live(m, p) && k < |Kids(m[p])|
  {
    Destroy(Unlink(m, p, k), Kids(m[p])[k])
  }
}
