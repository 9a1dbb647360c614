/** The tree that a setting in memory stands for. */
module ConfigView {
  import opened ConfigSettings
  import opened ConfigInvariant
  import opened ConfigTree

  /** The format a number is written in: its own, or the default of the configuration. */
  function EffectiveFormat(format: int, defaultFormat: int): int {
    if format != 0 then format else defaultFormat
  }

  function ScalarTree(s: Setting, defaultFormat: int): Tree
    requires s.Setting?
  {
    var hex := EffectiveFormat(s.format, defaultFormat) == CONFIG_FORMAT_HEX;
    match s.stype
    case TBOOL => BoolValue(if s.value.IVal? then s.value.ival != 0 else false)
    case TINT => IntValue(if s.value.IVal? then s.value.ival else 0, hex)
    case TINT64 => Int64Value(if s.value.LLVal? then s.value.llval else 0, hex)
    case TFLOAT => FloatValue(if s.value.FVal? then s.value.fval else 0.0)
    case TSTRING => StringValue(if s.value.SVal? && s.value.sval.Some? then s.value.sval.value else "")
    case _ => Undetermined
  }

  function NameIn(m: Memory, i: nat): string {
    if Live(m, i) && m[i].name.Some? then m[i].name.value else ""
  }

  /** The tree below a setting. Children lie behind their parents in memory. */
  function TreeOf(m: Memory, i: nat, defaultFormat: int): Tree
    decreases if i < |m| then |m| - i else 0, if i < |m| then 1 + |Kids(m[i])| else 0
  {
    if !Live(m, i) then Undetermined
    else
      match m[i].stype
      case TGROUP => GroupOf(MembersOf(m, i, Kids(m[i]), defaultFormat))
      case TARRAY => ArrayOf(ElementsOf(m, i, Kids(m[i]), defaultFormat))
      case TLIST => ListOf(ElementsOf(m, i, Kids(m[i]), defaultFormat))
      case _ => ScalarTree(m[i], defaultFormat)
  }

  function ElementsOf(m: Memory, p: nat, kids: seq<nat>, defaultFormat: int): (r: seq<Tree>)
    requires p < |m|
    ensures |r| == |kids|
    decreases |m| - p, |kids|
  {
    if kids == [] then []
    else
      ElementsOf(m, p, kids[..|kids| - 1], defaultFormat)
      + [var c := kids[|kids| - 1]; if p < c then TreeOf(m, c, defaultFormat) else Undetermined]
  }

  function MembersOf(m: Memory, p: nat, kids: seq<nat>, defaultFormat: int): (r: seq<Member>)
    requires p < |m|
    ensures |r| == |kids|
    decreases |m| - p, |kids|
  {
    if kids == [] then []
    else
      MembersOf(m, p, kids[..|kids| - 1], defaultFormat)
      + [var c := kids[|kids| - 1]; Member(NameIn(m, c), if p < c then TreeOf(m, c, defaultFormat) else Undetermined)]
  }

  lemma {:induction false} ElementsSnoc(m: Memory, p: nat, kids: seq<nat>, c: nat, df: int)
    requires p < |m|
    ensures ElementsOf(m, p, kids + [c], df)
         == ElementsOf(m, p, kids, df) + [if p < c then TreeOf(m, c, df) else Undetermined]
  {
    assert (kids + [c])[..|kids|] == kids;
  }

  lemma {:induction false} MembersSnoc(m: Memory, p: nat, kids: seq<nat>, c: nat, df: int)
    requires p < |m|
    ensures MembersOf(m, p, kids + [c], df)
         == MembersOf(m, p, kids, df) + [Member(NameIn(m, c), if p < c then TreeOf(m, c, df) else Undetermined)]
  {
    assert (kids + [c])[..|kids|] == kids;
  }

  // ----- What the tree below a setting depends on

  /** From lo on, m2 is m with more records behind it. */
  predicate Extends(m: Memory, lo: nat, m2: Memory) {
    |m| <= |m2| && forall i :: lo <= i < |m| ==> m2[i] == m[i]
  }

  lemma {:induction false} TreeKept(m: Memory, lo: nat, m2: Memory, j: nat, df: int)
    requires Invariant(m) && Extends(m, lo, m2) && lo <= j < |m|
    ensures TreeOf(m2, j, df) == TreeOf(m, j, df)
    decreases |m| - j, 1 + |Kids(m[j])|
  {
    if Live(m, j) {
      assert Kids(m2[j]) == Kids(m[j]);
      ElementsKept(m, lo, m2, j, Kids(m[j]), df);
    }
  }

  lemma {:induction false} ElementsKept(m: Memory, lo: nat, m2: Memory, p: nat, kids: seq<nat>, df: int)
    requires Invariant(m) && Extends(m, lo, m2) && p < |m| && lo <= p + 1 && Live(m, p) && kids <= Kids(m[p])
    ensures ElementsOf(m2, p, kids, df) == ElementsOf(m, p, kids, df)
    ensures MembersOf(m2, p, kids, df) == MembersOf(m, p, kids, df)
    decreases |m| - p, |kids|
  {
    if kids != [] {
      var n := |kids| - 1;
      assert kids[..n] <= Kids(m[p]);
      ElementsKept(m, lo, m2, p, kids[..n], df);
      KidFacts(m, p, n);
      TreeKept(m, lo, m2, kids[n], df);
      assert m2[kids[n]] == m[kids[n]];
    }
  }
}
