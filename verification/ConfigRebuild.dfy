/** The actions for a printed tree build that tree in memory. */
module ConfigRebuild {
  import opened ConfigTokens
  import opened ConfigParser
  import opened ConfigSettings
  import opened ConfigInvariant
  import opened ConfigTree
  import opened ConfigView
  import opened ConfigBuilder
  import opened Options

  /** A row of actions that all succeed. */
  ghost predicate Makes(ctx: Context, events: seq<Event>, auto: bool, ctx': Context) {
    Build(ctx, events, auto) == Ok(ctx')
  }

  lemma {:induction false} MakesThen(c1: Context, e1: seq<Event>, c2: Context, e2: seq<Event>, c3: Context, auto: bool,
                                     e: seq<Event>)
    requires Makes(c1, e1, auto, c2) && Makes(c2, e2, auto, c3) && e == e1 + e2
    ensures Makes(c1, e, auto, c3)
  {
    BuildConcat(c1, e1, e2, auto);
  }

  lemma {:induction false} MakesOne(c1: Context, e: Event, c2: Context, auto: bool)
    requires Act(c1, e, auto) == Ok(c2)
    ensures Makes(c1, [e], auto, c2)
  {
    BuildSnoc(c1, [], e, auto);
    assert [] + [e] == [e];
  }

  /** Only place s and new records differ. */
  predicate Except(m: Memory, s: nat, m': Memory) {
    |m| <= |m'| && forall i :: 0 <= i < |m| && i != s ==> m'[i] == m[i]
  }

  // ----- Scalars

  function ScalarOfTree(t: Tree): Scalar
    requires IsScalar(t)
  {
    match t
    case BoolValue(b) => ABool(if b then 1 else 0)
    case IntValue(i, _) => AnInt(i)
    case Int64Value(l, _) => AnInt64(l)
    case FloatValue(f) => AFloat(f)
    case StringValue(s) => AString(Some(s))
  }

  function FormatOfTree(t: Tree): Option<int> {
    match t
    case IntValue(_, hex) => Some(if hex then CONFIG_FORMAT_HEX else CONFIG_FORMAT_DEFAULT)
    case Int64Value(_, hex) => Some(if hex then CONFIG_FORMAT_HEX else CONFIG_FORMAT_DEFAULT)
    case _ => None
  }

  lemma {:induction false} TextPut(ctx: Context, text: string, auto: bool)
    requires ctx.text == None
    ensures Build(ctx, [Piece(Str(text)), Text], auto) == Act(ctx.(text := Some(text)), Text, auto)
  {
    assert "" + text == text;
    MakesOne(ctx, Piece(Str(text)), ctx.(text := Some(text)), auto);
    BuildSnoc(ctx, [Piece(Str(text))], Text, auto);
    assert [Piece(Str(text)), Text] == [Piece(Str(text))] + [Text];
  }

  lemma {:induction false} TokenPut(ctx: Context, t: Token, v: Scalar, format: Option<int>, auto: bool)
    requires ScalarOf(t) == v && FormatOf(t) == format
    ensures Build(ctx, [Literal(t)], auto) == PutScalar(ctx, v, format, auto)
  {
    BuildSnoc(ctx, [], Literal(t), auto);
    assert [] + [Literal(t)] == [Literal(t)];
  }

  lemma {:induction false} TokenOfScalar(t: Tree)
    requires IsScalar(t) && !t.StringValue?
    ensures ScalarOf(ScalarToken(t)) == ScalarOfTree(t) && FormatOf(ScalarToken(t)) == FormatOfTree(t)
  {
  }

  /** The actions for a scalar put it, with its format, and leave no text behind. */
  lemma {:induction false} ScalarPut(ctx: Context, t: Tree, auto: bool)
    requires IsScalar(t) && Printable(t) && ctx.text == None
    ensures Build(ctx, Events(t), auto) == PutScalar(ctx, ScalarOfTree(t), FormatOfTree(t), auto)
  {
    if t.StringValue? {
      TextPut(ctx, t.s, auto);
      assert ctx.(text := Some(t.s)).(text := None) == ctx;
    } else {
      TokenOfScalar(t);
      TokenPut(ctx, ScalarToken(t), ScalarOfTree(t), FormatOfTree(t), auto);
    }
  }

  /** A blank record given a scalar and its format stands for that scalar. */
  function Given(s: Setting, t: Tree, auto: bool): Setting
    requires s.Setting? && IsScalar(t) && SetScalar(s, ScalarOfTree(t), auto).Some?
  {
    var e := SetScalar(s, ScalarOfTree(t), auto).value;
    var f := FormatOfTree(t);
    if e.Setting? && f.Some? && SetFormat(e, f.value).Some? then SetFormat(e, f.value).value else e
  }

  lemma {:induction false} GivenTree(s: Setting, t: Tree, auto: bool)
    requires s.Setting? && IsScalar(t) && (s.stype == TNONE || s.stype == TreeType(t)) && s.format == CONFIG_FORMAT_DEFAULT
    requires s.value.Zero?
    ensures SetScalar(s, ScalarOfTree(t), auto).Some?
    ensures var e := Given(s, t, auto);
            && e.Setting? && ScalarTree(e, CONFIG_FORMAT_DEFAULT) == t && !IsAggregate(e.stype) && e.stype == TreeType(t)
            && e.name == s.name && e.parent == s.parent
  {
    match t
    case BoolValue(b) =>
    case IntValue(i, hex) =>
    case Int64Value(l, hex) =>
    case FloatValue(f) =>
    case StringValue(x) =>
  }

  /** What the actions for a value do to a setting that was just named. */
  ghost predicate SetTo(ctx: Context, shape: Shape, t: Tree, ctx': Context)
    requires ctx.setting.Some?
  {
    var m, m', s := ctx.memory, ctx'.memory, ctx.setting.value;
    && Follows(ctx', shape.(named := false)) && ctx'.parent == ctx.parent
    && Live(m, s) && Live(m', s) && Except(m, s, m') && m'[s].name == m[s].name && m'[s].stype == TreeType(t)
    && TreeOf(m', s, CONFIG_FORMAT_DEFAULT) == t
  }

  /** What they do in a list or array: a new last child. */
  ghost predicate AppendedTo(ctx: Context, shape: Shape, t: Tree, ctx': Context) {
    && ctx.parent.Some? && Live(ctx.memory, ctx.parent.value)
    && var m, m', p := ctx.memory, ctx'.memory, ctx.parent.value;
       && Follows(ctx', shape) && ctx'.parent == ctx.parent
       && Except(m, p, m') && |m| < |m'| && m'[p] == m[p].(value := Elements(Kids(m[p]) + [|m|]))
       && Live(m', |m|) && m'[|m|].stype == TreeType(t) && TreeOf(m', |m|, CONFIG_FORMAT_DEFAULT) == t
  }

  lemma {:induction false} ScalarSet(ctx: Context, shape: Shape, t: Tree, auto: bool) returns (ctx': Context)
    requires Follows(ctx, shape) && Innermost(shape) == GROUP && shape.named && !shape.text && IsScalar(t) && Printable(t)
    ensures Makes(ctx, Events(t), auto, ctx') && SetTo(ctx, shape, t, ctx')
  {
    PathTop(ctx, shape);
    var m, s := ctx.memory, ctx.setting.value;
    GivenTree(m[s], t, auto);
    ScalarPut(ctx, t, auto);
    SetPendingFollows(ctx, shape, ScalarOfTree(t), FormatOfTree(t), auto);
    ctx' := ctx.(memory := m[s := Given(m[s], t, auto)]);
    assert PutScalar(ctx, ScalarOfTree(t), FormatOfTree(t), auto) == Ok(ctx');
  }

  lemma {:induction false} ScalarAppended(ctx: Context, shape: Shape, t: Tree, auto: bool) returns (ctx': Context)
    requires Follows(ctx, shape) && Innermost(shape) != GROUP && !shape.named && !shape.text && IsScalar(t) && Printable(t)
    requires ctx.parent.Some? && Live(ctx.memory, ctx.parent.value) && CheckType(ctx.memory, ctx.parent.value, TreeType(t))
    ensures Makes(ctx, Events(t), auto, ctx') && AppendedTo(ctx, shape, t, ctx')
  {
    PathTop(ctx, shape);
    var m, p := ctx.memory, ctx.parent.value;
    var blank := Setting(None, TreeType(t), CONFIG_FORMAT_DEFAULT, Zero, Some(p));
    GivenTree(blank, t, auto);
    ScalarPut(ctx, t, auto);
    AppendFollows(ctx, shape, ScalarOfTree(t), FormatOfTree(t), auto);
    var e := Given(blank, t, auto);
    ctx' := ctx.(memory := m[p := m[p].(value := Elements(Kids(m[p]) + [|m|]))] + [e]);
    AppendScalar(ctx, p, t, auto, e, ctx');
  }

  lemma {:induction false} AppendScalar(ctx: Context, p: nat, t: Tree, auto: bool, e: Setting, ctx': Context)
    requires ctx.parent == Some(p) && Live(ctx.memory, p) && IsVector(ctx.memory[p].stype) && IsScalar(t)
    requires CheckType(ctx.memory, p, TreeType(t))
    requires var blank := Setting(None, TreeType(t), CONFIG_FORMAT_DEFAULT, Zero, Some(p));
             SetScalar(blank, ScalarOfTree(t), auto).Some? && e == Given(blank, t, auto) && e.Setting?
    requires ctx'.memory == ctx.memory[p := ctx.memory[p].(value := Elements(Kids(ctx.memory[p]) + [|ctx.memory|]))] + [e]
    requires ctx' == ctx.(memory := ctx'.memory)
    ensures PutScalar(ctx, ScalarOfTree(t), FormatOfTree(t), auto) == Ok(ctx')
  {
    var r := SetElem(ctx.memory, p, -1, ScalarOfTree(t), auto);
    assert TypeOf(ScalarOfTree(t)) == TreeType(t);
    assert r.1 == Some(|ctx.memory|);
    assert Formatted(r.0, |ctx.memory|, FormatOfTree(t)) == ctx'.memory;
  }

  // ----- Contents

  /** What the actions for contents do to the open setting: it and new records change, but not its kind and place. */
  predicate Filled(ctx: Context, v: nat, ctx': Context) {
    && ctx.parent == Some(v) && ctx'.parent == Some(v) && Live(ctx.memory, v) && Live(ctx'.memory, v)
    && Except(ctx.memory, v, ctx'.memory)
    && ctx'.memory[v].name == ctx.memory[v].name && ctx'.memory[v].stype == ctx.memory[v].stype
    && ctx'.memory[v].parent == ctx.memory[v].parent
  }

  function ElementTrees(ctx: Context, v: nat): seq<Tree>
    requires Live(ctx.memory, v)
  {
    ElementsOf(ctx.memory, v, Kids(ctx.memory[v]), CONFIG_FORMAT_DEFAULT)
  }

  function MemberTrees(ctx: Context, v: nat): seq<Member>
    requires Live(ctx.memory, v)
  {
    MembersOf(ctx.memory, v, Kids(ctx.memory[v]), CONFIG_FORMAT_DEFAULT)
  }

  lemma {:induction false} FilledThen(c1: Context, c2: Context, c3: Context, v: nat)
    requires Filled(c1, v, c2) && Filled(c2, v, c3)
    ensures Filled(c1, v, c3)
  {
  }

  /** One more child of an array or list is one more element. */
  lemma {:induction false} ElementJoins(ctx: Context, shape: Shape, t: Tree, ctx': Context, v: nat)
    requires Follows(ctx, shape) && ctx.parent == Some(v) && Live(ctx.memory, v) && AppendedTo(ctx, shape, t, ctx')
    ensures Follows(ctx', shape) && Filled(ctx, v, ctx') && ElementTrees(ctx', v) == ElementTrees(ctx, v) + [t]
  {
    var m, m' := ctx.memory, ctx'.memory;
    ElementsSnoc(m', v, Kids(m[v]), |m|, CONFIG_FORMAT_DEFAULT);
    ElementsKept(m, v + 1, m', v, Kids(m[v]), CONFIG_FORMAT_DEFAULT);
  }

  /** The next element of an array. */
  lemma {:induction false} NextInArray(ctx: Context, shape: Shape, v: nat, t: Tree, auto: bool) returns (ctx': Context)
    requires Follows(ctx, shape) && Innermost(shape) == ARRAY && !shape.named && !shape.text
    requires ctx.parent == Some(v) && Live(ctx.memory, v)
    requires IsScalar(t) && Printable(t) && CheckType(ctx.memory, v, TreeType(t))
    ensures Makes(ctx, Events(t), auto, ctx') && Follows(ctx', shape)
    ensures Filled(ctx, v, ctx') && CheckType(ctx'.memory, v, TreeType(t))
    ensures ElementTrees(ctx', v) == ElementTrees(ctx, v) + [t]
  {
    ctx' := ScalarAppended(ctx, shape, t, auto);
    ElementJoins(ctx, shape, t, ctx', v);
    StillChecks(ctx, shape, t, ctx', v);
  }

  lemma {:induction false} OneAndRest<T>(a: seq<T>, es: seq<T>)
    requires es != []
    ensures a + [es[0]] + es[1..] == a + es
  {
  }

  /** The elements of an array, all of one type. */
  lemma {:induction false} FillArray(ctx: Context, shape: Shape, v: nat, es: seq<Tree>, auto: bool) returns (ctx': Context)
    requires Follows(ctx, shape) && Innermost(shape) == ARRAY && !shape.named && !shape.text
    requires ctx.parent == Some(v) && Live(ctx.memory, v)
    requires forall i :: 0 <= i < |es| ==>
      IsScalar(es[i]) && Printable(es[i]) && CheckType(ctx.memory, v, TreeType(es[i])) && TreeType(es[i]) == TreeType(es[0])
    ensures Makes(ctx, ElementEvents(es), auto, ctx') && Follows(ctx', shape)
    ensures Filled(ctx, v, ctx') && ElementTrees(ctx', v) == ElementTrees(ctx, v) + es
    decreases |es|
  {
    if es == [] {
      ctx' := ctx;
      assert ElementTrees(ctx, v) + es == ElementTrees(ctx, v);
    } else {
      var mid := NextInArray(ctx, shape, v, es[0], auto);
      ctx' := FillArray(mid, shape, v, es[1..], auto);
      MakesThen(ctx, Events(es[0]), mid, ElementEvents(es[1..]), ctx', auto, ElementEvents(es));
      FilledThen(ctx, mid, ctx', v);
      OneAndRest(ElementTrees(ctx, v), es);
    }
  }

  lemma {:induction false} StillChecks(ctx: Context, shape: Shape, t: Tree, ctx': Context, v: nat)
    requires Follows(ctx, shape) && ctx.parent == Some(v) && Live(ctx.memory, v) && AppendedTo(ctx, shape, t, ctx')
    requires CheckType(ctx.memory, v, TreeType(t))
    ensures Live(ctx'.memory, v) && CheckType(ctx'.memory, v, TreeType(t))
  {
    var m, m' := ctx.memory, ctx'.memory;
    if Kids(m[v]) != [] {
      KidFacts(m, v, 0);
      assert m'[Kids(m[v])[0]] == m[Kids(m[v])[0]];
    }
  }

  predicate Unnamed(m: Memory, g: nat, name: string)
    requires Live(m, g)
  {
    forall k: nat :: k < |Kids(m[g])| ==> !HasName(m, Kids(m[g])[k], name)
  }

  lemma {:induction false} UnnamedMember(m: Memory, g: nat, name: string)
    requires Live(m, g) && Unnamed(m, g, name)
    ensures FindMember(m, g, name) == None
  {
  }

  /** Naming a new setting in the open group. */
  lemma {:induction false} NameNew(ctx: Context, shape: Shape, g: nat, name: string, auto: bool) returns (ctx': Context)
    requires Follows(ctx, shape) && Innermost(shape) == GROUP && !shape.named
    requires ctx.parent == Some(g) && Live(ctx.memory, g) && ValidName(name) && Unnamed(ctx.memory, g, name)
    ensures Makes(ctx, [Named(Token.Name(name))], auto, ctx')
    ensures Follows(ctx', shape.(named := true)) && ctx'.parent == ctx.parent && ctx'.setting == Some(|ctx.memory|)
    ensures var blank := Setting(Some(name), TNONE, CONFIG_FORMAT_DEFAULT, Zero, Some(g));
            Grown(ctx.memory, g, blank, ctx'.memory)
  {
    var m := ctx.memory;
    PathTop(ctx, shape);
    UnnamedMember(m, g, name);
    var r := Add(m, g, Some(name), TNONE);
    NamedFollows(ctx, shape, Token.Name(name));
    ctx' := ctx.(memory := r.0, setting := r.1);
    assert ActNamed(ctx, Token.Name(name)) == Ok(ctx');
    MakesOne(ctx, Named(Token.Name(name)), ctx', auto);
  }

  /** A setting that was named and set is one more member of its group. */
  lemma {:induction false} MemberJoins(ctx: Context, named: Context, shape: Shape, g: nat, name: string, t: Tree, ctx': Context)
    requires Follows(ctx, shape) && !shape.named && ctx.parent == Some(g) && Live(ctx.memory, g) && named.parent == Some(g)
    requires named.setting == Some(|ctx.memory|)
    requires Grown(ctx.memory, g, Setting(Some(name), TNONE, CONFIG_FORMAT_DEFAULT, Zero, Some(g)), named.memory)
    requires SetTo(named, shape.(named := true), t, ctx')
    ensures Follows(ctx', shape) && Filled(ctx, g, ctx') && MemberTrees(ctx', g) == MemberTrees(ctx, g) + [Member(name, t)]
    ensures Kids(ctx'.memory[g]) == Kids(ctx.memory[g]) + [|ctx.memory|]
    ensures Live(ctx'.memory, |ctx.memory|) && ctx'.memory[|ctx.memory|].name == Some(name)
  {
    var m, m1, m' := ctx.memory, named.memory, ctx'.memory;
    var n := |m|;
    GrownOld(m, g, Setting(Some(name), TNONE, CONFIG_FORMAT_DEFAULT, Zero, Some(g)), m1, g);
    assert shape.(named := true).(named := false) == shape;
    assert m'[g] == m1[g];
    MembersSnoc(m', g, Kids(m[g]), n, CONFIG_FORMAT_DEFAULT);
    assert Extends(m, g + 1, m');
    ElementsKept(m, g + 1, m', g, Kids(m[g]), CONFIG_FORMAT_DEFAULT);
  }

  lemma {:induction false} StillUnnamed(ctx: Context, shape: Shape, g: nat, name: string, ctx': Context, other: string)
    requires Follows(ctx, shape) && Filled(ctx, g, ctx') && Kids(ctx'.memory[g]) == Kids(ctx.memory[g]) + [|ctx.memory|]
    requires Live(ctx'.memory, |ctx.memory|) && ctx'.memory[|ctx.memory|].name == Some(name)
    requires Unnamed(ctx.memory, g, other) && ValidName(name) && ValidName(other) && name != other
    ensures Unnamed(ctx'.memory, g, other)
  {
    var m, m' := ctx.memory, ctx'.memory;
    forall k: nat | k < |Kids(m'[g])|
      ensures !HasName(m', Kids(m'[g])[k], other)
    {
      if k < |Kids(m[g])| {
        KidFacts(m, g, k);
        assert !HasName(m, Kids(m[g])[k], other);
      } else {
        ValidNameHead(name);
        ValidNameHead(other);
      }
    }
  }

  // ----- Brackets

  function BracketOfTree(t: Tree): Bracket
    requires t.GroupOf? || t.ArrayOf? || t.ListOf?
  {
    match t
    case GroupOf(_) => GROUP
    case ArrayOf(_) => ARRAY
    case ListOf(_) => LIST
  }

  predicate IsBracketed(t: Tree) { t.GroupOf? || t.ArrayOf? || t.ListOf? }

  function Inside(shape: Shape, b: Bracket): Shape {
    Shape(shape.open + [b], false, shape.text)
  }

  /** Opening the setting just named. */
  lemma {:induction false} OpenNamed(ctx: Context, shape: Shape, b: Bracket, auto: bool) returns (ctx': Context)
    requires Follows(ctx, shape) && Innermost(shape) == GROUP && shape.named
    ensures ctx.setting.Some? && Live(ctx.memory, ctx.setting.value)
    ensures Makes(ctx, [Open(b)], auto, ctx') && Follows(ctx', Inside(shape, b)) && ctx'.parent == ctx.setting
    ensures var m, s := ctx.memory, ctx.setting.value;
            ctx'.memory == m[s := m[s].(stype := BracketType(b))] && Kids(m[s]) == [] && m[s].parent == ctx.parent
  {
    OpenInGroupFollows(ctx, shape, b);
    ctx' := ActOpen(ctx, b).ctx;
    PathTop(ctx, shape);
    MakesOne(ctx, Open(b), ctx', auto);
  }

  /** Opening a new element of the open list. */
  lemma {:induction false} OpenElement(ctx: Context, shape: Shape, b: Bracket, auto: bool) returns (ctx': Context)
    requires Follows(ctx, shape) && Innermost(shape) == LIST
    ensures Makes(ctx, [Open(b)], auto, ctx') && Follows(ctx', Inside(shape, b)) && ctx'.parent == Some(|ctx.memory|)
    ensures ctx.parent.Some? && Live(ctx.memory, ctx.parent.value)
    ensures Grown(ctx.memory, ctx.parent.value, Setting(None, BracketType(b), CONFIG_FORMAT_DEFAULT, Zero, ctx.parent),
                  ctx'.memory)
  {
    OpenInListFollows(ctx, shape, b);
    ctx' := ActOpen(ctx, b).ctx;
    PathTop(ctx, shape);
    MakesOne(ctx, Open(b), ctx', auto);
  }

  lemma {:induction false} CloseBracket(ctx: Context, shape: Shape, b: Bracket, v: nat, auto: bool) returns (ctx': Context)
    requires Follows(ctx, Inside(shape, b)) && ctx.parent == Some(v) && Live(ctx.memory, v)
    ensures Makes(ctx, [Close], auto, ctx') && Follows(ctx', shape.(named := false))
    ensures ctx' == ctx.(parent := ctx.memory[v].parent)
  {
    CloseFollows(ctx, Inside(shape, b));
    ctx' := ctx.(parent := ctx.memory[v].parent);
    assert (shape.open + [b])[..|shape.open|] == shape.open;
    assert After(Inside(shape, b), Close) == shape.(named := false);
    MakesOne(ctx, Close, ctx', auto);
  }

  /** The actions between the brackets. */
  function InnerEvents(t: Tree): seq<Event>
    requires IsBracketed(t) && Printable(t)
  {
    match t
    case GroupOf(ms) => MemberEvents(ms)
    case ArrayOf(es) => ElementEvents(es)
    case ListOf(es) => ElementEvents(es)
  }

  lemma {:induction false} BracketEvents(t: Tree)
    requires IsBracketed(t) && Printable(t)
    ensures Events(t) == [Open(BracketOfTree(t))] + InnerEvents(t) + [Close]
  {
  }

  /** The open setting, empty before, has the contents of the tree. */
  predicate Contains(ctx: Context, v: nat, t: Tree)
    requires Live(ctx.memory, v) && IsBracketed(t)
  {
    match t
    case GroupOf(ms) => MemberTrees(ctx, v) == ms
    case ArrayOf(es) => ElementTrees(ctx, v) == es
    case ListOf(es) => ElementTrees(ctx, v) == es
  }

  lemma {:induction false} FilledTree(ctx: Context, v: nat, t: Tree)
    requires Live(ctx.memory, v) && IsBracketed(t) && Contains(ctx, v, t)
    requires ctx.memory[v].stype == BracketType(BracketOfTree(t))
    ensures TreeOf(ctx.memory, v, CONFIG_FORMAT_DEFAULT) == t
  {
  }

  lemma {:induction false} TypeOfBracket(t: Tree)
    requires IsBracketed(t)
    ensures BracketType(BracketOfTree(t)) == TreeType(t)
  {
  }

  /** A bracketed value for the setting just named. */
  lemma {:induction false} SetBracketed(ctx: Context, shape: Shape, t: Tree, auto: bool) returns (ctx': Context)
    requires Follows(ctx, shape) && Innermost(shape) == GROUP && shape.named && !shape.text
    requires IsBracketed(t) && Printable(t)
    ensures ctx.setting.Some? && Makes(ctx, Events(t), auto, ctx') && SetTo(ctx, shape, t, ctx')
    decreases t, 4
  {
    var b := BracketOfTree(t);
    var within := OpenNamed(ctx, shape, b, auto);
    var s := ctx.setting.value;
    var full := Fill(within, Inside(shape, b), s, t, auto);
    ctx' := CloseBracket(full, shape, b, s, auto);
    MakesThen(ctx, [Open(b)], within, InnerEvents(t), full, auto, [Open(b)] + InnerEvents(t));
    BracketEvents(t);
    MakesThen(ctx, [Open(b)] + InnerEvents(t), full, [Close], ctx', auto, Events(t));
    FilledTree(full, s, t);
    TypeOfBracket(t);
  }

  /** A bracketed value as a new element of the open list. */
  lemma {:induction false} AppendBracketed(ctx: Context, shape: Shape, t: Tree, auto: bool) returns (ctx': Context)
    requires Follows(ctx, shape) && Innermost(shape) == LIST && !shape.named && !shape.text
    requires IsBracketed(t) && Printable(t)
    ensures Makes(ctx, Events(t), auto, ctx') && AppendedTo(ctx, shape, t, ctx')
    decreases t, 4
  {
    var b, n := BracketOfTree(t), |ctx.memory|;
    var within := OpenElement(ctx, shape, b, auto);
    var e := Setting(None, BracketType(b), CONFIG_FORMAT_DEFAULT, Zero, ctx.parent);
    GrownOld(ctx.memory, ctx.parent.value, e, within.memory, ctx.parent.value);
    var full := Fill(within, Inside(shape, b), n, t, auto);
    ctx' := CloseBracket(full, shape, b, n, auto);
    assert shape.(named := false) == shape;
    MakesThen(ctx, [Open(b)], within, InnerEvents(t), full, auto, [Open(b)] + InnerEvents(t));
    BracketEvents(t);
    MakesThen(ctx, [Open(b)] + InnerEvents(t), full, [Close], ctx', auto, Events(t));
    FilledTree(full, n, t);
    TypeOfBracket(t);
  }

  lemma {:induction false} Empty(ctx: Context, v: nat)
    requires Live(ctx.memory, v) && Kids(ctx.memory[v]) == []
    ensures ElementTrees(ctx, v) == [] && MemberTrees(ctx, v) == []
    ensures forall t: SettingType :: CheckType(ctx.memory, v, t)
    ensures forall name: string :: Unnamed(ctx.memory, v, name)
  {
  }

  /** The contents of an within, still empty setting. */
  lemma {:induction false} Fill(ctx: Context, shape: Shape, v: nat, t: Tree, auto: bool) returns (ctx': Context)
    requires IsBracketed(t) && Printable(t) && Follows(ctx, shape) && Innermost(shape) == BracketOfTree(t)
    requires !shape.named && !shape.text && ctx.parent == Some(v) && Live(ctx.memory, v) && Kids(ctx.memory[v]) == []
    ensures Makes(ctx, InnerEvents(t), auto, ctx') && Follows(ctx', shape) && Filled(ctx, v, ctx') && Contains(ctx', v, t)
    decreases t, 3
  {
    Empty(ctx, v);
    match t
    case GroupOf(ms) =>
      ctx' := FillGroup(ctx, shape, v, ms, auto);
      assert [] + ms == ms;
    case ArrayOf(es) =>
      ctx' := FillArray(ctx, shape, v, es, auto);
      assert [] + es == es;
    case ListOf(es) =>
      ctx' := FillList(ctx, shape, v, es, auto);
      assert [] + es == es;
  }

  lemma {:induction false} SetValue(ctx: Context, shape: Shape, t: Tree, auto: bool) returns (ctx': Context)
    requires Follows(ctx, shape) && Innermost(shape) == GROUP && shape.named && !shape.text && Printable(t)
    ensures ctx.setting.Some? && Makes(ctx, Events(t), auto, ctx') && SetTo(ctx, shape, t, ctx')
    decreases t, 5
  {
    if IsBracketed(t) {
      ctx' := SetBracketed(ctx, shape, t, auto);
    } else {
      ctx' := ScalarSet(ctx, shape, t, auto);
    }
  }

  lemma {:induction false} AppendValue(ctx: Context, shape: Shape, t: Tree, auto: bool) returns (ctx': Context)
    requires Follows(ctx, shape) && Innermost(shape) == LIST && !shape.named && !shape.text && Printable(t)
    ensures Makes(ctx, Events(t), auto, ctx') && AppendedTo(ctx, shape, t, ctx')
    decreases t, 5
  {
    if IsBracketed(t) {
      ctx' := AppendBracketed(ctx, shape, t, auto);
    } else {
      PathTop(ctx, shape);
      ctx' := ScalarAppended(ctx, shape, t, auto);
    }
  }

  lemma {:induction false} FillList(ctx: Context, shape: Shape, v: nat, es: seq<Tree>, auto: bool) returns (ctx': Context)
    requires Follows(ctx, shape) && Innermost(shape) == LIST && !shape.named && !shape.text
    requires ctx.parent == Some(v) && Live(ctx.memory, v) && forall i :: 0 <= i < |es| ==> Printable(es[i])
    ensures Makes(ctx, ElementEvents(es), auto, ctx') && Follows(ctx', shape)
    ensures Filled(ctx, v, ctx') && ElementTrees(ctx', v) == ElementTrees(ctx, v) + es
    decreases es, 0
  {
    if es == [] {
      ctx' := ctx;
      assert ElementTrees(ctx, v) + es == ElementTrees(ctx, v);
    } else {
      var mid := AppendValue(ctx, shape, es[0], auto);
      ElementJoins(ctx, shape, es[0], mid, v);
      ctx' := FillList(mid, shape, v, es[1..], auto);
      MakesThen(ctx, Events(es[0]), mid, ElementEvents(es[1..]), ctx', auto, ElementEvents(es));
      FilledThen(ctx, mid, ctx', v);
      OneAndRest(ElementTrees(ctx, v), es);
    }
  }

  /** The next member of a group. */
  lemma {:induction false} NextMember(ctx: Context, shape: Shape, g: nat, x: Member, auto: bool) returns (ctx': Context)
    requires Follows(ctx, shape) && Innermost(shape) == GROUP && !shape.named && !shape.text
    requires ctx.parent == Some(g) && Live(ctx.memory, g) && Printable(x.value)
    requires ValidName(x.name) && Unnamed(ctx.memory, g, x.name)
    ensures Makes(ctx, [Named(Token.Name(x.name))] + Events(x.value), auto, ctx') && Follows(ctx', shape)
    ensures Filled(ctx, g, ctx') && MemberTrees(ctx', g) == MemberTrees(ctx, g) + [x]
    ensures Kids(ctx'.memory[g]) == Kids(ctx.memory[g]) + [|ctx.memory|]
    ensures Live(ctx'.memory, |ctx.memory|) && ctx'.memory[|ctx.memory|].name == Some(x.name)
    decreases x, 6
  {
    var begun := NameNew(ctx, shape, g, x.name, auto);
    ctx' := SetValue(begun, shape.(named := true), x.value, auto);
    MakesThen(ctx, [Named(Token.Name(x.name))], begun, Events(x.value), ctx', auto,
              [Named(Token.Name(x.name))] + Events(x.value));
    MemberJoins(ctx, begun, shape, g, x.name, x.value, ctx');
  }

  lemma {:induction false} RestUnnamed(ctx: Context, shape: Shape, g: nat, ms: seq<Member>, mid: Context)
    requires Follows(ctx, shape) && ctx.parent == Some(g) && Live(ctx.memory, g) && Innermost(shape) == GROUP
    requires ms != [] && NamesApart(ms) && forall i :: 0 <= i < |ms| ==> Unnamed(ctx.memory, g, ms[i].name)
    requires Filled(ctx, g, mid) && Live(mid.memory, g) && Kids(mid.memory[g]) == Kids(ctx.memory[g]) + [|ctx.memory|]
    requires Live(mid.memory, |ctx.memory|) && mid.memory[|ctx.memory|].name == Some(ms[0].name)
    ensures NamesApart(ms[1..])
    ensures forall i :: 0 <= i < |ms[1..]| ==> Unnamed(mid.memory, g, ms[1..][i].name)
  {
    forall i | 0 <= i < |ms[1..]|
      ensures Unnamed(mid.memory, g, ms[1..][i].name)
    {
      StillUnnamed(ctx, shape, g, ms[0].name, mid, ms[i + 1].name);
    }
  }

  lemma {:induction false} RestPrintable(ms: seq<Member>)
    requires ms != [] && Printable(GroupOf(ms))
    ensures NamesApart(ms) && Printable(ms[0].value) && Printable(GroupOf(ms[1..]))
    ensures MemberEvents(ms) == [Named(Token.Name(ms[0].name))] + Events(ms[0].value) + MemberEvents(ms[1..])
  {
  }

  lemma {:induction false} FillGroup(ctx: Context, shape: Shape, g: nat, ms: seq<Member>, auto: bool) returns (ctx': Context)
    requires Follows(ctx, shape) && Innermost(shape) == GROUP && !shape.named && !shape.text
    requires ctx.parent == Some(g) && Live(ctx.memory, g) && Printable(GroupOf(ms))
    requires forall i :: 0 <= i < |ms| ==> Unnamed(ctx.memory, g, ms[i].name)
    ensures Makes(ctx, MemberEvents(ms), auto, ctx') && Follows(ctx', shape)
    ensures Filled(ctx, g, ctx') && MemberTrees(ctx', g) == MemberTrees(ctx, g) + ms
    decreases ms, 0
  {
    if ms == [] {
      ctx' := ctx;
      assert MemberTrees(ctx, g) + ms == MemberTrees(ctx, g);
    } else {
      RestPrintable(ms);
      var mid := NextMember(ctx, shape, g, ms[0], auto);
      RestUnnamed(ctx, shape, g, ms, mid);
      ctx' := FillGroup(mid, shape, g, ms[1..], auto);
      MakesThen(ctx, [Named(Token.Name(ms[0].name))] + Events(ms[0].value), mid, MemberEvents(ms[1..]), ctx', auto,
                MemberEvents(ms));
      FilledThen(ctx, mid, ctx', g);
      OneAndRest(MemberTrees(ctx, g), ms);
    }
  }

  /** The actions for a printed configuration succeed on an empty one, and build it. */
  lemma {:induction false} Rebuilt(ms: seq<Member>, auto: bool) returns (ctx: Context)
    requires Printable(GroupOf(ms))
    ensures Build(Fresh(), MemberEvents(ms), auto) == Ok(ctx)
    ensures Invariant(ctx.memory) && TreeOf(ctx.memory, 0, CONFIG_FORMAT_DEFAULT) == GroupOf(ms)
  {
    var start, shape := Fresh(), Shape([], false, false);
    Empty(start, 0);
    ctx := FillGroup(start, shape, 0, ms, auto);
    assert [] + ms == ms;
    FilledTree(ctx, 0, GroupOf(ms));
  }
}
