/** The semantic actions of the parser, which build settings through the context's parent and setting pointers. */
module ConfigBuilder {
  import opened ConfigTokens
  import opened ConfigParser
  import opened ConfigSettings
  import opened ConfigInvariant
  import opened Options

  datatype Context = Context(memory: Memory, parent: Option<nat>, setting: Option<nat>, text: Option<string>)

  /** An action may abort the parse; Crash would be a null or dangling pointer followed. */
  datatype Outcome = Ok(ctx: Context) | Abort | Crash

  function BracketType(b: Bracket): SettingType {
    match b
    case ARRAY => TARRAY
    case LIST => TLIST
    case GROUP => TGROUP
  }

  predicate In(ctx: Context, t: SettingType) {
    ctx.parent.Some? && Live(ctx.memory, ctx.parent.value) && ctx.memory[ctx.parent.value].stype == t
  }

  predicate InVector(ctx: Context) { In(ctx, TARRAY) || In(ctx, TLIST) }

  function NameOf(t: Token): string {
    if t.Name? then t.s else ""
  }

  function PieceOf(t: Token): string {
    if t.Str? then t.s else ""
  }

  function ScalarOf(t: Token): Scalar {
    match t
    case Boolean(b) => ABool(if b then 1 else 0)
    case Integer(i) => AnInt(i)
    case Hex(i) => AnInt(i)
    case Integer64(l) => AnInt64(l)
    case Hex64(l) => AnInt64(l)
    case Float(f) => AFloat(f)
    case _ => AnInt(0)
  }

  function FormatOf(t: Token): Option<int> {
    match t
    case Integer(_) => Some(CONFIG_FORMAT_DEFAULT)
    case Integer64(_) => Some(CONFIG_FORMAT_DEFAULT)
    case Hex(_) => Some(CONFIG_FORMAT_HEX)
    case Hex64(_) => Some(CONFIG_FORMAT_HEX)
    case _ => None
  }

  function Formatted(m: Memory, s: nat, format: Option<int>): Memory
    requires Live(m, s)
  {
    if format.Some? && SetFormat(m[s], format.value).Some? then m[s := SetFormat(m[s], format.value).value] else m
  }

  /** A scalar goes to the end of the array or list that is open, or else to the setting just named. */
  function PutScalar(ctx: Context, x: Scalar, format: Option<int>, autoConvert: bool): Outcome {
    if InVector(ctx) then
      var r := SetElem(ctx.memory, ctx.parent.value, -1, x, autoConvert);
      if r.1.None? then Abort
      else if !Live(r.0, r.1.value) then Crash
      else Ok(ctx.(memory := Formatted(r.0, r.1.value, format)))
    else if ctx.setting.None? || !Live(ctx.memory, ctx.setting.value) then Crash
    else
      var s := ctx.setting.value;
      var e := SetScalar(ctx.memory[s], x, autoConvert);
      var m := if e.Some? then ctx.memory[s := e.value] else ctx.memory;
      if !Live(m, s) then Crash else Ok(ctx.(memory := Formatted(m, s, format)))
  }

  function ActNamed(ctx: Context, t: Token): Outcome {
    if ctx.parent.None? then Abort
    else if !Live(ctx.memory, ctx.parent.value) then Crash
    else
      var r := Add(ctx.memory, ctx.parent.value, Some(NameOf(t)), TNONE);
      if r.1.None? then Abort else Ok(ctx.(memory := r.0, setting := r.1))
  }

  function ActOpen(ctx: Context, b: Bracket): Outcome {
    if In(ctx, TLIST) then
      var r := Add(ctx.memory, ctx.parent.value, None, BracketType(b));
      Ok(ctx.(memory := r.0, parent := r.1))
    else if ctx.setting.None? || !Live(ctx.memory, ctx.setting.value) then Crash
    else
      var s := ctx.setting.value;
      Ok(ctx.(memory := ctx.memory[s := ctx.memory[s].(stype := BracketType(b))], parent := Some(s), setting := None))
  }

  function ActClose(ctx: Context): Outcome {
    if ctx.parent.None? then Ok(ctx)
    else if !Live(ctx.memory, ctx.parent.value) then Crash
    else Ok(ctx.(parent := ctx.memory[ctx.parent.value].parent))
  }

  function Act(ctx: Context, event: Event, autoConvert: bool): Outcome {
    match event
    case Named(t) => ActNamed(ctx, t)
    case Open(b) => ActOpen(ctx, b)
    case Close => ActClose(ctx)
    case Literal(t) => PutScalar(ctx, ScalarOf(t), FormatOf(t), autoConvert)
    case Piece(t) => Ok(ctx.(text := Some((if ctx.text.Some? then ctx.text.value else "") + PieceOf(t))))
    case Text => PutScalar(ctx.(text := None), AString(ctx.text), None, autoConvert)
  }

  function Build(ctx: Context, events: seq<Event>, autoConvert: bool): Outcome {
    if events == [] then Ok(ctx)
    else
      var o := Build(ctx, events[..|events| - 1], autoConvert);
      if o.Ok? then Act(o.ctx, events[|events| - 1], autoConvert) else o
  }

  /** A configuration that has just been initialised: an empty root group. */
  function Fresh(): (ctx: Context)
    ensures Invariant(ctx.memory)
  {
    Context([Setting(None, TGROUP, CONFIG_FORMAT_DEFAULT, Zero, None)], Some(0), Some(0), None)
  }

  lemma {:induction false} BuildSnoc(ctx: Context, events: seq<Event>, e: Event, autoConvert: bool)
    ensures Build(ctx, events + [e], autoConvert)
         == var o := Build(ctx, events, autoConvert); if o.Ok? then Act(o.ctx, e, autoConvert) else o
  {
    assert (events + [e])[..|events|] == events;
  }

  lemma {:induction false} BuildConcat(ctx: Context, a: seq<Event>, b: seq<Event>, autoConvert: bool)
    ensures Build(ctx, a + b, autoConvert)
         == var o := Build(ctx, a, autoConvert); if o.Ok? then Build(o.ctx, b, autoConvert) else o
    decreases |b|
  {
    if b == [] {
      assert a + b == a;
    } else {
      var front, e := b[..|b| - 1], b[|b| - 1];
      assert a + b == a + front + [e];
      BuildConcat(ctx, a, front, autoConvert);
      BuildSnoc(ctx, a + front, e, autoConvert);
    }
  }

  // ----- Pointers that are never null

  /** What a parser stack promises the actions: the brackets open, a setting named and not yet set, a text begun. */
  datatype Shape = Shape(open: seq<Bracket>, named: bool, text: bool)

  function Innermost(shape: Shape): Bracket {
    if shape.open == [] then GROUP else shape.open[|shape.open| - 1]
  }

  /** Whether an action can come when the shape is this. */
  predicate Expected(shape: Shape, event: Event) {
    match event
    case Named(t) => Innermost(shape) == GROUP && t.Name?
    case Open(b) => Innermost(shape) == LIST || (Innermost(shape) == GROUP && shape.named)
    case Close => shape.open != [] && !shape.named
    case Literal(t) => Innermost(shape) != GROUP || shape.named
    case Piece(t) => t.Str?
    case Text => shape.text && (Innermost(shape) != GROUP || shape.named)
  }

  function After(shape: Shape, event: Event): Shape {
    match event
    case Named(_) => shape.(named := true)
    case Open(b) => Shape(shape.open + [b], false, shape.text)
    case Close => if shape.open == [] then shape else shape.(open := shape.open[..|shape.open| - 1], named := false)
    case Literal(_) => shape.(named := false)
    case Piece(_) => shape.(text := true)
    case Text => shape.(named := false, text := false)
  }

  /** The parent pointer is as many levels below the root as brackets are open, each level of its bracket's type. */
  predicate Path(m: Memory, p: Option<nat>, open: seq<Bracket>)
    decreases |open|
  {
    && p.Some? && Live(m, p.value)
    && if open == [] then p.value == 0 && m[p.value].stype == TGROUP && m[p.value].parent == None
       else m[p.value].stype == BracketType(open[|open| - 1]) && Path(m, m[p.value].parent, open[..|open| - 1])
  }

  /** A setting that was named in the open group and has no value yet. */
  predicate Pending(m: Memory, s: Option<nat>, p: Option<nat>) {
    && s.Some? && Live(m, s.value) && m[s.value].stype == TNONE && m[s.value].value.Zero? && m[s.value].parent == p
    && m[s.value].format == CONFIG_FORMAT_DEFAULT
  }

  ghost predicate Follows(ctx: Context, shape: Shape) {
    && Invariant(ctx.memory) && Path(ctx.memory, ctx.parent, shape.open)
    && (shape.named ==> Innermost(shape) == GROUP && Pending(ctx.memory, ctx.setting, ctx.parent))
    && (shape.text <==> ctx.text.Some?)
  }

  /** A path survives changes that keep the type and parent of what is aggregate. */
  lemma {:induction false} PathKept(m: Memory, m': Memory, p: Option<nat>, open: seq<Bracket>)
    requires Path(m, p, open)
    requires forall i: nat :: Live(m, i) && IsAggregate(m[i].stype) ==>
      Live(m', i) && m'[i].stype == m[i].stype && m'[i].parent == m[i].parent
    ensures Path(m', p, open)
    decreases |open|
  {
    if open != [] {
      PathKept(m, m', m[p.value].parent, open[..|open| - 1]);
    }
  }

  lemma {:induction false} PathTop(ctx: Context, shape: Shape)
    requires Follows(ctx, shape)
    ensures ctx.parent.Some? && Live(ctx.memory, ctx.parent.value)
    ensures ctx.memory[ctx.parent.value].stype == BracketType(Innermost(shape))
  {
  }

  /** An added setting is new and blank, and the others keep their type and parent. */
  lemma {:induction false} Added(m: Memory, p: nat, name: Option<string>, t: SettingType)
    requires Live(m, p) && !FollowsNull(m, p, name) && Add(m, p, name, t).1.Some?
    ensures var r := Add(m, p, name, t);
            && r.1 == Some(|m|) && Live(r.0, |m|) && |r.0| == |m| + 1
            && r.0[|m|].stype == t && r.0[|m|].value.Zero? && r.0[|m|].parent == Some(p)
            && r.0[|m|].format == CONFIG_FORMAT_DEFAULT
            && forall i: nat :: Live(m, i) ==> Live(r.0, i) && r.0[i].stype == m[i].stype && r.0[i].parent == m[i].parent
  {
  }

  lemma {:induction false} FollowsNamed(ctx: Context, shape: Shape, m: Memory, s: Option<nat>, ctx': Context)
    requires Follows(ctx, shape) && Innermost(shape) == GROUP
    requires Invariant(m) && Path(m, ctx.parent, shape.open) && Pending(m, s, ctx.parent)
    requires ctx' == ctx.(memory := m, setting := s)
    ensures Follows(ctx', shape.(named := true))
  {
  }

  lemma {:induction false} NamedFollows(ctx: Context, shape: Shape, t: Token)
    requires Follows(ctx, shape) && Expected(shape, Named(t))
    ensures var o := ActNamed(ctx, t);
            o != Crash && (o.Ok? ==> Follows(o.ctx, After(shape, Named(t))))
  {
    PathTop(ctx, shape);
    var m, p := ctx.memory, ctx.parent.value;
    AddInvariant(m, p, Some(NameOf(t)), TNONE);
    var r := Add(m, p, Some(NameOf(t)), TNONE);
    if r.1.Some? {
      Added(m, p, Some(NameOf(t)), TNONE);
      PathKept(m, r.0, ctx.parent, shape.open);
      FollowsNamed(ctx, shape, r.0, r.1, ActNamed(ctx, t).ctx);
    }
  }

  lemma {:induction false} FollowsOpened(ctx: Context, shape: Shape, b: Bracket, m: Memory, p: nat, ctx': Context)
    requires Follows(ctx, shape) && Invariant(m) && Path(m, ctx.parent, shape.open)
    requires Live(m, p) && m[p].stype == BracketType(b) && m[p].parent == ctx.parent
    requires ctx'.memory == m && ctx'.parent == Some(p) && ctx'.text == ctx.text
    ensures Follows(ctx', After(shape, Open(b)))
  {
    assert (shape.open + [b])[..|shape.open|] == shape.open;
  }

  lemma {:induction false} OpenInListFollows(ctx: Context, shape: Shape, b: Bracket)
    requires Follows(ctx, shape) && Innermost(shape) == LIST
    ensures var o := ActOpen(ctx, b);
            o.Ok? && Follows(o.ctx, After(shape, Open(b)))
  {
    PathTop(ctx, shape);
    var m, p := ctx.memory, ctx.parent.value;
    AddInvariant(m, p, None, BracketType(b));
    Added(m, p, None, BracketType(b));
    var r := Add(m, p, None, BracketType(b));
    PathKept(m, r.0, ctx.parent, shape.open);
    FollowsOpened(ctx, shape, b, r.0, |m|, ActOpen(ctx, b).ctx);
  }

  lemma {:induction false} OpenInGroupFollows(ctx: Context, shape: Shape, b: Bracket)
    requires Follows(ctx, shape) && Innermost(shape) == GROUP && shape.named
    ensures var o := ActOpen(ctx, b);
            o.Ok? && Follows(o.ctx, After(shape, Open(b)))
  {
    PathTop(ctx, shape);
    var m, s := ctx.memory, ctx.setting.value;
    var m' := m[s := m[s].(stype := BracketType(b))];
    ResetInvariant(m, s, m[s].(stype := BracketType(b)), m');
    PathKept(m, m', ctx.parent, shape.open);
    FollowsOpened(ctx, shape, b, m', s, ActOpen(ctx, b).ctx);
  }

  lemma {:induction false} FormattedInvariant(m: Memory, s: nat, format: Option<int>)
    requires Invariant(m) && Live(m, s)
    ensures Invariant(Formatted(m, s, format))
  {
    assert Rooted(m, s);
    if format.Some? && SetFormat(m[s], format.value).Some? {
      ResetInvariant(m, s, SetFormat(m[s], format.value).value, Formatted(m, s, format));
    }
  }

  lemma {:induction false} FormattedKeeps(m: Memory, s: nat, format: Option<int>, i: nat)
    requires Live(m, s) && Live(m, i)
    ensures var m' := Formatted(m, s, format);
            Live(m', i) && m'[i].stype == m[i].stype && m'[i].parent == m[i].parent
  {
  }

  lemma {:induction false} AppendFollows(ctx: Context, shape: Shape, x: Scalar, format: Option<int>,
                                         autoConvert: bool)
    requires Follows(ctx, shape) && Innermost(shape) != GROUP && !shape.named
    ensures var o := PutScalar(ctx, x, format, autoConvert);
            o != Crash && (o.Ok? ==> Follows(o.ctx, shape))
  {
    PathTop(ctx, shape);
    var m, p := ctx.memory, ctx.parent.value;
    var r := SetElem(m, p, -1, x, autoConvert);
    SetElemInvariant(m, p, -1, x, autoConvert);
    if r.1.Some? {
      Appended(m, p, x, autoConvert);
      FormattedInvariant(r.0, r.1.value, format);
      var m' := Formatted(r.0, r.1.value, format);
      forall i: nat | Live(m, i) && IsAggregate(m[i].stype)
        ensures Live(m', i) && m'[i].stype == m[i].stype && m'[i].parent == m[i].parent
      {
        FormattedKeeps(r.0, r.1.value, format, i);
      }
      PathKept(m, m', ctx.parent, shape.open);
    }
  }

  lemma {:induction false} Appended(m: Memory, p: nat, x: Scalar, autoConvert: bool)
    requires Live(m, p) && IsVector(m[p].stype) && CheckType(m, p, TypeOf(x))
    ensures var r := SetElem(m, p, -1, x, autoConvert);
            && r.1 == Some(|m|) && |r.0| == |m| + 1 && Live(r.0, |m|)
            && forall i: nat :: Live(m, i) ==> Live(r.0, i) && r.0[i].stype == m[i].stype && r.0[i].parent == m[i].parent
  {
  }

  /** A blank setting takes any value; nothing else changes type or place. */
  lemma {:induction false} SetBlank(m: Memory, s: nat, x: Scalar, format: Option<int>, autoConvert: bool, m': Memory)
    requires Invariant(m) && Live(m, s) && m[s].stype == TNONE && SetScalar(m[s], x, autoConvert).Some?
    requires m' == Formatted(m[s := SetScalar(m[s], x, autoConvert).value], s, format)
    ensures Invariant(m')
    ensures forall i: nat :: Live(m, i) && IsAggregate(m[i].stype) ==>
      Live(m', i) && m'[i].stype == m[i].stype && m'[i].parent == m[i].parent
  {
    ChangeInvariant(m, s, x, autoConvert);
    var m1 := m[s := SetScalar(m[s], x, autoConvert).value];
    FormattedInvariant(m1, s, format);
    forall i: nat | Live(m, i) && IsAggregate(m[i].stype)
      ensures Live(m', i) && m'[i].stype == m[i].stype && m'[i].parent == m[i].parent
    {
      FormattedKeeps(m1, s, format, i);
    }
  }

  lemma {:induction false} SetPendingFollows(ctx: Context, shape: Shape, x: Scalar, format: Option<int>,
                                             autoConvert: bool)
    requires Follows(ctx, shape) && Innermost(shape) == GROUP && shape.named
    ensures var o := PutScalar(ctx, x, format, autoConvert);
            o.Ok? && Follows(o.ctx, shape.(named := false))
  {
    PathTop(ctx, shape);
    var m, s := ctx.memory, ctx.setting.value;
    PendingTakesAny(m[s], x, autoConvert);
    var m' := Formatted(m[s := SetScalar(m[s], x, autoConvert).value], s, format);
    SetBlank(m, s, x, format, autoConvert, m');
    PathKept(m, m', ctx.parent, shape.open);
    assert PutScalar(ctx, x, format, autoConvert) == Ok(ctx.(memory := m'));
  }

  lemma {:induction false} PendingTakesAny(s: Setting, x: Scalar, autoConvert: bool)
    requires s.Setting? && s.stype == TNONE
    ensures SetScalar(s, x, autoConvert).Some? && SetScalar(s, x, autoConvert).value.Setting?
  {
  }

  lemma {:induction false} CloseFollows(ctx: Context, shape: Shape)
    requires Follows(ctx, shape) && Expected(shape, Close)
    ensures var o := ActClose(ctx);
            o.Ok? && Follows(o.ctx, After(shape, Close))
  {
    PathTop(ctx, shape);
  }

  lemma {:induction false} TextFollows(ctx: Context, shape: Shape, autoConvert: bool)
    requires Follows(ctx, shape) && Expected(shape, Text) && (shape.named ==> Innermost(shape) == GROUP)
    ensures var o := PutScalar(ctx.(text := None), AString(ctx.text), None, autoConvert);
            o != Crash && (o.Ok? ==> Follows(o.ctx, After(shape, Text)))
  {
    var begun, plain := ctx.(text := None), shape.(text := false);
    assert Follows(begun, plain);
    if Innermost(shape) == GROUP {
      SetPendingFollows(begun, plain, AString(ctx.text), None, autoConvert);
    } else {
      AppendFollows(begun, plain, AString(ctx.text), None, autoConvert);
    }
  }

  /** What an action that succeeds or aborts leaves behind. */
  ghost predicate Leaves(o: Outcome, shape: Shape) {
    o != Crash && (o.Ok? ==> Follows(o.ctx, shape))
  }

  lemma {:induction false} PointerActFollows(ctx: Context, shape: Shape, event: Event, o: Outcome)
    requires Follows(ctx, shape) && Expected(shape, event) && (event.Named? || event.Open? || event.Close?)
    requires o == Act(ctx, event, false)
    ensures Leaves(o, After(shape, event))
  {
    match event
    case Named(t) => NamedFollows(ctx, shape, t);
    case Open(b) =>
      if Innermost(shape) == LIST {
        OpenInListFollows(ctx, shape, b);
      } else {
        OpenInGroupFollows(ctx, shape, b);
      }
    case Close => CloseFollows(ctx, shape);
  }

  lemma {:induction false} ValueActFollows(ctx: Context, shape: Shape, event: Event, autoConvert: bool, o: Outcome)
    requires Follows(ctx, shape) && Expected(shape, event) && (event.Literal? || event.Piece? || event.Text?)
    requires o == Act(ctx, event, autoConvert)
    ensures Leaves(o, After(shape, event))
  {
    match event
    case Literal(t) =>
      if Innermost(shape) == GROUP {
        SetPendingFollows(ctx, shape, ScalarOf(t), FormatOf(t), autoConvert);
      } else {
        AppendFollows(ctx, shape, ScalarOf(t), FormatOf(t), autoConvert);
      }
    case Piece(t) =>
    case Text => TextFollows(ctx, shape, autoConvert);
  }

  /** Actions that come when they are expected follow no null or dangling pointer, and keep memory in shape. */
  lemma {:induction false} ActFollows(ctx: Context, shape: Shape, event: Event, autoConvert: bool)
    requires Follows(ctx, shape) && Expected(shape, event)
    ensures Leaves(Act(ctx, event, autoConvert), After(shape, event))
  {
    var o := Act(ctx, event, autoConvert);
    if event.Named? || event.Open? || event.Close? {
      PointerActFollows(ctx, shape, event, o);
    } else {
      ValueActFollows(ctx, shape, event, autoConvert, o);
    }
  }
}
