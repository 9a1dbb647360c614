/** The parser's stack tells what its actions rely on: on no input do they follow a null pointer. */
module ConfigSafety {
  import opened ConfigTokens
  import opened ConfigTables
  import opened ConfigAutomaton
  import opened ConfigParser
  import opened ConfigInvariant
  import opened ConfigBuilder
  import opened Options

  predicate IsBracket(q: int) { q == 25 || q == 26 || q == 27 }

  function BracketOf(q: int): Bracket {
    if q == 25 then ARRAY else if q == 26 then LIST else GROUP
  }

  /** The brackets open on the stack. */
  function Brackets(stack: seq<Entry>): seq<Bracket> {
    if stack == [] then []
    else
      var below := Brackets(stack[..|stack| - 1]);
      if IsBracket(Top(stack).state) then below + [BracketOf(Top(stack).state)] else below
  }

  predicate IsNamed(stack: seq<Entry>)
    requires stack != []
  {
    var q := Below(stack, 0);
    || q == 5 || q == 8
    || (|stack| > 1 && Below(stack, 1) == 8 && (9 <= q <= 18 || q == 22))
    || (|stack| > 2 && Below(stack, 2) == 8 && q == 31)
  }

  function ShapeOf(stack: seq<Entry>): Shape
    requires stack != []
  {
    Shape(Brackets(stack), IsNamed(stack), Below(stack, 0) == 22 || Below(stack, 0) == 31)
  }

  lemma {:induction false} BracketsPushed(stack: seq<Entry>, e: Entry)
    ensures Brackets(stack + [e]) == if IsBracket(e.state) then Brackets(stack) + [BracketOf(e.state)] else Brackets(stack)
  {
    assert (stack + [e])[..|stack|] == stack;
  }

  lemma {:induction false} BracketsPopped(stack: seq<Entry>, n: nat)
    requires n <= |stack| && forall i: nat :: i < n ==> !IsBracket(Below(stack, i))
    ensures Brackets(stack[..|stack| - n]) == Brackets(stack)
    decreases n
  {
    if n == 0 {
      assert stack[..|stack|] == stack;
    } else {
      var front := stack[..|stack| - 1];
      assert !IsBracket(Below(stack, 0));
      forall i: nat | i < n - 1
        ensures !IsBracket(Below(front, i))
      {
        assert Below(front, i) == Below(stack, i + 1);
      }
      BracketsPopped(front, n - 1);
      assert front[..|front| - (n - 1)] == stack[..|stack| - n];
    }
  }

  /** The stack down to the state n steps below the top. */
  function DownTo(stack: seq<Entry>, n: nat): seq<Entry>
    requires n < |stack|
  {
    stack[..|stack| - n]
  }

  lemma {:induction false} DownToBelow(stack: seq<Entry>, n: nat, i: nat)
    requires n < |stack| && i < |stack| - n
    ensures DownTo(stack, n) != [] && Below(DownTo(stack, n), i) == Below(stack, n + i)
  {
  }

  /** What is open when a state is on top. */
  predicate InnermostIs(q: int, b: Bracket) {
    if q == 25 || q == 33 || q == 34 || q == 40 then b == ARRAY
    else if q == 26 || q == 36 || q == 37 || q == 42 then b == LIST
    else (q == 1 || q == 5 || q == 8 || SettingState(q) || q == 39) ==> b == GROUP
  }

  /** No bracket lies between a state that follows a bracket's contents and the bracket. */
  lemma {:induction false} InnermostOpen(stack: seq<Entry>)
    requires OnPath(stack)
    ensures InnermostIs(Below(stack, 0), Innermost(Shape(Brackets(stack), false, false)))
    decreases |stack|
  {
    var q := Below(stack, 0);
    assert EntryAt(stack, |stack| - 1);
    if q == 0 {
      assert |stack| == 1;
      assert Brackets(stack[..0]) == [];
    } else if !IsBracket(q) && (q == 1 || q == 5 || q == 8 || q == 3 || q == 33 || q == 34 || q == 36 || q == 37
                                || q == 38 || q == 39 || q == 40 || q == 42) {
      PathBelow(stack, 0);
      PathPopped(stack, 1);
      InnermostOpen(stack[..|stack| - 1]);
      DownToBelow(stack, 1, 0);
    }
  }

  // ----- What each turn does to the shape

  lemma {:induction false} UnderTop(stack: seq<Entry>)
    requires OnPath(stack) && Below(stack, 0) != 0
    ensures |stack| > 1 && Edge(Below(stack, 1), Below(stack, 0))
    ensures InnermostIs(Below(stack, 1), Innermost(Shape(Brackets(stack[..|stack| - 1]), false, false)))
    ensures Brackets(stack) == if IsBracket(Below(stack, 0)) then Brackets(stack[..|stack| - 1]) + [BracketOf(Below(stack, 0))]
                               else Brackets(stack[..|stack| - 1])
  {
    PathBelow(stack, 0);
    PathPopped(stack, 1);
    InnermostOpen(stack[..|stack| - 1]);
    DownToBelow(stack, 1, 0);
  }

  lemma {:induction false} ShiftShape(stack: seq<Entry>, e: Entry, k: nat)
    requires OnPath(stack) && k <= 22 && Next(Below(stack, 0), k) == e.state && Below(stack, 0) <= 46
    ensures ShapeOf(stack + [e]) == ShapeOf(stack)
  {
    BracketsPushed(stack, e);
    var longer := stack + [e];
    assert Below(longer, 0) == e.state && Below(longer, 1) == Below(stack, 0);
    if |stack| > 1 {
      assert Below(longer, 2) == Below(stack, 1);
    }
    if Below(stack, 0) != 0 {
      PathBelow(stack, 0);
    }
  }

  /** The stack after a reduction. */
  predicate Reduced(stack: seq<Entry>, n: nat, g: nat, stack': seq<Entry>) {
    n < |stack| && |stack'| == |stack| - n + 1 && stack'[..|stack'| - 1] == stack[..|stack| - n] && Top(stack').state == g
  }

  lemma {:induction false} ReducedBrackets(stack: seq<Entry>, n: nat, g: nat, stack': seq<Entry>)
    requires Reduced(stack, n, g, stack') && forall i: nat :: i < n ==> !IsBracket(Below(stack, i))
    ensures Brackets(stack') == if IsBracket(g) then Brackets(stack) + [BracketOf(g)] else Brackets(stack)
    ensures Below(stack', 0) == g && Below(stack', 1) == Below(stack, n)
  {
    BracketsPopped(stack, n);
    assert stack[|stack| - n - 1] == stack[..|stack| - n][|stack| - n - 1];
    assert stack'[|stack'| - 2] == stack'[..|stack'| - 1][|stack'| - 2];
  }

  /** The rules without an action that uses the context. */
  predicate Quiet(r: int) {
    2 <= r <= 10 || r == 12 || 17 <= r <= 20 || 30 <= r <= 37
  }

  lemma {:induction false} QuietTop(q: nat)
    requires q <= 46 && Yydefact(q) != 0 && Quiet(Yydefact(q))
    ensures q != 5 && q != 8 && !(9 <= q <= 18) && q != 22 && q != 31
  {
  }

  lemma {:induction false} QuietPops(stack: seq<Entry>, i: nat)
    requires OnPath(stack) && Below(stack, 0) != YYFINAL && Below(stack, 0) <= 46
    requires Yydefact(Below(stack, 0)) != 0 && Quiet(Yydefact(Below(stack, 0))) && i < Yyr2(Yydefact(Below(stack, 0)))
    requires OnStack(stack, Yydefact(Below(stack, 0)))
    ensures !IsBracket(Below(stack, i))
  {
    var r := Yydefact(Below(stack, 0));
    assert Yystos(Below(stack, |Rhs(r)| - 1 - (|Rhs(r)| - 1 - i))) == Rhs(r)[|Rhs(r)| - 1 - i];
    BracketSymbols(Below(stack, i));
  }

  lemma {:induction false} BracketSymbols(q: nat)
    ensures IsBracket(q) <==> Yystos(q) == 31 || Yystos(q) == 33 || Yystos(q) == 42
  {
  }

  lemma {:induction false} QuietShape(stack: seq<Entry>, g: nat, stack': seq<Entry>)
    requires OnPath(stack) && Below(stack, 0) != YYFINAL && Below(stack, 0) <= 46 && Yydefact(Below(stack, 0)) != 0
    requires Quiet(Yydefact(Below(stack, 0))) && OnStack(stack, Yydefact(Below(stack, 0)))
    requires var r := Yydefact(Below(stack, 0));
             Reduced(stack, Yyr2(r), g, stack') && g == Reached(Below(stack, Yyr2(r)), Yyr1(r))
    ensures ShapeOf(stack') == ShapeOf(stack)
  {
    var q := Below(stack, 0);
    var r := Yydefact(q);
    forall i: nat | i < Yyr2(r)
      ensures !IsBracket(Below(stack, i))
    {
      QuietPops(stack, i);
    }
    ReducedBrackets(stack, Yyr2(r), g, stack');
    QuietTop(q);
    QuietGoes(r, Below(stack, Yyr2(r)));
  }

  lemma {:induction false} QuietGoes(r: nat, p: nat)
    requires Quiet(r) && MayBegin(p, Yyr1(r))
    ensures var g := Reached(p, Yyr1(r));
            !IsBracket(g) && g != 5 && g != 8 && !(9 <= g <= 18) && g != 22 && g != 31
  {
  }

  lemma {:induction false} NamedShape(stack: seq<Entry>, stack': seq<Entry>)
    requires OnPath(stack) && Below(stack, 0) == 1 && Reduced(stack, 0, 5, stack')
    ensures Expected(ShapeOf(stack), Named(Top(stack).value))
    ensures ShapeOf(stack') == After(ShapeOf(stack), Named(Top(stack).value))
  {
    ReducedBrackets(stack, 0, 5, stack');
    InnermostOpen(stack);
    assert EntryAt(stack, |stack| - 1);
    PathBelow(stack, 0);
  }

  lemma {:induction false} OpenShape(stack: seq<Entry>, g: nat, stack': seq<Entry>)
    requires OnPath(stack) && 16 <= Below(stack, 0) <= 18 && g == Below(stack, 0) + 9 && Reduced(stack, 0, g, stack')
    ensures Expected(ShapeOf(stack), Open(BracketOf(g)))
    ensures ShapeOf(stack') == After(ShapeOf(stack), Open(BracketOf(g)))
  {
    ReducedBrackets(stack, 0, g, stack');
    UnderTop(stack);
    PathBelow(stack, 0);
    if Below(stack, 1) != 8 && Below(stack, 1) != 0 {
      PathBelow(stack, 1);
    }
  }

  lemma {:induction false} ScalarShape(stack: seq<Entry>, g: nat, stack': seq<Entry>)
    requires OnPath(stack) && 9 <= Below(stack, 0) <= 14 && Reduced(stack, 1, g, stack') && (g == 23 || g == 32 || g == 45)
    ensures Expected(ShapeOf(stack), Literal(Top(stack).value))
    ensures ShapeOf(stack') == After(ShapeOf(stack), Literal(Top(stack).value))
  {
    ReducedBrackets(stack, 1, g, stack');
    UnderTop(stack);
  }

  lemma {:induction false} PieceShape(stack: seq<Entry>, stack': seq<Entry>)
    requires OnPath(stack) && ((Below(stack, 0) == 15 && Reduced(stack, 1, 22, stack')) || (Below(stack, 0) == 31 && Reduced(stack, 2, 22, stack')))
    ensures Expected(ShapeOf(stack), Piece(Top(stack).value))
    ensures ShapeOf(stack') == After(ShapeOf(stack), Piece(Top(stack).value))
  {
    assert EntryAt(stack, |stack| - 1);
    PathBelow(stack, 0);
    if Below(stack, 0) == 15 {
      ReducedBrackets(stack, 1, 22, stack');
    } else {
      PathBelow(stack, 1);
      ReducedBrackets(stack, 2, 22, stack');
    }
  }

  lemma {:induction false} TextShape(stack: seq<Entry>, g: nat, stack': seq<Entry>)
    requires OnPath(stack) && Below(stack, 0) == 22 && Reduced(stack, 1, g, stack') && (g == 23 || g == 32 || g == 45)
    ensures Expected(ShapeOf(stack), Text) && ShapeOf(stack') == After(ShapeOf(stack), Text)
  {
    ReducedBrackets(stack, 1, g, stack');
    UnderTop(stack);
  }

  lemma {:induction false} CloseShape(stack: seq<Entry>, g: nat, stack': seq<Entry>)
    requires OnPath(stack) && (Below(stack, 0) == 41 || Below(stack, 0) == 43 || Below(stack, 0) == 44)
    requires Reduced(stack, 4, g, stack') && (g == 19 || g == 20 || g == 24)
    ensures Expected(ShapeOf(stack), Close) && ShapeOf(stack') == After(ShapeOf(stack), Close)
  {
    var q := Below(stack, 0);
    BracketBelow(stack, q);
    var two, three := stack[..|stack| - 2], stack[..|stack| - 3];
    BracketsPopped(stack, 2);
    assert two[..|two| - 1] == three && Top(two).state == Below(stack, 2);
    BracketsPopped(three, 1);
    assert three[..|three| - 1] == stack[..|stack| - 4] == stack'[..|stack'| - 1];
    assert Below(three, 0) == Below(stack, 3);
    BracketsPushed(stack'[..|stack'| - 1], Top(stack'));
    assert stack' == stack'[..|stack'| - 1] + [Top(stack')];
    assert Below(stack', 0) == g && Below(stack', 1) == Below(stack, 4);
    assert (Brackets(three) + [BracketOf(Below(stack, 2))])[..|Brackets(three)|] == Brackets(three);
  }

  /** The context follows the stack. */
  ghost predicate InStep(c: Parser, autoConvert: bool)
  {
    var o := Build(Fresh(), c.events, autoConvert);
    c.stack != [] && o != Crash && (o.Ok? ==> Follows(o.ctx, ShapeOf(c.stack)))
  }

  lemma {:induction false} QuietStep(c: Parser, autoConvert: bool, d: Parser)
    requires d.stack != [] && InStep(c, autoConvert)
    requires d.events == c.events && ShapeOf(d.stack) == ShapeOf(c.stack)
    ensures InStep(d, autoConvert)
  {
  }

  lemma {:induction false} ActionStep(c: Parser, autoConvert: bool, d: Parser, e: Event)
    requires d.stack != [] && InStep(c, autoConvert) && d.events == c.events + [e]
    requires Expected(ShapeOf(c.stack), e) && ShapeOf(d.stack) == After(ShapeOf(c.stack), e)
    ensures InStep(d, autoConvert)
  {
    BuildSnoc(Fresh(), c.events, e, autoConvert);
    var o := Build(Fresh(), c.events, autoConvert);
    if o.Ok? {
      ActFollows(o.ctx, ShapeOf(c.stack), e, autoConvert);
    }
  }

  lemma {:induction false} ReduceInStep(c: Parser, autoConvert: bool)
    requires Sound(c) && c.status == Running && InStep(c, autoConvert)
    requires Yydefact(Top(c.stack).state) != 0 && OnStack(c.stack, Yydefact(Top(c.stack).state))
    ensures InStep(ReduceBy(c, Yydefact(Top(c.stack).state)), autoConvert)
  {
    var q := Below(c.stack, 0);
    var r := Yydefact(q);
    var n := Yyr2(r);
    var p := Below(c.stack, n);
    StateBound(c.stack);
    GotoEdge(p, Yyr1(r));
    var g := Reached(p, Yyr1(r));
    var d := ReduceBy(c, r);
    assert Reduced(c.stack, n, g, d.stack);
    if Quiet(r) {
      QuietShape(c.stack, g, d.stack);
      assert ActionOf(r, Top(c.stack).value) == [];
      assert d.events == c.events;
      QuietStep(c, autoConvert, d);
    } else {
      ActiveReduce(c, autoConvert, q, r, g, d);
    }
  }

  lemma {:induction false} ActiveReduce(c: Parser, autoConvert: bool, q: nat, r: nat, g: nat, d: Parser)
    requires Sound(c) && c.status == Running && InStep(c, autoConvert) && d.stack != []
    requires q == Below(c.stack, 0) <= 46 && q != YYFINAL && r == Yydefact(q) != 0 && !Quiet(r)
    requires Yyr2(r) < |c.stack| && MayBegin(Below(c.stack, Yyr2(r)), Yyr1(r))
    requires g == Reached(Below(c.stack, Yyr2(r)), Yyr1(r)) && Reduced(c.stack, Yyr2(r), g, d.stack)
    requires d.events == c.events + ActionOf(r, Top(c.stack).value)
    ensures InStep(d, autoConvert)
  {
    var v := Top(c.stack).value;
    if q == 1 {
      NamedShape(c.stack, d.stack);
      ActionStep(c, autoConvert, d, Named(v));
    } else if 16 <= q <= 18 {
      OpenShape(c.stack, g, d.stack);
      ActionStep(c, autoConvert, d, Open(BracketOf(g)));
    } else if 9 <= q <= 14 {
      ScalarShape(c.stack, g, d.stack);
      ActionStep(c, autoConvert, d, Literal(v));
    } else if q == 15 || q == 31 {
      PieceShape(c.stack, d.stack);
      ActionStep(c, autoConvert, d, Piece(v));
    } else if q == 22 {
      TextShape(c.stack, g, d.stack);
      ActionStep(c, autoConvert, d, Text);
    } else {
      CloseShape(c.stack, g, d.stack);
      ActionStep(c, autoConvert, d, Close);
    }
  }

  lemma {:induction false} StepInStep(c: Parser, autoConvert: bool)
    requires Sound(c) && c.status == Running && InStep(c, autoConvert)
    ensures InStep(Step(c), autoConvert)
  {
    var q, k := Top(c.stack).state, Lookahead(c.input);
    StateBound(c.stack);
    match Decide(q, k)
    case Shift(state) =>
      DecideIsNext(q, k);
      var d := ShiftToken(c, state);
      ShiftShape(c.stack, Top(d.stack), k);
      assert d.stack == c.stack + [Top(d.stack)];
      QuietStep(c, autoConvert, d);
    case Reduce(rule) =>
      RuleDecided(q, k, rule);
      RuleOnStack(c.stack);
      ReduceInStep(c, autoConvert);
    case Fail =>
  }

  lemma {:induction false} RunInStep(c: Parser, autoConvert: bool)
    requires Sound(c) && InStep(c, autoConvert)
    ensures InStep(Run(c), autoConvert)
    decreases |c.input|, if c.status == Running then 1 + Rank(Top(c.stack).state) else 0
  {
    if c.status == Running {
      StepSound(c);
      StepInStep(c, autoConvert);
      RunInStep(Step(c), autoConvert);
    }
  }

  lemma {:induction false} FreshFollows(autoConvert: bool, tokens: seq<Token>)
    ensures InStep(Initial(tokens), autoConvert)
  {
    var stack := Initial(tokens).stack;
    assert stack[..0] == [];
    assert Brackets(stack) == [];
  }

  /**
   * On no input does the parser follow a null or dangling pointer; the parent pointer is always as deep below the root
   * as brackets are open, and back at the root when the input is accepted.
   */
  lemma {:induction false} NoNullPointer(tokens: seq<Token>, autoConvert: bool)
    ensures var c := Parse(tokens);
            var o := Build(Fresh(), c.events, autoConvert);
            && o != Crash
            && (o.Ok? ==> Invariant(o.ctx.memory) && Path(o.ctx.memory, o.ctx.parent, Brackets(c.stack)))
            && (o.Ok? && c.status == Accepted ==> o.ctx.parent == Some(0))
  {
    FreshFollows(autoConvert, tokens);
    RunInStep(Initial(tokens), autoConvert);
    var c := Parse(tokens);
    RunSound(Initial(tokens));
    if c.status == Accepted {
      AcceptedBrackets(c.stack);
    }
  }

  lemma {:induction false} RunSound(c: Parser)
    requires Sound(c) && (c.status == Accepted ==> Top(c.stack).state == YYFINAL)
    ensures Sound(Run(c)) && (Run(c).status == Accepted ==> Top(Run(c).stack).state == YYFINAL)
    decreases |c.input|, if c.status == Running then 1 + Rank(Top(c.stack).state) else 0
  {
    if c.status == Running {
      StepSound(c);
      RunSound(Step(c));
    }
  }

  lemma {:induction false} AcceptedBrackets(stack: seq<Entry>)
    requires OnPath(stack) && Top(stack).state == YYFINAL
    ensures Brackets(stack) == []
  {
    PathBelow(stack, 0);
    PathBelow(stack, 1);
    assert EntryAt(stack, |stack| - 3);
    assert Below(stack, 2) == 0;
    assert |stack| == 3;
    BracketsPopped(stack, 3);
  }
}
