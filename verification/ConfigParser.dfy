/** The shift-reduce loop: a stack of states and values, driven by the tables, with the semantic actions as events. */
module ConfigParser {
  import opened ConfigTokens
  import opened ConfigTables
  import opened ConfigAutomaton

  const YYMAXDEPTH := 10000

  datatype Bracket = ARRAY | LIST | GROUP

  /** A semantic action with the token values it uses. */
  datatype Event =
    | Named(token: Token)
    | Open(bracket: Bracket)
    | Close
    | Literal(token: Token)
    | Piece(token: Token)
    | Text

  datatype Entry = Entry(state: nat, value: Token)

  datatype Status = Running | Accepted | SyntaxError | Exhausted

  datatype Parser = Parser(stack: seq<Entry>, input: seq<Token>, events: seq<Event>, status: Status)

  function Top(stack: seq<Entry>): Entry
    requires stack != []
  {
    stack[|stack| - 1]
  }

  /** The action of a rule, where v is the value on the top of the stack. */
  function ActionOf(rule: int, v: Token): seq<Event> {
    match rule
    case 11 => [Named(v)]
    case 13 => [Open(ARRAY)]
    case 14 => [Close]
    case 15 => [Open(LIST)]
    case 16 => [Close]
    case 21 => [Piece(v)]
    case 22 => [Piece(v)]
    case 29 => [Text]
    case 38 => [Open(GROUP)]
    case 39 => [Close]
    case _ => if 23 <= rule <= 28 then [Literal(v)] else []
  }

  /** Pushing a state: the stack may be full, and the final state accepts. */
  function Push(stack: seq<Entry>, state: nat, value: Token, input: seq<Token>, events: seq<Event>): Parser {
    Parser(stack + [Entry(state, value)], input, events,
           if |stack| + 1 >= YYMAXDEPTH then Exhausted else if state == YYFINAL then Accepted else Running)
  }

  // ----- The shape of the stack

  /** The states that are entered by shifting a token whose value is used. */
  predicate TokenState(q: int) {
    q == 1 || 9 <= q <= 15 || q == 31
  }

  predicate EntryAt(stack: seq<Entry>, i: nat)
    requires i < |stack|
  {
    && stack[i].state <= 46
    && (if i == 0 then stack[i].state == 0 else Edge(stack[i - 1].state, stack[i].state))
    && (TokenState(stack[i].state) ==> Kind(stack[i].value) == Yystos(stack[i].state))
  }

  /** The states on the stack are a path through the automaton, with the tokens that lead into them. */
  predicate OnPath(stack: seq<Entry>) {
    stack != [] && forall i: nat :: i < |stack| ==> EntryAt(stack, i)
  }

  /** State p steps below the top. */
  function Below(stack: seq<Entry>, n: nat): nat
    requires n < |stack|
  {
    stack[|stack| - 1 - n].state
  }

  lemma {:induction false} PathBelow(stack: seq<Entry>, n: nat)
    requires OnPath(stack) && n < |stack| && Below(stack, n) != 0
    ensures n + 1 < |stack| && Edge(Below(stack, n + 1), Below(stack, n)) && Below(stack, n + 1) <= 46
  {
    assert EntryAt(stack, |stack| - 1 - n);
    assert n + 1 < |stack| ==> EntryAt(stack, |stack| - 2 - n);
  }

  /** The symbols of the topmost states. */
  predicate TopSymbols(stack: seq<Entry>, symbols: seq<int>)
    requires |symbols| < |stack|
  {
    forall i :: 0 <= i < |symbols| ==> Yystos(Below(stack, |symbols| - 1 - i)) == symbols[i]
  }

  /** A rule has its right-hand side on the stack, on a state where its left-hand side begins. */
  predicate OnStack(stack: seq<Entry>, rule: nat) {
    && Yyr2(rule) == |Rhs(rule)| < |stack| && TopSymbols(stack, Rhs(rule))
    && Below(stack, Yyr2(rule)) <= 46 && MayBegin(Below(stack, Yyr2(rule)), Yyr1(rule))
  }

  lemma {:induction false} EmptyRuleOnStack(stack: seq<Entry>, q: nat)
    requires OnPath(stack) && q == Below(stack, 0) && q <= 46 && Yydefact(q) != 0 && Yyr2(Yydefact(q)) == 0
    ensures OnStack(stack, Yydefact(q))
  {
    if q != 0 {
      PathBelow(stack, 0);
    }
  }

  lemma {:induction false} UnitRuleBelow(q: nat, p: nat)
    requires q <= 46 && Edge(p, q) && Yydefact(q) != 0 && Yyr2(Yydefact(q)) == 1
    ensures Rhs(Yydefact(q)) == [Yystos(q)] && MayBegin(p, Yyr1(Yydefact(q)))
  {
  }

  lemma {:induction false} UnitRuleOnStack(stack: seq<Entry>, q: nat)
    requires OnPath(stack) && q == Below(stack, 0) && q <= 46 && Yydefact(q) != 0 && Yyr2(Yydefact(q)) == 1
    ensures OnStack(stack, Yydefact(q))
  {
    RuleLength(Yydefact(q));
    PathBelow(stack, 0);
    UnitRuleBelow(q, Below(stack, 1));
  }

  lemma {:induction false} RuleLength(r: nat)
    requires 1 <= r <= 39
    ensures Yyr2(r) == |Rhs(r)|
  {
  }

  lemma {:induction false} PairOnStack(stack: seq<Entry>, q: nat)
    requires OnPath(stack) && q == Below(stack, 0) && (q == 7 || q == 31)
    ensures OnStack(stack, Yydefact(q))
  {
    PathBelow(stack, 0);
    if Below(stack, 1) != 0 {
      PathBelow(stack, 1);
    }
  }

  lemma {:induction false} TripleOnStack(stack: seq<Entry>, q: nat)
    requires OnPath(stack) && q == Below(stack, 0) && (q == 45 || q == 46)
    ensures OnStack(stack, Yydefact(q))
  {
    PathBelow(stack, 0);
    PathBelow(stack, 1);
    PathBelow(stack, 2);
  }

  lemma {:induction false} BracketBelow(stack: seq<Entry>, q: nat)
    requires OnPath(stack) && q == Below(stack, 0) && (q == 41 || q == 43 || q == 44)
    ensures 4 < |stack| && Below(stack, 1) == (if q == 41 then 34 else if q == 43 then 37 else 39)
    ensures Below(stack, 2) == (if q == 41 then 25 else if q == 43 then 26 else 27)
    ensures Below(stack, 3) == (if q == 41 then 16 else if q == 43 then 17 else 18) && ValueState(Below(stack, 4))
    ensures Below(stack, 4) <= 46
  {
    PathBelow(stack, 0);
    PathBelow(stack, 1);
    PathBelow(stack, 2);
    PathBelow(stack, 3);
  }

  lemma {:induction false} FourSymbols(stack: seq<Entry>, symbols: seq<int>)
    requires |symbols| == 4 < |stack|
    requires Yystos(Below(stack, 3)) == symbols[0] && Yystos(Below(stack, 2)) == symbols[1]
    requires Yystos(Below(stack, 1)) == symbols[2] && Yystos(Below(stack, 0)) == symbols[3]
    ensures TopSymbols(stack, symbols)
  {
  }

  lemma {:induction false} BracketOnStack(stack: seq<Entry>, q: nat)
    requires OnPath(stack) && q == Below(stack, 0) && (q == 41 || q == 43 || q == 44)
    ensures OnStack(stack, Yydefact(q))
  {
    BracketBelow(stack, q);
    if q == 41 {
      FourSymbols(stack, [ARRAY_START, 31, 40, ARRAY_END]);
    } else if q == 43 {
      FourSymbols(stack, [LIST_START, 33, 38, LIST_END]);
    } else {
      FourSymbols(stack, [GROUP_START, 42, 26, GROUP_END]);
    }
  }

  lemma {:induction false} SettingOnStack(stack: seq<Entry>)
    requires OnPath(stack) && Below(stack, 0) == 30
    ensures OnStack(stack, 12)
  {
    PathBelow(stack, 0);
    PathBelow(stack, 1);
    PathBelow(stack, 2);
    PathBelow(stack, 3);
    PathBelow(stack, 4);
  }

  lemma {:induction false} RuleOnStack(stack: seq<Entry>)
    requires OnPath(stack) && Top(stack).state != YYFINAL && Yydefact(Top(stack).state) != 0
    ensures OnStack(stack, Yydefact(Top(stack).state))
  {
    var q := Below(stack, 0);
    assert EntryAt(stack, |stack| - 1);
    if q == 7 || q == 31 {
      PairOnStack(stack, q);
    } else if q == 45 || q == 46 {
      TripleOnStack(stack, q);
    } else if q == 41 || q == 43 || q == 44 {
      BracketOnStack(stack, q);
    } else if q == 30 {
      SettingOnStack(stack);
    } else if Yyr2(Yydefact(q)) == 0 {
      EmptyRuleOnStack(stack, q);
    } else {
      UnitRuleOnStack(stack, q);
    }
  }

  // ----- One turn of the loop

  predicate Sound(c: Parser) {
    OnPath(c.stack) && (c.status == Running ==> Top(c.stack).state != YYFINAL)
  }

  function ShiftToken(c: Parser, state: nat): Parser {
    if c.input == [] then Push(c.stack, state, Garbage, [], c.events)
    else Push(c.stack, state, c.input[0], c.input[1..], c.events)
  }

  /** A reduction: its action on the values, its right-hand side popped, its left-hand side pushed. */
  function ReduceBy(c: Parser, rule: nat): Parser
    requires OnPath(c.stack) && OnStack(c.stack, rule)
  {
    var n := Yyr2(rule);
    var rest := c.stack[..|c.stack| - n];
    var value := if n == 0 then Garbage else c.stack[|c.stack| - n].value;
    GotoEdge(Below(c.stack, n), Yyr1(rule));
    Push(rest, Goto(Top(rest).state, Yyr1(rule)), value, c.input, c.events + ActionOf(rule, Top(c.stack).value))
  }

  function Step(c: Parser): Parser
    requires Sound(c) && c.status == Running
  {
    var q := Top(c.stack).state;
    StateBound(c.stack);
    match Decide(q, Lookahead(c.input))
    case Shift(state) => ShiftToken(c, state)
    case Reduce(rule) =>
      RuleDecided(q, Lookahead(c.input), rule);
      RuleOnStack(c.stack);
      ReduceBy(c, rule)
    case Fail => c.(status := SyntaxError)
  }

  lemma {:induction false} StateBound(stack: seq<Entry>)
    requires OnPath(stack)
    ensures Top(stack).state <= 46
  {
    assert EntryAt(stack, |stack| - 1);
  }

  lemma {:induction false} RuleDecided(q: nat, k: nat, rule: nat)
    requires q <= 46 && k <= 22 && Decide(q, k) == Reduce(rule)
    ensures rule == Yydefact(q) != 0
  {
    DecideIsNext(q, k);
  }

  lemma {:induction false} PathPushed(stack: seq<Entry>, e: Entry)
    requires OnPath(stack) && e.state <= 46 && Edge(Top(stack).state, e.state)
    requires TokenState(e.state) ==> Kind(e.value) == Yystos(e.state)
    ensures OnPath(stack + [e])
  {
    var longer := stack + [e];
    forall i: nat | i < |longer|
      ensures EntryAt(longer, i)
    {
      if i < |stack| {
        assert EntryAt(stack, i);
      }
    }
  }

  lemma {:induction false} PathPopped(stack: seq<Entry>, n: nat)
    requires OnPath(stack) && n < |stack|
    ensures OnPath(stack[..|stack| - n])
  {
    var rest := stack[..|stack| - n];
    forall i: nat | i < |rest|
      ensures EntryAt(rest, i)
    {
      assert EntryAt(stack, i);
    }
  }

  lemma {:induction false} ShiftSound(c: Parser, state: nat)
    requires Sound(c) && c.status == Running && Decide(Top(c.stack).state, Lookahead(c.input)) == Shift(state)
    ensures var d := ShiftToken(c, state);
            && Sound(d) && d.events == c.events
            && (d.status == Running ==> c.input != [] && d.input == c.input[1..])
  {
    var q, k := Top(c.stack).state, Lookahead(c.input);
    StateBound(c.stack);
    DecideIsNext(q, k);
    ShiftEdge(q, k);
    PathPushed(c.stack, Entry(state, if c.input == [] then Garbage else c.input[0]));
  }

  lemma {:induction false} ReduceSound(c: Parser)
    requires Sound(c) && c.status == Running && Yydefact(Top(c.stack).state) != 0
    requires OnStack(c.stack, Yydefact(Top(c.stack).state))
    ensures var d := ReduceBy(c, Yydefact(Top(c.stack).state));
            && Sound(d) && d.input == c.input && Rank(Top(d.stack).state) < Rank(Top(c.stack).state)
  {
    var q := Top(c.stack).state;
    var r := Yydefact(q);
    var n := Yyr2(r);
    var rest, p := c.stack[..|c.stack| - n], Below(c.stack, n);
    StateBound(c.stack);
    GotoEdge(p, Yyr1(r));
    ReductionsLower(q, p);
    PathPopped(c.stack, n);
    NotToken(Goto(p, Yyr1(r)));
    PathPushed(rest, Entry(Goto(p, Yyr1(r)), if n == 0 then Garbage else c.stack[|c.stack| - n].value));
  }

  lemma {:induction false} NotToken(q: nat)
    requires Yystos(q) >= YYNTOKENS
    ensures !TokenState(q)
  {
  }

  /** Every turn keeps the stack on a path, and shifts a token or lowers the rank of the top. */
  lemma {:induction false} StepSound(c: Parser)
    requires Sound(c) && c.status == Running
    ensures var d := Step(c);
            && Sound(d)
            && (d.status == Running ==>
                  || (c.input != [] && d.input == c.input[1..])
                  || (d.input == c.input && Rank(Top(d.stack).state) < Rank(Top(c.stack).state)))
  {
    var q, k := Top(c.stack).state, Lookahead(c.input);
    StateBound(c.stack);
    match Decide(q, k)
    case Shift(state) => ShiftSound(c, state);
    case Reduce(rule) =>
      RuleDecided(q, k, rule);
      RuleOnStack(c.stack);
      ReduceSound(c);
    case Fail =>
  }

  /** The loop, which ends on every input. */
  function Run(c: Parser): Parser
    requires Sound(c)
    decreases |c.input|, if c.status == Running then 1 + Rank(Top(c.stack).state) else 0
  {
    if c.status != Running then c
    else
      StepSound(c);
      Run(Step(c))
  }

  function Initial(tokens: seq<Token>): (c: Parser)
    ensures Sound(c)
  {
    var c := Parser([Entry(0, Garbage)], tokens, [], Running);
    assert forall i: nat :: i < |c.stack| ==> EntryAt(c.stack, i);
    c
  }

  function Parse(tokens: seq<Token>): Parser {
    Run(Initial(tokens))
  }
}
