/** Whatever the parser accepts is a sentence of the grammar. */
module ConfigGrammar {
  import opened ConfigTokens
  import opened ConfigTables
  import opened ConfigAutomaton
  import opened ConfigParser

  /** A derivation tree. */
  datatype Derivation = Leaf(kind: nat) | Node(rule: nat, kids: seq<Derivation>)

  function Root(d: Derivation): int {
    match d
    case Leaf(k) => k
    case Node(r, _) => Yyr1(r)
  }

  /** Every inner node applies a rule of the grammar. */
  predicate Valid(d: Derivation) {
    match d
    case Leaf(_) => true
    case Node(r, kids) =>
      && 1 <= r <= 39 && |kids| == |Rhs(r)|
      && forall i :: 0 <= i < |kids| ==> Root(kids[i]) == Rhs(r)[i] && Valid(kids[i])
  }

  function Yield(d: Derivation): seq<nat> {
    match d
    case Leaf(k) => [k]
    case Node(_, kids) => YieldAll(kids)
  }

  function YieldAll(ds: seq<Derivation>): seq<nat> {
    if ds == [] then [] else YieldAll(ds[..|ds| - 1]) + Yield(ds[|ds| - 1])
  }

  lemma {:induction false} YieldSnoc(ds: seq<Derivation>, d: Derivation)
    ensures YieldAll(ds + [d]) == YieldAll(ds) + Yield(d)
  {
    assert (ds + [d])[..|ds|] == ds;
  }

  lemma {:induction false} YieldConcat(a: seq<Derivation>, b: seq<Derivation>, all: seq<Derivation>)
    requires all == a + b
    ensures YieldAll(all) == YieldAll(a) + YieldAll(b)
    decreases |b|
  {
    if b == [] {
      assert all == a;
    } else {
      var front, d := b[..|b| - 1], b[|b| - 1];
      var most := a + front;
      assert all[..|all| - 1] == most && all[|all| - 1] == d;
      YieldConcat(a, front, most);
      YieldLast(YieldAll(a), YieldAll(front), Yield(d));
    }
  }

  lemma {:induction false} YieldLast(x: seq<nat>, y: seq<nat>, z: seq<nat>)
    ensures x + y + z == x + (y + z)
  {
  }

  function Kinds(tokens: seq<Token>): seq<nat> {
    if tokens == [] then [] else [Kind(tokens[0])] + Kinds(tokens[1..])
  }

  /** The tokens can be derived from the start symbol. */
  ghost predicate Sentence(tokens: seq<Token>) {
    exists d :: Valid(d) && Root(d) == Yyr1(2) && Yield(d) == Kinds(tokens)
  }

  // ----- The derivations of what is on the stack

  predicate Derives(stack: seq<Entry>, forest: seq<Derivation>, i: nat)
    requires i < |forest| && |stack| == |forest| + 1
  {
    Root(forest[i]) == Yystos(stack[i + 1].state) && Valid(forest[i])
  }

  ghost predicate Covers(stack: seq<Entry>, forest: seq<Derivation>, read: seq<nat>) {
    && |stack| == |forest| + 1
    && (forall i: nat :: i < |forest| ==> Derives(stack, forest, i))
    && YieldAll(forest) == read
  }

  lemma {:induction false} CoverPushed(stack: seq<Entry>, forest: seq<Derivation>, read: seq<nat>, e: Entry, d: Derivation)
    requires Covers(stack, forest, read) && Valid(d) && Root(d) == Yystos(e.state)
    ensures Covers(stack + [e], forest + [d], read + Yield(d))
  {
    var longer, all := stack + [e], forest + [d];
    YieldSnoc(forest, d);
    forall i: nat | i < |all|
      ensures Derives(longer, all, i)
    {
      assert i < |forest| ==> Derives(stack, forest, i);
    }
  }

  lemma {:induction false} KidsFit(stack: seq<Entry>, forest: seq<Derivation>, rule: nat, kids: seq<Derivation>)
    requires OnPath(stack) && |stack| == |forest| + 1 && 1 <= rule <= 39 && OnStack(stack, rule)
    requires forall i: nat :: i < |forest| ==> Derives(stack, forest, i)
    requires kids == forest[|forest| - Yyr2(rule)..]
    ensures Valid(Node(rule, kids))
  {
    var n := Yyr2(rule);
    forall i | 0 <= i < n
      ensures Root(kids[i]) == Rhs(rule)[i] && Valid(kids[i])
    {
      assert Derives(stack, forest, |forest| - n + i);
      assert Yystos(Below(stack, n - 1 - i)) == Rhs(rule)[i];
    }
  }

  /** The topmost derivations become the children of the rule's node. */
  lemma {:induction false} CoverReduced(stack: seq<Entry>, forest: seq<Derivation>, read: seq<nat>, rule: nat, e: Entry)
    returns (after: seq<Derivation>)
    requires OnPath(stack) && Covers(stack, forest, read) && 1 <= rule <= 39 && OnStack(stack, rule)
    requires Yyr1(rule) == Yystos(e.state)
    ensures Covers(stack[..|stack| - Yyr2(rule)] + [e], after, read)
  {
    var n := Yyr2(rule);
    var m := |forest| - n;
    var rest, kids := forest[..m], forest[m..];
    assert forest == rest + kids;
    YieldConcat(rest, kids, forest);
    KidsFit(stack, forest, rule, kids);
    var popped := stack[..|stack| - n];
    forall i: nat | i < |rest|
      ensures Derives(popped, rest, i)
    {
      assert Derives(stack, forest, i);
    }
    CoverPushed(popped, rest, YieldAll(rest), e, Node(rule, kids));
    after := rest + [Node(rule, kids)];
  }

  /** What a turn of the loop reads: the token it shifts. */
  function Reads(c: Parser): seq<nat>
    requires Sound(c) && c.status == Running
  {
    StateBound(c.stack);
    if Decide(Top(c.stack).state, Lookahead(c.input)).Shift? then [Lookahead(c.input)] else []
  }

  lemma {:induction false} RuleRange(q: nat)
    requires q <= 46
    ensures Yydefact(q) <= 39
  {
  }

  lemma {:induction false} ShiftCovers(c: Parser, forest: seq<Derivation>, read: seq<nat>, state: nat)
    requires Sound(c) && c.status == Running && Covers(c.stack, forest, read)
    requires Decide(Top(c.stack).state, Lookahead(c.input)) == Shift(state)
    ensures Covers(ShiftToken(c, state).stack, forest + [Leaf(Lookahead(c.input))], read + [Lookahead(c.input)])
  {
    var q, k := Top(c.stack).state, Lookahead(c.input);
    StateBound(c.stack);
    DecideIsNext(q, k);
    ShiftEdge(q, k);
    CoverPushed(c.stack, forest, read, Entry(state, if c.input == [] then Garbage else c.input[0]), Leaf(k));
  }

  lemma {:induction false} ReduceCovers(c: Parser, forest: seq<Derivation>, read: seq<nat>, rule: nat)
    returns (after: seq<Derivation>)
    requires Sound(c) && c.status == Running && Covers(c.stack, forest, read)
    requires 1 <= rule <= 39 && OnStack(c.stack, rule)
    ensures Covers(ReduceBy(c, rule).stack, after, read)
  {
    var n := Yyr2(rule);
    GotoEdge(Below(c.stack, n), Yyr1(rule));
    var e := Entry(Goto(Below(c.stack, n), Yyr1(rule)), if n == 0 then Garbage else c.stack[|c.stack| - n].value);
    after := CoverReduced(c.stack, forest, read, rule, e);
  }

  lemma {:induction false} StepCovers(c: Parser, forest: seq<Derivation>, read: seq<nat>) returns (after: seq<Derivation>)
    requires Sound(c) && c.status == Running && Covers(c.stack, forest, read)
    ensures Step(c).status != SyntaxError ==> Covers(Step(c).stack, after, read + Reads(c))
  {
    var q, k := Top(c.stack).state, Lookahead(c.input);
    StateBound(c.stack);
    after := forest;
    match Decide(q, k)
    case Shift(state) =>
      ShiftCovers(c, forest, read, state);
      after := forest + [Leaf(k)];
    case Reduce(rule) =>
      RuleDecided(q, k, rule);
      RuleRange(q);
      RuleOnStack(c.stack);
      after := ReduceCovers(c, forest, read, rule);
      assert read + [] == read;
    case Fail =>
  }

  lemma {:induction false} ReadOn(c: Parser, read: seq<nat>, all: seq<nat>)
    requires Sound(c) && c.status == Running && read + Kinds(c.input) == all
    ensures Step(c).status == Running ==> read + Reads(c) + Kinds(Step(c).input) == all
    ensures Step(c).status == Accepted ==> c.input == [] && read + Reads(c) == all + [END]
  {
    var q, k := Top(c.stack).state, Lookahead(c.input);
    StateBound(c.stack);
    match Decide(q, k)
    case Shift(state) =>
      ShiftSound(c, state);
      DecideIsNext(q, k);
      if c.input != [] {
        assert read + Kinds(c.input) == read + [k] + Kinds(c.input[1..]);
      }
    case Reduce(rule) =>
      assert read + [] == read;
      RuleDecided(q, k, rule);
      RuleOnStack(c.stack);
      ReduceSound(c);
      ReductionsRun(c);
    case Fail =>
  }

  /** A reduction never accepts. */
  lemma {:induction false} ReductionsRun(c: Parser)
    requires Sound(c) && c.status == Running && Yydefact(Top(c.stack).state) != 0
    requires OnStack(c.stack, Yydefact(Top(c.stack).state))
    ensures ReduceBy(c, Yydefact(Top(c.stack).state)).status != Accepted
  {
    var r := Yydefact(Top(c.stack).state);
    GotoEdge(Below(c.stack, Yyr2(r)), Yyr1(r));
  }

  /** When the parser accepts, the stack holds the start symbol and the end of the input. */
  lemma {:induction false} FinalStack(stack: seq<Entry>)
    requires OnPath(stack) && Top(stack).state == YYFINAL
    ensures |stack| == 3 && stack[1].state == 2
  {
    PathBelow(stack, 0);
    PathBelow(stack, 1);
    assert Below(stack, 2) == 0;
    assert EntryAt(stack, |stack| - 3);
  }

  lemma {:induction false} AcceptedDerives(stack: seq<Entry>, forest: seq<Derivation>, tokens: seq<Token>)
    requires OnPath(stack) && Top(stack).state == YYFINAL && Covers(stack, forest, Kinds(tokens) + [END])
    ensures Sentence(tokens)
  {
    FinalStack(stack);
    var d, e := forest[0], forest[1];
    assert Derives(stack, forest, 0) && Derives(stack, forest, 1);
    assert forest == [d] + [e];
    YieldSnoc([d], e);
    YieldSnoc([], d);
    assert [] + [d] == [d];
    LeafOrNode(e);
    assert YieldAll(forest) == Yield(d) + [END];
    assert Yield(d) == (Yield(d) + [END])[..|Yield(d)|] == (Kinds(tokens) + [END])[..|Kinds(tokens)|] == Kinds(tokens);
  }

  lemma {:induction false} LeafOrNode(d: Derivation)
    requires Root(d) == END && Valid(d)
    ensures Yield(d) == [END]
  {
    match d
    case Leaf(_) =>
    case Node(r, _) => RuleSymbols(r);
  }

  lemma {:induction false} RuleSymbols(r: nat)
    requires 1 <= r <= 39
    ensures Yyr1(r) >= YYNTOKENS
  {
  }

  lemma {:induction false} RunDerives(c: Parser, forest: seq<Derivation>, read: seq<nat>, tokens: seq<Token>)
    requires Sound(c) && c.status == Running
    requires Covers(c.stack, forest, read) && read + Kinds(c.input) == Kinds(tokens)
    ensures Run(c).status == Accepted ==> Sentence(tokens)
    decreases |c.input|, Rank(Top(c.stack).state)
  {
    var d := Step(c);
    StepSound(c);
    assert Run(c) == Run(d);
    assert d.status != Running ==> Run(d) == d;
    var after := StepCovers(c, forest, read);
    ReadOn(c, read, Kinds(tokens));
    if d.status == Running {
      RunDerives(d, after, read + Reads(c), tokens);
    } else if d.status == Accepted {
      AcceptedTop(c);
      AcceptedDerives(d.stack, after, tokens);
    }
  }

  lemma {:induction false} AcceptedTop(c: Parser)
    requires Sound(c) && c.status == Running && Step(c).status == Accepted
    ensures Top(Step(c).stack).state == YYFINAL
  {
  }

  /** Every token sequence the parser accepts is a sentence of the grammar. */
  lemma {:induction false} AcceptedIsSentence(tokens: seq<Token>)
    requires Parse(tokens).status == Accepted
    ensures Sentence(tokens)
  {
    var c := Initial(tokens);
    assert Covers(c.stack, [], []);
    assert [] + Kinds(tokens) == Kinds(tokens);
    RunDerives(c, [], [], tokens);
  }
}
