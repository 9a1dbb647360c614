/** The parser on printed configurations: the actions are those that build the tree, if the stack is high enough. */
module ConfigPrintParse {
  import opened ConfigTokens
  import opened ConfigTables
  import opened ConfigAutomaton
  import opened ConfigParser
  import opened ConfigTree

  function At(stack: seq<Entry>, input: seq<Token>, events: seq<Event>): Parser {
    Parser(stack, input, events, Running)
  }

  /** What the proofs below use of the loop: it takes a turn at a time, until the parser stops. */
  ghost predicate IsRun(run: Parser -> Parser) {
    forall c: Parser {:trigger Step(c)} :: Sound(c) && c.status == Running ==>
      run(c) == if Step(c).status == Running then run(Step(c)) else Step(c)
  }

  predicate Ready(stack: seq<Entry>) {
    OnPath(stack) && Top(stack).state != YYFINAL
  }

  /** The parser gets from one point to another if the stack has room for that many more entries, and else gives up. */
  ghost predicate Gets(run: Parser -> Parser, stack: seq<Entry>, input: seq<Token>, events: seq<Event>, room: nat,
                       stack': seq<Entry>, input': seq<Token>, events': seq<Event>) {
    && Ready(stack) && Ready(stack') && |stack'| <= |stack| + room
    && (|stack| < YYMAXDEPTH ==>
          if |stack| + room < YYMAXDEPTH then run(At(stack, input, events)) == run(At(stack', input', events'))
          else run(At(stack, input, events)).status == Exhausted)
  }

  lemma {:induction false} Then(run: Parser -> Parser, s1: seq<Entry>, i1: seq<Token>, e1: seq<Event>, r1: nat,
                                s2: seq<Entry>, i2: seq<Token>, e2: seq<Event>, r2: nat,
                                s3: seq<Entry>, i3: seq<Token>, e3: seq<Event>, r: nat)
    requires Gets(run, s1, i1, e1, r1, s2, i2, e2) && Gets(run, s2, i2, e2, r2, s3, i3, e3)
    requires r >= r1 && |s1| + r >= |s2| + r2 && (r == r1 || |s1| + r == |s2| + r2)
    ensures Gets(run, s1, i1, e1, r, s3, i3, e3)
  {
  }

  lemma {:induction false} ShiftRun(run: Parser -> Parser, stack: seq<Entry>, t: Token, rest: seq<Token>, events: seq<Event>, s: nat)
    requires IsRun(run)
    requires Ready(stack) && Next(Top(stack).state, Kind(t)) == s && s != YYFINAL
    ensures Gets(run, stack, [t] + rest, events, 1, stack + [Entry(s, t)], rest, events)
  {
    var c := At(stack, [t] + rest, events);
    var q := Top(stack).state;
    StateBound(stack);
    DecideIsNext(q, Kind(t));
    ShiftSound(c, s);
    ShiftEdge(q, Kind(t));
    PathPushed(stack, Entry(s, t));
    assert c.input[1..] == rest;
    assert Step(c) == ShiftToken(c, s);
  }

  /** A reduction by the default rule, with its right-hand side as the handle on top of the stack. */
  lemma {:induction false} ReduceRun(run: Parser -> Parser, base: seq<Entry>, handle: seq<Entry>, stack: seq<Entry>, input: seq<Token>,
                                     events: seq<Event>, g: nat, room: nat)
    requires IsRun(run)
    requires stack == base + handle && base != [] && Ready(stack)
    requires var q := Top(stack).state;
             && Yydefact(q) != 0 && Next(q, Lookahead(input)) < 0 && |handle| == Yyr2(Yydefact(q))
             && g == Reached(Top(base).state, Yyr1(Yydefact(q)))
    requires room == if handle == [] then 1 else 0
    ensures var e := Entry(g, if handle == [] then Garbage else handle[0].value);
            g != YYFINAL && Gets(run, stack, input, events, room, base + [e], input,
                                 events + ActionOf(Yydefact(Top(stack).state), Top(stack).value))
  {
    var c := At(stack, input, events);
    var q := Top(stack).state;
    var r := Yydefact(q);
    StateBound(stack);
    DecideIsNext(q, Lookahead(input));
    RuleOnStack(stack);
    ReduceSound(c);
    assert stack[..|stack| - |handle|] == base;
    assert Below(stack, |handle|) == Top(base).state;
    GotoEdge(Top(base).state, Yyr1(r));
    assert Step(c) == ReduceBy(c, r);
  }

  // ----- Scalars

  predicate Begins(p: nat) { ValueState(p) || ElementState(p) }

  lemma {:induction false} LiteralRun(run: Parser -> Parser, base: seq<Entry>, t: Token, rest: seq<Token>, events: seq<Event>, g: nat)
    requires IsRun(run)
    requires Ready(base) && Begins(Top(base).state) && Kind(t) < STRING && g == Reached(Top(base).state, SIMPLE_VALUE)
    ensures Gets(run, base, [t] + rest, events, 1, base + [Entry(g, t)], rest, events + [Literal(t)])
  {
    var s := Next(Top(base).state, Kind(t));
    var stack := base + [Entry(s, t)];
    ShiftRun(run, base, t, rest, events, s);
    ReduceRun(run, base, [Entry(s, t)], stack, rest, events, g, 0);
    Then(run, base, [t] + rest, events, 1, stack, rest, events, 0, base + [Entry(g, t)], rest, events + [Literal(t)], 1);
  }

  lemma {:induction false} StringRun(run: Parser -> Parser, base: seq<Entry>, t: Token, rest: seq<Token>, events: seq<Event>, g: nat)
    requires IsRun(run)
    requires Ready(base) && Begins(Top(base).state) && t.Str? && Lookahead(rest) != STRING
    requires g == Reached(Top(base).state, SIMPLE_VALUE)
    ensures Gets(run, base, [t] + rest, events, 1, base + [Entry(g, t)], rest, events + [Piece(t), Text])
  {
    var stack, strung := base + [Entry(15, t)], base + [Entry(22, t)];
    var e1, e2 := events + [Piece(t)], events + [Piece(t), Text];
    ShiftRun(run, base, t, rest, events, 15);
    ReduceRun(run, base, [Entry(15, t)], stack, rest, events, 22, 0);
    Then(run, base, [t] + rest, events, 1, stack, rest, events, 0, strung, rest, e1, 1);
    ReduceRun(run, base, [Entry(22, t)], strung, rest, e1, g, 0);
    assert e1 + [Text] == e2;
    Then(run, base, [t] + rest, events, 1, strung, rest, e1, 0, base + [Entry(g, t)], rest, e2, 1);
  }

  /** A printed scalar becomes a simple value. */
  lemma {:induction false} ScalarRun(run: Parser -> Parser, base: seq<Entry>, t: Tree, rest: seq<Token>, events: seq<Event>, g: nat)
    requires IsRun(run)
    requires Ready(base) && Begins(Top(base).state) && IsScalar(t) && Printable(t) && Lookahead(rest) != STRING
    requires g == Reached(Top(base).state, SIMPLE_VALUE)
    ensures Gets(run, base, Tokens(t) + rest, events, 1, base + [Entry(g, ScalarToken(t))], rest, events + Events(t))
  {
    if t.StringValue? {
      StringRun(run, base, ScalarToken(t), rest, events, g);
    } else {
      LiteralRun(run, base, ScalarToken(t), rest, events, g);
    }
  }

  // ----- Arrays

  /** One more element of an array: a comma and a scalar, merged into the list before them. */
  lemma {:induction false} NextElementRun(run: Parser -> Parser, base: seq<Entry>, v: Token, t: Tree, input: seq<Token>, more: seq<Token>,
                                          events: seq<Event>, stack: seq<Entry>)
    requires IsRun(run)
    requires stack == base + [Entry(33, v)] && Ready(stack) && base != [] && Top(base).state == 25
    requires IsScalar(t) && Printable(t) && Lookahead(more) != STRING && input == [Comma] + (Tokens(t) + more)
    ensures Gets(run, stack, input, events, 2, stack, more, events + Events(t))
  {
    var comma := stack + [Entry(40, Comma)];
    var full := comma + [Entry(45, ScalarToken(t))];
    var after := events + Events(t);
    ShiftRun(run, stack, Comma, Tokens(t) + more, events, 40);
    ScalarRun(run, comma, t, more, events, 45);
    Then(run, stack, input, events, 1, comma, Tokens(t) + more, events, 1, full, more, after, 2);
    var handle := [Entry(33, v), Entry(40, Comma), Entry(45, ScalarToken(t))];
    assert full == base + handle;
    ReduceRun(run, base, handle, full, more, after, 33, 0);
    assert after + [] == after;
    Then(run, stack, input, events, 2, full, more, after, 0, stack, more, after, 2);
  }

  lemma {:induction false} MoreLookahead(es: seq<Tree>, rest: seq<Token>)
    requires (forall i :: 0 <= i < |es| ==> Printable(es[i])) && Lookahead(rest) != STRING
    ensures Lookahead(MoreTokens(es) + rest) != STRING
  {
    if es == [] {
      assert MoreTokens(es) + rest == rest;
    }
  }

  lemma {:induction false} MoreSplit(es: seq<Tree>, rest: seq<Token>, events: seq<Event>)
    requires es != [] && forall i :: 0 <= i < |es| ==> Printable(es[i])
    ensures MoreTokens(es) + rest == [Comma] + (Tokens(es[0]) + (MoreTokens(es[1..]) + rest))
    ensures events + ElementEvents(es) == events + Events(es[0]) + ElementEvents(es[1..])
  {
    var a, b := Tokens(es[0]), MoreTokens(es[1..]);
    assert [Comma] + a + b + rest == [Comma] + (a + (b + rest));
  }

  /** The elements of an array after the first. */
  lemma {:induction false} MoreElementsRun(run: Parser -> Parser, base: seq<Entry>, v: Token, es: seq<Tree>, rest: seq<Token>,
                                           events: seq<Event>, stack: seq<Entry>)
    requires IsRun(run)
    requires stack == base + [Entry(33, v)] && Ready(stack) && base != [] && Top(base).state == 25
    requires forall i :: 0 <= i < |es| ==> IsScalar(es[i]) && Printable(es[i])
    requires Lookahead(rest) != STRING
    ensures Gets(run, stack, MoreTokens(es) + rest, events, if es == [] then 0 else 2, stack, rest, events + ElementEvents(es))
    decreases |es|
  {
    if es == [] {
      assert MoreTokens(es) + rest == rest && events + ElementEvents(es) == events;
    } else {
      var more, e1 := MoreTokens(es[1..]) + rest, events + Events(es[0]);
      MoreSplit(es, rest, events);
      MoreLookahead(es[1..], rest);
      NextElementRun(run, base, v, es[0], MoreTokens(es) + rest, more, events, stack);
      MoreElementsRun(run, base, v, es[1..], rest, e1, stack);
      Then(run, stack, MoreTokens(es) + rest, events, 2, stack, more, e1, if |es| == 1 then 0 else 2,
           stack, rest, events + ElementEvents(es), 2);
    }
  }

  // ----- Brackets

  function StartState(b: Bracket): nat { match b case ARRAY => 16 case LIST => 17 case GROUP => 18 }

  function OpenState(b: Bracket): nat { match b case ARRAY => 25 case LIST => 26 case GROUP => 27 }

  function FullState(b: Bracket): nat { match b case ARRAY => 34 case LIST => 37 case GROUP => 39 }

  function EndState(b: Bracket): nat { match b case ARRAY => 41 case LIST => 43 case GROUP => 44 }

  function DoneState(b: Bracket): nat { match b case ARRAY => 19 case LIST => 20 case GROUP => 24 }

  function StartToken(b: Bracket): Token { match b case ARRAY => ArrayStart case LIST => ListStart case GROUP => GroupStart }

  function EndToken(b: Bracket): Token { match b case ARRAY => ArrayEnd case LIST => ListEnd case GROUP => GroupEnd }

  /** The stack inside a bracket. */
  function Inside(base: seq<Entry>, b: Bracket): seq<Entry> {
    base + [Entry(StartState(b), StartToken(b)), Entry(OpenState(b), Garbage)]
  }

  /** The stack after a value. */
  function WithValue(base: seq<Entry>, v: Token): seq<Entry>
    requires base != []
  {
    base + [Entry(if Top(base).state == 8 then 21 else if Top(base).state == 26 then 35 else 46, v)]
  }

  lemma {:induction false} OpenRun(run: Parser -> Parser, base: seq<Entry>, b: Bracket, input: seq<Token>, events: seq<Event>)
    requires IsRun(run)
    requires Ready(base) && ValueState(Top(base).state)
    ensures Gets(run, base, [StartToken(b)] + input, events, 2, Inside(base, b), input, events + [Open(b)])
  {
    var started := base + [Entry(StartState(b), StartToken(b))];
    ShiftRun(run, base, StartToken(b), input, events, StartState(b));
    assert started + [] == started;
    ReduceRun(run, started, [], started, input, events, OpenState(b), 1);
    assert started + [Entry(OpenState(b), Garbage)] == Inside(base, b);
    Then(run, base, [StartToken(b)] + input, events, 1, started, input, events, 1, Inside(base, b), input, events + [Open(b)], 2);
  }

  lemma {:induction false} CloseRun(run: Parser -> Parser, base: seq<Entry>, b: Bracket, x: Token, rest: seq<Token>, events: seq<Event>,
                                    stack: seq<Entry>)
    requires IsRun(run)
    requires Ready(base) && ValueState(Top(base).state) && stack == Inside(base, b) + [Entry(FullState(b), x)] && Ready(stack)
    ensures Gets(run, stack, [EndToken(b)] + rest, events, 1, base + [Entry(DoneState(b), StartToken(b))], rest, events + [Close])
  {
    var ended := stack + [Entry(EndState(b), EndToken(b))];
    var handle := [Entry(StartState(b), StartToken(b)), Entry(OpenState(b), Garbage), Entry(FullState(b), x),
                   Entry(EndState(b), EndToken(b))];
    ShiftRun(run, stack, EndToken(b), rest, events, EndState(b));
    assert ended == base + handle;
    ReduceRun(run, base, handle, ended, rest, events, DoneState(b), 0);
    Then(run, stack, [EndToken(b)] + rest, events, 1, ended, rest, events, 0,
         base + [Entry(DoneState(b), StartToken(b))], rest, events + [Close], 1);
  }

  lemma {:induction false} DoneRun(run: Parser -> Parser, base: seq<Entry>, q: nat, v: Token, rest: seq<Token>, events: seq<Event>)
    requires IsRun(run)
    requires Ready(base) && ValueState(Top(base).state) && (q == 19 || q == 20 || q == 23 || q == 24)
    requires Ready(base + [Entry(q, v)])
    ensures Gets(run, base + [Entry(q, v)], rest, events, 0, WithValue(base, v), rest, events)
  {
    var stack := base + [Entry(q, v)];
    ReduceRun(run, base, [Entry(q, v)], stack, rest, events, Top(WithValue(base, v)).state, 0);
    assert events + [] == events;
  }

  /** A bracketed value from the run of its contents. */
  lemma {:induction false} BracketRun(run: Parser -> Parser, base: seq<Entry>, b: Bracket, body: seq<Token>, rest: seq<Token>, events: seq<Event>,
                                      x: Token, events': seq<Event>, room: nat, all: seq<Token>, total: nat)
    requires IsRun(run)
    requires Ready(base) && ValueState(Top(base).state)
    requires Gets(run, Inside(base, b), body + ([EndToken(b)] + rest), events + [Open(b)], room,
                  Inside(base, b) + [Entry(FullState(b), x)], [EndToken(b)] + rest, events')
    requires all == [StartToken(b)] + (body + ([EndToken(b)] + rest))
    requires room >= 1 && total == Bracketed(room)
    ensures Gets(run, base, all, events, total, WithValue(base, StartToken(b)), rest, events' + [Close])
  {
    var inside, full := Inside(base, b), Inside(base, b) + [Entry(FullState(b), x)];
    var tail := [EndToken(b)] + rest;
    var done := base + [Entry(DoneState(b), StartToken(b))];
    OpenRun(run, base, b, body + tail, events);
    Then(run, base, all, events, 2, inside, body + tail, events + [Open(b)], room, full, tail, events', 2 + room);
    CloseRun(run, base, b, x, rest, events', full);
    Then(run, base, all, events, 2 + room, full, tail, events', 1, done, rest, events' + [Close], total);
    DoneRun(run, base, DoneState(b), StartToken(b), rest, events' + [Close]);
    Then(run, base, all, events, total, done, rest, events' + [Close], 0,
         WithValue(base, StartToken(b)), rest, events' + [Close], total);
  }

  lemma {:induction false} FirstElementRun(run: Parser -> Parser, inside: seq<Entry>, t: Tree, input: seq<Token>, more: seq<Token>, events: seq<Event>)
    requires IsRun(run)
    requires Ready(inside) && Top(inside).state == 25 && IsScalar(t) && Printable(t) && Lookahead(more) != STRING
    requires input == Tokens(t) + more
    ensures Gets(run, inside, input, events, 1, inside + [Entry(33, ScalarToken(t))], more, events + Events(t))
  {
    var v, e := ScalarToken(t), events + Events(t);
    var first := inside + [Entry(32, v)];
    ScalarRun(run, inside, t, more, events, 32);
    ReduceRun(run, inside, [Entry(32, v)], first, more, e, 33, 0);
    assert e + [] == e;
    Then(run, inside, input, events, 1, first, more, e, 0, inside + [Entry(33, v)], more, e, 1);
  }

  lemma {:induction false} ElementsSplit(es: seq<Tree>, tail: seq<Token>, events: seq<Event>)
    requires es != [] && forall i :: 0 <= i < |es| ==> Printable(es[i])
    ensures ElementTokens(es) + tail == Tokens(es[0]) + (MoreTokens(es[1..]) + tail)
    ensures events + ElementEvents(es) == events + Events(es[0]) + ElementEvents(es[1..])
  {
  }

  /** The contents of an array. */
  lemma {:induction false} ArrayBodyRun(run: Parser -> Parser, inside: seq<Entry>, es: seq<Tree>, tail: seq<Token>, events: seq<Event>) returns (x: Token)
    requires IsRun(run)
    requires Ready(inside) && Top(inside).state == 25 && Lookahead(tail) == ARRAY_END
    requires forall i :: 0 <= i < |es| ==> IsScalar(es[i]) && Printable(es[i])
    ensures Gets(run, inside, ElementTokens(es) + tail, events, if |es| > 1 then 3 else 1,
                 inside + [Entry(34, x)], tail, events + ElementEvents(es))
  {
    var all, e := ElementTokens(es) + tail, events + ElementEvents(es);
    assert e + [] == e;
    if es == [] {
      x := Garbage;
      assert inside + [] == inside && all == tail && e == events;
      ReduceRun(run, inside, [], inside, tail, events, 34, 1);
    } else {
      x := ScalarToken(es[0]);
      var more, e1, list := MoreTokens(es[1..]) + tail, events + Events(es[0]), inside + [Entry(33, x)];
      var room := if |es| > 1 then 3 else 1;
      ElementsSplit(es, tail, events);
      MoreLookahead(es[1..], tail);
      FirstElementRun(run, inside, es[0], all, more, events);
      MoreElementsRun(run, inside, x, es[1..], tail, e1, list);
      Then(run, inside, all, events, 1, list, more, e1, if |es| > 1 then 2 else 0, list, tail, e, room);
      ReduceRun(run, inside, [Entry(33, x)], list, tail, e, 34, 0);
      Then(run, inside, all, events, room, list, tail, e, 0, inside + [Entry(34, x)], tail, e, room);
    }
  }

  // ----- Values of all kinds

  /** The first token of a value. */
  function FirstToken(t: Tree): Token
    requires Printable(t)
  {
    match t
    case GroupOf(_) => GroupStart
    case ArrayOf(_) => ArrayStart
    case ListOf(_) => ListStart
    case _ => ScalarToken(t)
  }

  lemma {:induction false} ScalarValueRun(run: Parser -> Parser, base: seq<Entry>, t: Tree, rest: seq<Token>, events: seq<Event>)
    requires IsRun(run)
    requires Ready(base) && ValueState(Top(base).state) && IsScalar(t) && Printable(t) && Lookahead(rest) != STRING
    ensures Gets(run, base, Tokens(t) + rest, events, 1, WithValue(base, ScalarToken(t)), rest, events + Events(t))
  {
    var v, e := ScalarToken(t), events + Events(t);
    ScalarRun(run, base, t, rest, events, 23);
    DoneRun(run, base, 23, v, rest, e);
    Then(run, base, Tokens(t) + rest, events, 1, base + [Entry(23, v)], rest, e, 0, WithValue(base, v), rest, e, 1);
  }

  lemma {:induction false} BracketSplit(b: Bracket, body: seq<Token>, rest: seq<Token>, events: seq<Event>, inner: seq<Event>)
    ensures [StartToken(b)] + body + [EndToken(b)] + rest == [StartToken(b)] + (body + ([EndToken(b)] + rest))
    ensures events + [Open(b)] + inner + [Close] == events + ([Open(b)] + inner + [Close])
  {
    assert [StartToken(b)] + body + [EndToken(b)] + rest == [StartToken(b)] + (body + ([EndToken(b)] + rest));
    assert events + [Open(b)] + inner + [Close] == events + ([Open(b)] + inner + [Close]);
  }

  lemma {:induction false} ArrayRun(run: Parser -> Parser, base: seq<Entry>, es: seq<Tree>, rest: seq<Token>, events: seq<Event>)
    requires IsRun(run)
    requires Ready(base) && ValueState(Top(base).state) && Printable(ArrayOf(es))
    ensures Gets(run, base, Tokens(ArrayOf(es)) + rest, events, Height(ArrayOf(es)), WithValue(base, ArrayStart), rest,
                 events + Events(ArrayOf(es)))
  {
    var tail := [ArrayEnd] + rest;
    OpenRun(run, base, ARRAY, ElementTokens(es) + tail, events);
    var x := ArrayBodyRun(run, Inside(base, ARRAY), es, tail, events + [Open(ARRAY)]);
    BracketSplit(ARRAY, ElementTokens(es), rest, events, ElementEvents(es));
    BracketRun(run, base, ARRAY, ElementTokens(es), rest, events, x, events + [Open(ARRAY)] + ElementEvents(es),
               if |es| > 1 then 3 else 1, Tokens(ArrayOf(es)) + rest, Height(ArrayOf(es)));
  }

  // ----- Settings

  lemma {:induction false} NameRun(run: Parser -> Parser, base: seq<Entry>, name: Token, input: seq<Token>, events: seq<Event>, stack: seq<Entry>)
    requires IsRun(run)
    requires Ready(base) && SettingState(Top(base).state) && name.Name?
    requires stack == base + [Entry(1, name), Entry(5, Garbage), Entry(8, Equals)]
    ensures Gets(run, base, [name, Equals] + input, events, 3, stack, input, events + [Named(name)])
  {
    var s1, s2 := base + [Entry(1, name)], base + [Entry(1, name), Entry(5, Garbage)];
    var i1, e := [Equals] + input, events + [Named(name)];
    assert [name, Equals] + input == [name] + i1;
    ShiftRun(run, base, name, i1, events, 1);
    assert s1 + [] == s1 && s1 + [Entry(5, Garbage)] == s2;
    ReduceRun(run, s1, [], s1, i1, events, 5, 1);
    Then(run, base, [name, Equals] + input, events, 1, s1, i1, events, 1, s2, i1, e, 2);
    ShiftRun(run, s2, Equals, input, e, 8);
    assert s2 + [Entry(8, Equals)] == stack;
    Then(run, base, [name, Equals] + input, events, 2, s2, i1, e, 1, stack, input, e, 3);
  }

  lemma {:induction false} EndSettingRun(run: Parser -> Parser, base: seq<Entry>, name: Token, v: Token, input: seq<Token>, more: seq<Token>,
                                         events: seq<Event>, valued: seq<Entry>, g: nat)
    requires IsRun(run)
    requires Ready(base) && SettingState(Top(base).state) && input == [Semicolon] + more
    requires valued == base + [Entry(1, name), Entry(5, Garbage), Entry(8, Equals), Entry(21, v)] && Ready(valued)
    requires g == Reached(Top(base).state, SETTING)
    ensures Gets(run, valued, input, events, 1, base + [Entry(g, name)], more, events)
  {
    var semi, term := valued + [Entry(29, Semicolon)], valued + [Entry(30, Semicolon)];
    var handle := [Entry(1, name), Entry(5, Garbage), Entry(8, Equals), Entry(21, v), Entry(30, Semicolon)];
    ShiftRun(run, valued, Semicolon, more, events, 29);
    ReduceRun(run, valued, [Entry(29, Semicolon)], semi, more, events, 30, 0);
    assert events + [] == events;
    Then(run, valued, input, events, 1, semi, more, events, 0, term, more, events, 1);
    assert term == base + handle;
    ReduceRun(run, base, handle, term, more, events, g, 0);
    Then(run, valued, input, events, 1, term, more, events, 0, base + [Entry(g, name)], more, events, 1);
  }

  lemma {:induction false} MemberSplit(m: Member, rest: seq<Token>, more: seq<Token>)
    requires Printable(m.value)
    ensures [Name(m.name), Equals] + Tokens(m.value) + [Semicolon] + rest + more
         == [Name(m.name), Equals] + (Tokens(m.value) + ([Semicolon] + (rest + more)))
  {
    var a, b := [Name(m.name), Equals], Tokens(m.value);
    assert a + b + [Semicolon] + rest + more == a + (b + ([Semicolon] + (rest + more)));
  }

  lemma {:induction false} MemberRun(run: Parser -> Parser, base: seq<Entry>, m: Member, input: seq<Token>, more: seq<Token>, events: seq<Event>, g: nat)
    requires IsRun(run)
    requires Ready(base) && SettingState(Top(base).state) && Printable(m.value) && g == Reached(Top(base).state, SETTING)
    requires input == [Name(m.name), Equals] + (Tokens(m.value) + ([Semicolon] + more))
    ensures Gets(run, base, input, events, MemberHeight(m), base + [Entry(g, Name(m.name))], more,
                 events + [Named(Name(m.name))] + Events(m.value))
    decreases m.value, 6
  {
    var name, tail := Name(m.name), [Semicolon] + more;
    var named := base + [Entry(1, name), Entry(5, Garbage), Entry(8, Equals)];
    var valued := named + [Entry(21, FirstToken(m.value))];
    var e1, e2 := events + [Named(name)], events + [Named(name)] + Events(m.value);
    NameRun(run, base, name, Tokens(m.value) + tail, events, named);
    ValueRun(run, named, m.value, tail, e1);
    Then(run, base, input, events, 3, named, Tokens(m.value) + tail, e1, Height(m.value), valued, tail, e2, 3 + Height(m.value));
    assert valued == base + [Entry(1, name), Entry(5, Garbage), Entry(8, Equals), Entry(21, FirstToken(m.value))];
    EndSettingRun(run, base, name, FirstToken(m.value), tail, more, e2, valued, g);
    Then(run, base, input, events, 3 + Height(m.value), valued, tail, e2, 1, base + [Entry(g, name)], more, e2, MemberHeight(m));
  }

  /** The settings after the first, added to the list of settings on the stack. */
  lemma {:induction false} MoreMembersRun(run: Parser -> Parser, base: seq<Entry>, v: Token, ms: seq<Member>, tail: seq<Token>, events: seq<Event>,
                                          stack: seq<Entry>, list: nat)
    requires IsRun(run)
    requires base != [] && (list == 3 || list == 38) && list == Reached(Top(base).state, SETTING_LIST)
    requires stack == base + [Entry(list, v)] && Ready(stack)
    requires forall i :: 0 <= i < |ms| ==> Printable(ms[i].value)
    ensures Gets(run, stack, MemberTokens(ms) + tail, events, LaterHeight(ms), stack, tail, events + MemberEvents(ms))
    decreases ms, 0
  {
    var all, e := MemberTokens(ms) + tail, events + MemberEvents(ms);
    if ms == [] {
      assert all == tail && e == events;
    } else {
      var more, e1 := MemberTokens(ms[1..]) + tail, events + [Named(Name(ms[0].name))] + Events(ms[0].value);
      MembersSplit(ms, tail, events);
      NextMemberRun(run, base, v, ms[0], all, more, events, stack, list);
      MoreMembersRun(run, base, v, ms[1..], tail, e1, stack, list);
      Then(run, stack, all, events, MemberHeight(ms[0]), stack, more, e1, LaterHeight(ms[1..]), stack, tail, e, LaterHeight(ms));
    }
  }

  lemma {:induction false} NextMemberRun(run: Parser -> Parser, base: seq<Entry>, v: Token, m: Member, input: seq<Token>, more: seq<Token>,
                                         events: seq<Event>, stack: seq<Entry>, list: nat)
    requires IsRun(run)
    requires base != [] && (list == 3 || list == 38) && list == Reached(Top(base).state, SETTING_LIST)
    requires stack == base + [Entry(list, v)] && Ready(stack) && Printable(m.value)
    requires input == [Name(m.name), Equals] + (Tokens(m.value) + ([Semicolon] + more))
    ensures Gets(run, stack, input, events, MemberHeight(m), stack, more, events + [Named(Name(m.name))] + Events(m.value))
    decreases m, 3
  {
    var setting, e := stack + [Entry(7, Name(m.name))], events + [Named(Name(m.name))] + Events(m.value);
    var handle := [Entry(list, v), Entry(7, Name(m.name))];
    MemberRun(run, stack, m, input, more, events, 7);
    assert setting == base + handle && e + [] == e;
    ReduceRun(run, base, handle, setting, more, e, list, 0);
    Then(run, stack, input, events, MemberHeight(m), setting, more, e, 0, stack, more, e, MemberHeight(m));
  }

  lemma {:induction false} FirstMemberRun(run: Parser -> Parser, base: seq<Entry>, m: Member, input: seq<Token>, more: seq<Token>,
                                          events: seq<Event>, stack: seq<Entry>, list: nat)
    requires IsRun(run)
    requires Ready(base) && (Top(base).state == 0 || Top(base).state == 27) && list == Reached(Top(base).state, SETTING_LIST)
    requires stack == base + [Entry(list, Name(m.name))] && Printable(m.value)
    requires input == [Name(m.name), Equals] + (Tokens(m.value) + ([Semicolon] + more))
    ensures Gets(run, base, input, events, MemberHeight(m), stack, more, events + [Named(Name(m.name))] + Events(m.value))
    decreases m, 3
  {
    var setting, e := base + [Entry(4, Name(m.name))], events + [Named(Name(m.name))] + Events(m.value);
    MemberRun(run, base, m, input, more, events, 4);
    assert e + [] == e;
    ReduceRun(run, base, [Entry(4, Name(m.name))], setting, more, e, list, 0);
    Then(run, base, input, events, MemberHeight(m), setting, more, e, 0, stack, more, e, MemberHeight(m));
  }

  lemma {:induction false} MembersSplit(ms: seq<Member>, tail: seq<Token>, events: seq<Event>)
    requires ms != [] && forall i :: 0 <= i < |ms| ==> Printable(ms[i].value)
    ensures var m, more := ms[0], MemberTokens(ms[1..]) + tail;
            MemberTokens(ms) + tail == [Name(m.name), Equals] + (Tokens(m.value) + ([Semicolon] + more))
    ensures events + MemberEvents(ms) == events + [Named(Name(ms[0].name))] + Events(ms[0].value) + MemberEvents(ms[1..])
  {
    MemberSplit(ms[0], MemberTokens(ms[1..]), tail);
    var a, b, c := [Named(Name(ms[0].name))], Events(ms[0].value), MemberEvents(ms[1..]);
    assert events + (a + b + c) == events + a + b + c;
  }

  /** One or more settings, where a list of settings may begin. */
  lemma {:induction false} MembersRun(run: Parser -> Parser, base: seq<Entry>, ms: seq<Member>, tail: seq<Token>, events: seq<Event>, list: nat)
    requires IsRun(run)
    requires Ready(base) && (Top(base).state == 0 || Top(base).state == 27) && list == Reached(Top(base).state, SETTING_LIST)
    requires ms != [] && forall i :: 0 <= i < |ms| ==> Printable(ms[i].value)
    ensures Gets(run, base, MemberTokens(ms) + tail, events, MembersHeight(ms),
                 base + [Entry(list, Name(ms[0].name))], tail, events + MemberEvents(ms))
    decreases ms, 1
  {
    var v, all, e := Name(ms[0].name), MemberTokens(ms) + tail, events + MemberEvents(ms);
    var more, e1 := MemberTokens(ms[1..]) + tail, events + [Named(v)] + Events(ms[0].value);
    var stack := base + [Entry(list, v)];
    MembersSplit(ms, tail, events);
    FirstMemberRun(run, base, ms[0], all, more, events, stack, list);
    MoreMembersRun(run, base, v, ms[1..], tail, e1, stack, list);
    Then(run, base, all, events, MemberHeight(ms[0]), stack, more, e1, LaterHeight(ms[1..]), stack, tail, e, MembersHeight(ms));
  }

  lemma {:induction false} GroupBodyRun(run: Parser -> Parser, inside: seq<Entry>, ms: seq<Member>, tail: seq<Token>, events: seq<Event>) returns (x: Token)
    requires IsRun(run)
    requires Ready(inside) && Top(inside).state == 27 && Lookahead(tail) == GROUP_END
    requires forall i :: 0 <= i < |ms| ==> Printable(ms[i].value)
    ensures Gets(run, inside, MemberTokens(ms) + tail, events, MembersHeight(ms),
                 inside + [Entry(39, x)], tail, events + MemberEvents(ms))
    decreases ms, 2
  {
    var all, e := MemberTokens(ms) + tail, events + MemberEvents(ms);
    assert e + [] == e;
    if ms == [] {
      x := Garbage;
      assert inside + [] == inside && all == tail && e == events;
      ReduceRun(run, inside, [], inside, tail, events, 39, 1);
    } else {
      x := Name(ms[0].name);
      var stack := inside + [Entry(38, x)];
      MembersRun(run, inside, ms, tail, events, 38);
      ReduceRun(run, inside, [Entry(38, x)], stack, tail, e, 39, 0);
      Then(run, inside, all, events, MembersHeight(ms), stack, tail, e, 0, inside + [Entry(39, x)], tail, e, MembersHeight(ms));
    }
  }

  lemma {:induction false} GroupRun(run: Parser -> Parser, base: seq<Entry>, ms: seq<Member>, rest: seq<Token>, events: seq<Event>)
    requires IsRun(run)
    requires Ready(base) && ValueState(Top(base).state) && Printable(GroupOf(ms))
    ensures Gets(run, base, Tokens(GroupOf(ms)) + rest, events, Height(GroupOf(ms)), WithValue(base, GroupStart), rest,
                 events + Events(GroupOf(ms)))
    decreases ms, 3
  {
    var tail := [GroupEnd] + rest;
    OpenRun(run, base, GROUP, MemberTokens(ms) + tail, events);
    var x := GroupBodyRun(run, Inside(base, GROUP), ms, tail, events + [Open(GROUP)]);
    BracketSplit(GROUP, MemberTokens(ms), rest, events, MemberEvents(ms));
    BracketRun(run, base, GROUP, MemberTokens(ms), rest, events, x, events + [Open(GROUP)] + MemberEvents(ms),
               MembersHeight(ms), Tokens(GroupOf(ms)) + rest, Height(GroupOf(ms)));
  }

  // ----- Lists

  /** A value behind a comma joins the list on the stack. */
  lemma {:induction false} JoinRun(run: Parser -> Parser, base: seq<Entry>, v: Token, w: Token, more: seq<Token>, events: seq<Event>,
                                   stack: seq<Entry>, full: seq<Entry>)
    requires IsRun(run)
    requires base != [] && Top(base).state == 26 && stack == base + [Entry(36, v)] && Ready(full)
    requires full == stack + [Entry(42, Comma)] + [Entry(46, w)]
    ensures Gets(run, full, more, events, 0, stack, more, events)
  {
    var handle := [Entry(36, v), Entry(42, Comma), Entry(46, w)];
    assert full == base + handle && events + [] == events;
    ReduceRun(run, base, handle, full, more, events, 36, 0);
  }

  lemma {:induction false} NextValueRun(run: Parser -> Parser, base: seq<Entry>, v: Token, t: Tree, input: seq<Token>, more: seq<Token>,
                                        events: seq<Event>, stack: seq<Entry>)
    requires IsRun(run)
    requires base != [] && Top(base).state == 26 && stack == base + [Entry(36, v)] && Ready(stack)
    requires Printable(t) && Lookahead(more) != STRING && input == [Comma] + (Tokens(t) + more)
    ensures Gets(run, stack, input, events, 1 + Height(t), stack, more, events + Events(t))
    decreases t, 5
  {
    var comma := stack + [Entry(42, Comma)];
    var full, e := WithValue(comma, FirstToken(t)), events + Events(t);
    ShiftRun(run, stack, Comma, Tokens(t) + more, events, 42);
    ValueRun(run, comma, t, more, events);
    Then(run, stack, input, events, 1, comma, Tokens(t) + more, events, Height(t), full, more, e, 1 + Height(t));
    JoinRun(run, base, v, FirstToken(t), more, e, stack, full);
    Then(run, stack, input, events, 1 + Height(t), full, more, e, 0, stack, more, e, 1 + Height(t));
  }

  lemma {:induction false} MoreValuesRun(run: Parser -> Parser, base: seq<Entry>, v: Token, es: seq<Tree>, tail: seq<Token>, events: seq<Event>,
                                         stack: seq<Entry>)
    requires IsRun(run)
    requires base != [] && Top(base).state == 26 && stack == base + [Entry(36, v)] && Ready(stack)
    requires (forall i :: 0 <= i < |es| ==> Printable(es[i])) && Lookahead(tail) != STRING
    ensures Gets(run, stack, MoreTokens(es) + tail, events, MoreHeight(es), stack, tail, events + ElementEvents(es))
    decreases es, 0
  {
    var all, e := MoreTokens(es) + tail, events + ElementEvents(es);
    if es == [] {
      assert all == tail && e == events;
    } else {
      var more, e1 := MoreTokens(es[1..]) + tail, events + Events(es[0]);
      MoreSplit(es, tail, events);
      MoreLookahead(es[1..], tail);
      NextValueRun(run, base, v, es[0], all, more, events, stack);
      MoreValuesRun(run, base, v, es[1..], tail, e1, stack);
      Then(run, stack, all, events, 1 + Height(es[0]), stack, more, e1, MoreHeight(es[1..]), stack, tail, e, MoreHeight(es));
    }
  }

  lemma {:induction false} FirstValueRun(run: Parser -> Parser, inside: seq<Entry>, t: Tree, input: seq<Token>, more: seq<Token>, events: seq<Event>)
    requires IsRun(run)
    requires Ready(inside) && Top(inside).state == 26 && Printable(t) && Lookahead(more) != STRING
    requires input == Tokens(t) + more
    ensures Gets(run, inside, input, events, Height(t), inside + [Entry(36, FirstToken(t))], more, events + Events(t))
    decreases t, 5
  {
    var v, e := FirstToken(t), events + Events(t);
    var first := inside + [Entry(35, v)];
    ValueRun(run, inside, t, more, events);
    assert e + [] == e;
    ReduceRun(run, inside, [Entry(35, v)], first, more, e, 36, 0);
    Then(run, inside, input, events, Height(t), first, more, e, 0, inside + [Entry(36, v)], more, e, Height(t));
  }

  function ListRoom(es: seq<Tree>): nat {
    if es == [] then 1 else Max(Height(es[0]), if |es| == 1 then 1 else 1 + MoreHeight(es[1..]))
  }

  lemma {:induction false} ListElementsRun(run: Parser -> Parser, inside: seq<Entry>, es: seq<Tree>, tail: seq<Token>,
                                           events: seq<Event>, list: seq<Entry>)
    requires IsRun(run)
    requires Ready(inside) && Top(inside).state == 26 && Lookahead(tail) == LIST_END
    requires es != [] && forall i :: 0 <= i < |es| ==> Printable(es[i])
    requires list == inside + [Entry(36, FirstToken(es[0]))]
    ensures Gets(run, inside, ElementTokens(es) + tail, events, ListRoom(es), list, tail, events + ElementEvents(es))
    decreases es, 0
  {
    var x, all, e := FirstToken(es[0]), ElementTokens(es) + tail, events + ElementEvents(es);
    var more, e1 := MoreTokens(es[1..]) + tail, events + Events(es[0]);
    ElementsSplit(es, tail, events);
    MoreLookahead(es[1..], tail);
    FirstValueRun(run, inside, es[0], all, more, events);
    MoreValuesRun(run, inside, x, es[1..], tail, e1, list);
    Then(run, inside, all, events, Height(es[0]), list, more, e1, MoreHeight(es[1..]), list, tail, e, ListRoom(es));
  }

  lemma {:induction false} ListBodyRun(run: Parser -> Parser, inside: seq<Entry>, es: seq<Tree>, tail: seq<Token>, events: seq<Event>) returns (x: Token)
    requires IsRun(run)
    requires Ready(inside) && Top(inside).state == 26 && Lookahead(tail) == LIST_END
    requires forall i :: 0 <= i < |es| ==> Printable(es[i])
    ensures Gets(run, inside, ElementTokens(es) + tail, events, ListRoom(es),
                 inside + [Entry(37, x)], tail, events + ElementEvents(es))
    decreases es, 1
  {
    var all, e := ElementTokens(es) + tail, events + ElementEvents(es);
    assert e + [] == e;
    if es == [] {
      x := Garbage;
      assert inside + [] == inside && all == tail && e == events;
      ReduceRun(run, inside, [], inside, tail, events, 37, 1);
    } else {
      x := FirstToken(es[0]);
      var list := inside + [Entry(36, x)];
      ListElementsRun(run, inside, es, tail, events, list);
      ReduceRun(run, inside, [Entry(36, x)], list, tail, e, 37, 0);
      Then(run, inside, all, events, ListRoom(es), list, tail, e, 0, inside + [Entry(37, x)], tail, e, ListRoom(es));
    }
  }

  lemma {:induction false} ListRun(run: Parser -> Parser, base: seq<Entry>, es: seq<Tree>, rest: seq<Token>, events: seq<Event>)
    requires IsRun(run)
    requires Ready(base) && ValueState(Top(base).state) && Printable(ListOf(es))
    ensures Gets(run, base, Tokens(ListOf(es)) + rest, events, Height(ListOf(es)), WithValue(base, ListStart), rest,
                 events + Events(ListOf(es)))
    decreases es, 3
  {
    var tail := [ListEnd] + rest;
    OpenRun(run, base, LIST, ElementTokens(es) + tail, events);
    var x := ListBodyRun(run, Inside(base, LIST), es, tail, events + [Open(LIST)]);
    BracketSplit(LIST, ElementTokens(es), rest, events, ElementEvents(es));
    BracketRun(run, base, LIST, ElementTokens(es), rest, events, x, events + [Open(LIST)] + ElementEvents(es),
               ListRoom(es), Tokens(ListOf(es)) + rest, Height(ListOf(es)));
  }

  /** A printed value becomes a value on the stack, by the actions that build its tree. */
  lemma {:induction false} ValueRun(run: Parser -> Parser, base: seq<Entry>, t: Tree, rest: seq<Token>, events: seq<Event>)
    requires IsRun(run)
    requires Ready(base) && ValueState(Top(base).state) && Printable(t) && Lookahead(rest) != STRING
    ensures Gets(run, base, Tokens(t) + rest, events, Height(t), WithValue(base, FirstToken(t)), rest, events + Events(t))
    decreases t, 4
  {
    match t
    case GroupOf(ms) => GroupRun(run, base, ms, rest, events);
    case ArrayOf(es) => ArrayRun(run, base, es, rest, events);
    case ListOf(es) => ListRun(run, base, es, rest, events);
    case _ => ScalarValueRun(run, base, t, rest, events);
  }

  // ----- Whole configurations

  lemma {:induction false} EndRun(run: Parser -> Parser, base: seq<Entry>, v: Token, events: seq<Event>)
    requires IsRun(run)
    requires base == [Entry(0, Garbage)] && Ready(base + [Entry(2, v)])
    ensures run(At(base + [Entry(2, v)], [], events)).status == Accepted
    ensures run(At(base + [Entry(2, v)], [], events)).events == events
  {
    var c := At(base + [Entry(2, v)], [], events);
    DecideIsNext(2, END);
    assert Step(c) == ShiftToken(c, 6);
  }

  lemma {:induction false} EmptyRun(run: Parser -> Parser, base: seq<Entry>)
    requires IsRun(run)
    requires base == [Entry(0, Garbage)] && Ready(base)
    ensures run(At(base, [], [])).status == Accepted && run(At(base, [], [])).events == []
  {
    var none: seq<Event> := [];
    assert base + [] == base && none + ActionOf(2, Garbage) == none;
    ReduceRun(run, base, [], base, [], [], 2, 1);
    EndRun(run, base, Garbage, []);
  }

  lemma {:induction false} SettingsRun(run: Parser -> Parser, base: seq<Entry>, ms: seq<Member>)
    requires IsRun(run)
    requires base == [Entry(0, Garbage)] && Ready(base) && ms != [] && Printable(GroupOf(ms))
    ensures var c := run(At(base, MemberTokens(ms), []));
            if 1 + MembersHeight(ms) < YYMAXDEPTH then c.status == Accepted && c.events == MemberEvents(ms)
            else c.status == Exhausted
  {
    var tokens, e, v := MemberTokens(ms), MemberEvents(ms), Name(ms[0].name);
    assert tokens + [] == tokens && [] + e == e && e + [] == e;
    MembersRun(run, base, ms, [], [], 3);
    if 1 + MembersHeight(ms) < YYMAXDEPTH {
      ReduceRun(run, base, [Entry(3, v)], base + [Entry(3, v)], [], e, 2, 0);
      EndRun(run, base, v, e);
    }
  }

  function RunAny(c: Parser): Parser {
    if Sound(c) then Run(c) else c
  }

  lemma {:induction false} RunAnyIsRun()
    ensures IsRun(RunAny)
  {
    forall c: Parser | Sound(c) && c.status == Running
      ensures RunAny(c) == if Step(c).status == Running then RunAny(Step(c)) else Step(c)
    {
      StepSound(c);
      assert Run(c) == Run(Step(c));
      assert Step(c).status != Running ==> Run(Step(c)) == Step(c);
    }
  }

  lemma {:induction false} InitialReady(tokens: seq<Token>)
    ensures Ready([Entry(0, Garbage)]) && Parse(tokens) == RunAny(At([Entry(0, Garbage)], tokens, []))
  {
    assert OnPath(Initial(tokens).stack);
  }

  /**
   * The parser accepts what the printer writes for a configuration, with the actions that build its tree, if and only
   * if the stack stays below YYMAXDEPTH entries; otherwise it gives up.
   */
  lemma {:induction false} PrintedIsParsed(ms: seq<Member>)
    requires Printable(GroupOf(ms))
    ensures var c := Parse(MemberTokens(ms));
            if 1 + MembersHeight(ms) < YYMAXDEPTH then c.status == Accepted && c.events == MemberEvents(ms)
            else c.status == Exhausted
  {
    RunAnyIsRun();
    InitialReady(MemberTokens(ms));
    if ms == [] {
      EmptyRun(RunAny, [Entry(0, Garbage)]);
    } else {
      SettingsRun(RunAny, [Entry(0, Garbage)], ms);
    }
  }
}
