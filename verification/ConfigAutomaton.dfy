/** What the tables say, written out: the transitions of the automaton and the rules it reduces by. */
module ConfigAutomaton {
  import opened ConfigTables

  // ----- Symbols

  const BOOLEAN := 3
  const STRING := 9
  const NAME := 10
  const EQUALS := 11
  const ARRAY_START := 13
  const ARRAY_END := 14
  const LIST_START := 15
  const LIST_END := 16
  const COMMA := 17
  const GROUP_START := 18
  const GROUP_END := 19
  const SEMICOLON := 20

  const SETTING_LIST := 25
  const SETTING := 28
  const VALUE := 34
  const SIMPLE_VALUE := 36

  /** The states in which a value may begin, in a setting, at the start of a list and after a comma of a list. */
  predicate ValueState(q: int) { q == 8 || q == 26 || q == 42 }

  /** The states in which an element of an array may begin. */
  predicate ElementState(q: int) { q == 25 || q == 40 }

  predicate SettingState(q: int) { q == 0 || q == 3 || q == 27 || q == 38 }

  predicate IsScalarToken(k: int) { BOOLEAN <= k <= STRING }

  /** The transition of a state on a terminal, -1 for none. */
  function Next(q: int, k: int): int {
    if SettingState(q) && k == NAME then 1
    else if q == 2 && k == 0 then 6
    else if q == 5 && k == EQUALS then 8
    else if (ValueState(q) || ElementState(q)) && IsScalarToken(k) then
      (if k == 5 then 11 else if k == 6 then 12 else k + 6)
    else if ValueState(q) && k == ARRAY_START then 16
    else if ValueState(q) && k == LIST_START then 17
    else if ValueState(q) && k == GROUP_START then 18
    else if q == 21 && k == COMMA then 28
    else if q == 21 && k == SEMICOLON then 29
    else if q == 22 && k == STRING then 31
    else if q == 33 && k == COMMA then 40
    else if q == 34 && k == ARRAY_END then 41
    else if q == 36 && k == COMMA then 42
    else if q == 37 && k == LIST_END then 43
    else if q == 39 && k == GROUP_END then 44
    else -1
  }

  /** The parser shifts where the automaton has a transition and otherwise reduces by the default rule or fails. */
  predicate DecidesNext(q: nat, k: nat) {
    Decide(q, k) == if Next(q, k) >= 0 then Shift(Next(q, k)) else Default(q)
  }

  lemma {:induction false} DecideSettings(q: nat, k: nat)
    requires (q == 0 || q == 3 || q == 27 || q == 38) && k <= 22
    ensures DecidesNext(q, k)
  {
  }

  lemma {:induction false} DecideEnds(q: nat, k: nat)
    requires (q == 2 || q == 5 || q == 34 || q == 37 || q == 39) && k <= 22
    ensures DecidesNext(q, k)
  {
  }

  lemma {:induction false} DecideCommas(q: nat, k: nat)
    requires (q == 21 || q == 22 || q == 33 || q == 36) && k <= 22
    ensures DecidesNext(q, k)
  {
  }

  lemma {:induction false} DecideValues(q: nat, k: nat)
    requires (q == 8) && k <= 22
    ensures DecidesNext(q, k)
  {
  }

  lemma {:induction false} DecideLists(q: nat, k: nat)
    requires (q == 26) && k <= 22
    ensures DecidesNext(q, k)
  {
  }

  lemma {:induction false} DecideMembers(q: nat, k: nat)
    requires (q == 42) && k <= 22
    ensures DecidesNext(q, k)
  {
  }

  lemma {:induction false} DecideArrays(q: nat, k: nat)
    requires (q == 25) && k <= 22
    ensures DecidesNext(q, k)
  {
  }

  lemma {:induction false} DecideElements(q: nat, k: nat)
    requires (q == 40) && k <= 22
    ensures DecidesNext(q, k)
  {
  }

  lemma {:induction false} DecideReductions(q: nat, k: nat)
    requires q <= 46 && Yypact(q) == YYPACT_NINF && k <= 22
    ensures DecidesNext(q, k)
  {
  }

  lemma {:induction false} DecideIsNext(q: nat, k: nat)
    requires q <= 46 && k <= 22
    ensures DecidesNext(q, k)
  {
    if SettingState(q) {
      DecideSettings(q, k);
    } else if q == 8 {
      DecideValues(q, k);
    } else if q == 25 {
      DecideArrays(q, k);
    } else if q == 26 {
      DecideLists(q, k);
    } else if q == 40 {
      DecideElements(q, k);
    } else if q == 42 {
      DecideMembers(q, k);
    } else if q == 2 || q == 5 || q == 34 || q == 37 || q == 39 {
      DecideEnds(q, k);
    } else if q == 21 || q == 22 || q == 33 || q == 36 {
      DecideCommas(q, k);
    } else {
      DecideReductions(q, k);
    }
  }

  /**
   * No entry of the table is for the error token, so a syntax error is never recovered from: the parser's loop needs no
   * branch for recovery, and a state that decides to fail ends the parse.
   */
  lemma {:induction false} NoRecovery(n: nat)
    requires n <= YYLAST
    ensures Yycheck(n) != YYTERROR
  {
  }

  /** The edges of the automaton: which states can stand on which on the stack. */
  predicate Edge(p: int, q: int) {
    match q
    case 1 => SettingState(p)
    case 2 => p == 0
    case 3 => p == 0
    case 4 => p == 0 || p == 27
    case 5 => p == 1
    case 6 => p == 2
    case 7 => p == 3 || p == 38
    case 8 => p == 5
    case 16 => ValueState(p)
    case 17 => ValueState(p)
    case 18 => ValueState(p)
    case 19 => ValueState(p)
    case 20 => ValueState(p)
    case 21 => p == 8
    case 23 => ValueState(p)
    case 24 => ValueState(p)
    case 25 => p == 16
    case 26 => p == 17
    case 27 => p == 18
    case 28 => p == 21
    case 29 => p == 21
    case 30 => p == 21
    case 31 => p == 22
    case 32 => p == 25
    case 33 => p == 25
    case 34 => p == 25
    case 35 => p == 26
    case 36 => p == 26
    case 37 => p == 26
    case 38 => p == 27
    case 39 => p == 27
    case 40 => p == 33
    case 41 => p == 34
    case 42 => p == 36
    case 43 => p == 37
    case 44 => p == 39
    case 45 => p == 40
    case 46 => p == 42
    case _ => (9 <= q <= 15 || q == 22) && (ValueState(p) || ElementState(p))
  }

  lemma {:induction false} ShiftEdge(p: nat, k: nat)
    requires p <= 46 && k <= 22 && Next(p, k) >= 0
    ensures Edge(p, Next(p, k)) && Yystos(Next(p, k)) == k && Next(p, k) <= 46
  {
  }

  /** The state a rule is reduced to where its left-hand side may begin. */
  function Reached(p: int, symbol: int): int {
    if symbol == SETTING_LIST then (if p == 0 then 3 else 38)
    else if symbol == SETTING then (if p == 0 || p == 27 then 4 else 7)
    else if symbol == VALUE then (if p == 8 then 21 else if p == 26 then 35 else 46)
    else if symbol == SIMPLE_VALUE then (if p == 25 then 32 else if p == 40 then 45 else 23)
    else Yydefgoto(symbol - YYNTOKENS)
  }

  /** Whether a nonterminal may begin in a state. */
  predicate MayBegin(p: int, symbol: int) {
    match symbol
    case 24 => p == 0
    case 25 => p == 0 || p == 27
    case 26 => p == 27
    case 27 => p == 21
    case 28 => SettingState(p)
    case 29 => p == 1
    case 30 => ValueState(p)
    case 31 => p == 16
    case 32 => ValueState(p)
    case 33 => p == 17
    case 34 => ValueState(p)
    case 35 => ValueState(p) || ElementState(p)
    case 36 => ValueState(p) || ElementState(p)
    case 37 => p == 26
    case 38 => p == 26
    case 39 => p == 25
    case 40 => p == 25
    case 41 => ValueState(p)
    case 42 => p == 18
    case _ => false
  }

  lemma {:induction false} GotoEdge(p: nat, symbol: nat)
    requires p <= 46 && MayBegin(p, symbol)
    ensures Goto(p, symbol) == Reached(p, symbol) && 0 <= Reached(p, symbol) <= 46
    ensures Edge(p, Reached(p, symbol)) && Yystos(Reached(p, symbol)) == symbol
  {
  }

  // ----- Termination

  /** Reductions lead down: the rank of the top of the stack falls until a token is shifted. */
  function Rank(q: int): nat {
    match q
    case 0 => 1
    case 1 => 1
    case 3 => 1
    case 4 => 2
    case 6 => 1
    case 7 => 2
    case 16 => 2
    case 17 => 2
    case 18 => 2
    case 21 => 4
    case 22 => 6
    case 25 => 1
    case 26 => 1
    case 27 => 1
    case 28 => 4
    case 29 => 4
    case 30 => 3
    case 33 => 1
    case 35 => 4
    case 36 => 1
    case 38 => 1
    case 41 => 6
    case 43 => 6
    case 44 => 6
    case 46 => 4
    case _ => if 9 <= q <= 15 || q == 31 then 7 else if q == 19 || q == 20 || q == 23 || q == 24 || q == 32 || q == 45 then 5 else 0
  }

  lemma {:induction false} ReductionsLowerFirst(q: nat, p: nat)
    requires q < 23 && p <= 46 && q != YYFINAL && Yydefact(q) != 0
    ensures Rank(Goto(p, Yyr1(Yydefact(q)))) < Rank(q) && 0 <= Goto(p, Yyr1(Yydefact(q))) <= 46
  {
  }

  lemma {:induction false} ReductionsLower(q: nat, p: nat)
    requires q <= 46 && p <= 46 && q != YYFINAL && Yydefact(q) != 0
    ensures Rank(Goto(p, Yyr1(Yydefact(q)))) < Rank(q) && 0 <= Goto(p, Yyr1(Yydefact(q))) <= 46
  {
    if q < 23 {
      ReductionsLowerFirst(q, p);
    }
  }
}
