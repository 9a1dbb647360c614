/** The tables of the generated LALR parser, and the parsing decisions the parser reads off them. */
module ConfigTables {

  const YYFINAL := 6
  const YYLAST := 35
  const YYNTOKENS := 23
  const YYPACT_NINF := -26
  const YYTERROR := 1

  /** The symbol that a rule derives. */
  function Yyr1(rule: int): int {
    match rule
    case 0 => 0
    case 1 => 23
    case 2 => 24
    case 3 => 24
    case 4 => 25
    case 5 => 25
    case 6 => 26
    case 7 => 26
    case 8 => 27
    case 9 => 27
    case 10 => 27
    case 11 => 29
    case 12 => 28
    case 13 => 31
    case 14 => 30
    case 15 => 33
    case 16 => 32
    case 17 => 34
    case 18 => 34
    case 19 => 34
    case 20 => 34
    case 21 => 35
    case 22 => 35
    case 30 => 37
    case 31 => 37
    case 32 => 38
    case 33 => 38
    case 34 => 39
    case 35 => 39
    case 36 => 40
    case 37 => 40
    case 38 => 42
    case 39 => 41
    case _ => 36
  }

  /** The number of symbols on the right-hand side of a rule. */
  function Yyr2(rule: int): nat {
    match rule
    case 0 => 0
    case 1 => 2
    case 2 => 0
    case 5 => 2
    case 6 => 0
    case 8 => 0
    case 11 => 0
    case 12 => 5
    case 13 => 0
    case 14 => 4
    case 15 => 0
    case 16 => 4
    case 22 => 2
    case 31 => 3
    case 32 => 0
    case 35 => 3
    case 36 => 0
    case 38 => 0
    case 39 => 4
    case _ => 1
  }

  /** The default rule of a state, 0 for an error. */
  function Yydefact(state: int): nat {
    match state
    case 0 => 2
    case 1 => 11
    case 3 => 3
    case 4 => 4
    case 6 => 1
    case 7 => 5
    case 9 => 23
    case 10 => 24
    case 11 => 26
    case 12 => 25
    case 13 => 27
    case 14 => 28
    case 15 => 21
    case 16 => 13
    case 17 => 15
    case 18 => 38
    case 19 => 18
    case 20 => 19
    case 21 => 8
    case 22 => 29
    case 23 => 17
    case 24 => 20
    case 25 => 36
    case 26 => 32
    case 27 => 6
    case 28 => 10
    case 29 => 9
    case 30 => 12
    case 31 => 22
    case 32 => 34
    case 33 => 37
    case 35 => 30
    case 36 => 33
    case 38 => 7
    case 41 => 14
    case 43 => 16
    case 44 => 39
    case 45 => 35
    case 46 => 31
    case _ => 0
  }

  /** The default goto of a nonterminal. */
  function Yydefgoto(n: int): int {
    match n
    case 1 => 2
    case 2 => 3
    case 3 => 39
    case 4 => 30
    case 5 => 4
    case 6 => 5
    case 7 => 19
    case 8 => 25
    case 9 => 20
    case 10 => 26
    case 11 => 21
    case 12 => 22
    case 13 => 23
    case 14 => 36
    case 15 => 37
    case 16 => 33
    case 17 => 34
    case 18 => 24
    case 19 => 27
    case _ => -1
  }

  /** Where the actions of a state begin in the table. */
  function Yypact(state: int): int {
    match state
    case 0 => -8
    case 2 => 12
    case 3 => -8
    case 5 => 5
    case 8 => 0
    case 21 => -6
    case 22 => 10
    case 25 => 23
    case 26 => 0
    case 27 => -8
    case 33 => 3
    case 34 => 7
    case 36 => 6
    case 37 => 8
    case 38 => -8
    case 39 => 14
    case 40 => 23
    case 42 => 0
    case _ => -26
  }

  /** Where the gotos of a nonterminal begin in the table. */
  function Yypgoto(n: int): int {
    match n
    case 2 => -5
    case 5 => -3
    case 11 => -25
    case 13 => -15
    case _ => -26
  }

  /** The table. */
  function Yytable(n: int): int {
    match n
    case 1 => 35
    case 2 => 1
    case 3 => 9
    case 4 => 10
    case 5 => 11
    case 6 => 12
    case 7 => 13
    case 8 => 14
    case 9 => 15
    case 10 => 32
    case 11 => 28
    case 12 => 6
    case 13 => 16
    case 14 => 29
    case 15 => 17
    case 16 => 8
    case 17 => 46
    case 18 => 18
    case 19 => 31
    case 20 => 40
    case 21 => 41
    case 22 => 38
    case 23 => 42
    case 24 => 43
    case 25 => 45
    case 26 => 9
    case 27 => 10
    case 28 => 11
    case 29 => 12
    case 30 => 13
    case 31 => 14
    case 32 => 15
    case 33 => 44
    case 34 => 0
    case _ => 7
  }

  /** Who an entry of the table belongs to. */
  function Yycheck(n: int): int {
    match n
    case 1 => 26
    case 2 => 10
    case 4 => 4
    case 5 => 5
    case 6 => 6
    case 7 => 7
    case 8 => 8
    case 9 => 9
    case 10 => 25
    case 11 => 17
    case 12 => 0
    case 13 => 13
    case 14 => 20
    case 15 => 15
    case 16 => 11
    case 17 => 42
    case 18 => 18
    case 19 => 9
    case 20 => 17
    case 21 => 14
    case 22 => 27
    case 23 => 17
    case 24 => 16
    case 25 => 40
    case 27 => 4
    case 28 => 5
    case 29 => 6
    case 30 => 7
    case 31 => 8
    case 32 => 9
    case 33 => 19
    case 34 => -1
    case 35 => 38
    case _ => 3
  }

  /** The symbol by which a state is entered. */
  function Yystos(state: int): nat {
    match state
    case 0 => 0
    case 1 => 10
    case 2 => 24
    case 3 => 25
    case 4 => 28
    case 5 => 29
    case 6 => 0
    case 7 => 28
    case 8 => 11
    case 9 => 3
    case 10 => 4
    case 11 => 5
    case 12 => 6
    case 13 => 7
    case 14 => 8
    case 15 => 9
    case 16 => 13
    case 17 => 15
    case 18 => 18
    case 19 => 30
    case 20 => 32
    case 22 => 35
    case 23 => 36
    case 24 => 41
    case 25 => 31
    case 26 => 33
    case 27 => 42
    case 28 => 17
    case 29 => 20
    case 30 => 27
    case 31 => 9
    case 32 => 36
    case 33 => 39
    case 34 => 40
    case 36 => 37
    case 37 => 38
    case 38 => 25
    case 39 => 26
    case 40 => 17
    case 41 => 14
    case 42 => 17
    case 43 => 16
    case 44 => 19
    case 45 => 36
    case _ => 34
  }

  datatype Action = Shift(state: nat) | Reduce(rule: nat) | Fail

  function Default(state: nat): Action {
    if Yydefact(state) == 0 then Fail else Reduce(Yydefact(state))
  }

  /** The decision in a state on a lookahead token. */
  function Decide(state: nat, token: nat): Action {
    if Yypact(state) == YYPACT_NINF then Default(state)
    else
      var n := Yypact(state) + token;
      if n < 0 || YYLAST < n || Yycheck(n) != token then Default(state)
      else if Yytable(n) <= 0 then Fail
      else Shift(Yytable(n))
  }

  /** The state after a reduction to a nonterminal that uncovers a state. */
  function Goto(state: nat, symbol: int): int {
    var n := Yypgoto(symbol - YYNTOKENS) + state;
    if 0 <= n <= YYLAST && Yycheck(n) == state then Yytable(n) else Yydefgoto(symbol - YYNTOKENS)
  }

  /** The symbols of a rule's right-hand side. */
  function Rhs(rule: nat): seq<int> {
    match rule
    case 1 => [24, 0]
    case 3 => [25]
    case 4 => [28]
    case 5 => [25, 28]
    case 7 => [25]
    case 9 => [20]
    case 10 => [17]
    case 12 => [10, 29, 11, 34, 27]
    case 14 => [13, 31, 40, 14]
    case 16 => [15, 33, 38, 16]
    case 17 => [36]
    case 18 => [30]
    case 19 => [32]
    case 20 => [41]
    case 21 => [9]
    case 22 => [35, 9]
    case 23 => [3]
    case 24 => [4]
    case 25 => [6]
    case 26 => [5]
    case 27 => [7]
    case 28 => [8]
    case 29 => [35]
    case 30 => [34]
    case 31 => [37, 17, 34]
    case 33 => [37]
    case 34 => [36]
    case 35 => [39, 17, 36]
    case 37 => [39]
    case 39 => [18, 42, 26, 19]
    case _ => []
  }
}
