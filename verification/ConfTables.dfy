/** The tables that drive the configuration parser. */
module ConfTables {
  /** Where the row of a state starts in the table; -25 when the state has none. */
  function Pact(i: nat): (v: int) {
    if i < 10 then [-3, 1, 24, -25, -3, 2, 66, -25, -25, -1][i]
    else if i < 20 then [74, 2, 4, -25, -25, 2, -2, -10, 39, -25][i - 10]
    else if i < 30 then [-25, -25, -10, 82, 19, 41, 42, 86, 65, -25][i - 20]
    else if i < 40 then [61, 22, -25, -25, -25, -25, 43, -25, 7, -25][i - 30]
    else if i < 50 then [84, 72, 62, 19, 52, -25, 81, -10, -10, -10][i - 40]
    else if i < 60 then [-10, -10, -10, -10, -25, -10, -25, 54, 54, -25][i - 50]
    else if i < 70 then [52, 52, 54, 59, 42, 101, 69, 104, -10, -25][i - 60]
    else if i < 80 then [-25, 76, 52, -25, 80, -25, -25, -25, -25, -25][i - 70]
    else if i < 90 then [-25, 95, 84, 88, 88, 81, 81, 54, -25, -25][i - 80]
    else if i < 95 then [-25, -25, -25, -25, -25][i - 90]
    else 0
  }

  /** The rule a state reduces when the table says nothing; 0 for an error. */
  function DefAct(i: nat): (v: int) {
    if i < 10 then [4, 0, 0, 2, 4, 8, 0, 1, 3, 0][i]
    else if i < 20 then [0, 8, 0, 9, 10, 8, 8, 0, 0, 6][i - 10]
    else if i < 30 then [7, 16, 0, 0, 0, 0, 38, 0, 26, 28][i - 20]
    else if i < 40 then [0, 0, 11, 12, 13, 14, 8, 24, 0, 5][i - 30]
    else if i < 50 then [38, 0, 0, 0, 0, 29, 35, 0, 0, 0][i - 40]
    else if i < 60 then [0, 0, 0, 0, 41, 0, 42, 0, 0, 43][i - 50]
    else if i < 70 then [0, 0, 0, 0, 0, 0, 0, 0, 0, 31][i - 60]
    else if i < 80 then [34, 0, 0, 38, 0, 17, 18, 19, 20, 21][i - 70]
    else if i < 90 then [22, 0, 0, 32, 33, 36, 37, 0, 39, 40][i - 80]
    else if i < 95 then [15, 23, 30, 27, 25][i - 90]
    else 0
  }

  /** Where the row of a nonterminal starts in the table. */
  function PGoto(i: nat): (v: int) {
    if i < 10 then [-25, -25, 107, -25, -7, -25, -15, -25, -25, -25][i]
    else if i < 15 then [57, -24, -16, -13, -25][i - 10]
    else 0
  }

  /** Where a state goes on a nonterminal when the table says nothing. */
  function DefGoto(i: nat): (v: int) {
    if i < 10 then [-1, 2, 3, 4, 10, 11, 37, 12, 13, 28][i]
    else if i < 15 then [38, 29, 41, 42, 14][i - 10]
    else 0
  }

  /** The packed table of target states. */
  function Table(i: nat): (v: int) {
    if i < 10 then [30, 45, 35, 31, 20, 5, 16, 24, 23, 27][i]
    else if i < 20 then [21, 17, 46, 22, 32, 33, 34, 67, 68, 25][i - 10]
    else if i < 30 then [66, 1, 26, 18, 7, 6, 9, 71, 24, 65][i - 20]
    else if i < 40 then [59, 46, 74, 75, 76, 77, 78, 79, 80, 45][i - 30]
    else if i < 50 then [25, 83, 84, 40, 60, 61, 36, 85, 86, 16][i - 40]
    else if i < 60 then [43, 47, 62, 91, 17, 48, 49, 50, 51, 52][i - 50]
    else if i < 70 then [53, 72, 44, 62, 63, 40, 18, 64, 87, 56][i - 60]
    else if i < 80 then [15, 71, 70, 44, 55, 63, 73, 89, 82, 19][i - 70]
    else if i < 90 then [57, 58, 69, 82, 60, 61, 92, 39, 57, 58][i - 80]
    else if i < 100 then [93, 57, 58, 47, 54, 57, 58, 48, 49, 50][i - 90]
    else if i < 110 then [51, 52, 53, 60, 61, 94, 68, 57, 58, 88][i - 100]
    else if i < 113 then [90, 8, 81][i - 110]
    else 0
  }

  /** Which token, or state, an element of the table belongs to. */
  function Check(i: nat): (v: int) {
    if i < 10 then [16, 25, 17, 16, 11, 4, 7, 9, 15, 16][i]
    else if i < 20 then [6, 12, 25, 9, 24, 25, 26, 10, 11, 21][i - 10]
    else if i < 30 then [36, 24, 24, 24, 0, 24, 24, 43, 9, 36][i - 20]
    else if i < 40 then [8, 44, 47, 48, 49, 50, 51, 52, 53, 63][i - 30]
    else if i < 50 then [21, 57, 58, 24, 22, 23, 7, 60, 61, 7][i - 40]
    else if i < 60 then [9, 9, 9, 68, 12, 13, 14, 15, 16, 17][i - 50]
    else if i < 70 then [18, 9, 21, 9, 21, 24, 24, 24, 9, 8][i - 60]
    else if i < 80 then [4, 87, 10, 21, 9, 21, 24, 8, 24, 5][i - 70]
    else if i < 90 then [19, 20, 10, 24, 22, 23, 10, 5, 19, 20][i - 80]
    else if i < 100 then [10, 19, 20, 9, 8, 19, 20, 13, 14, 15][i - 90]
    else if i < 110 then [16, 17, 18, 22, 23, 10, 11, 19, 20, 8][i - 100]
    else if i < 113 then [6, 4, 55][i - 110]
    else 0
  }

  /** The symbol on the left of a rule. */
  function Rule1(i: nat): (v: int) {
    if i < 10 then [0, 27, 28, 29, 29, 30, 30, 31, 31, 32][i]
    else if i < 20 then [32, 33, 33, 33, 34, 35, 35, 36, 36, 36][i - 10]
    else if i < 30 then [36, 36, 36, 37, 37, 38, 38, 38, 39, 39][i - 20]
    else if i < 40 then [39, 39, 39, 39, 40, 40, 40, 40, 40, 41][i - 30]
    else if i < 44 then [41, 41, 41, 41][i - 40]
    else 0
  }

  /** The number of symbols on the right of a rule. */
  function Rule2(i: nat): (v: int) {
    if i < 10 then [0, 2, 1, 2, 0, 5, 4, 2, 0, 1][i]
    else if i < 20 then [1, 1, 1, 1, 3, 5, 2, 3, 3, 3][i - 10]
    else if i < 30 then [3, 3, 3, 3, 1, 4, 1, 4, 1, 2][i - 20]
    else if i < 40 then [4, 3, 3, 3, 3, 2, 3, 3, 1, 5][i - 30]
    else if i < 44 then [5, 4, 4, 4][i - 40]
    else 0
  }

  const NO_ROW := -25
  const LAST := 112
  const TOKENS := 27
  const FINAL := 7

  datatype Action = Shift(state: nat) | Reduce(rule: nat) | Fail

  function Default(s: nat): (a: Action) {
    if DefAct(s) > 0 then Reduce(DefAct(s)) else Fail
  }

  /** What to do in state `s` with the next token `tok`. */
  function ActionOf(s: nat, tok: nat): (a: Action) {
    var n := Pact(s);
    if n == NO_ROW then Default(s)
    else if n + tok < 0 || n + tok > LAST || Check(n + tok) != tok then Default(s)
    else if Table(n + tok) > 0 then Shift(Table(n + tok))
    else Reduce(-Table(n + tok))
  }

  /** The state after a nonterminal was recognised in state `s`. */
  function GotoOf(s: nat, symbol: nat): (t: int) {
    if symbol < TOKENS then -1
    else
      var n := PGoto(symbol - TOKENS) + s;
      if 0 <= n <= LAST && Check(n) == s then Table(n) else DefGoto(symbol - TOKENS)
  }

  /* ---- tokens and nonterminals of expressions ---- */

  const END_SUB_BLOCK := 8
  const OPEN := 9
  const CLOSE := 10
  const COMMA := 11
  const EQUAL := 13
  const DIFF := 14
  const GT := 15
  const GT_EQ := 16
  const LT := 17
  const LT_EQ := 18
  const AND := 19
  const OR := 20
  const NOT := 21
  const IDENTIFIER := 24
  const NON_IDENTIFIER := 25
  const ENV_VAR := 26

  const VALUE := 33
  const KEY_VALUE := 36
  const ARGLIST := 37
  const EXTENDED := 38
  const EXPRESSION := 39

  /** States in which an expression may begin. */
  predicate Begins(s: nat) { s in {16, 24, 36, 43, 57, 58, 62, 87} }

  /** States of which the rows of a parenthesis, a negation and an identifier are those of a fresh block. */
  predicate Fresh(s: nat) { s in {16, 24, 43} }

  function AfterOpen(s: nat): (t: nat) { if Fresh(s) then 24 else 62 }
  function AfterNot(s: nat): (t: nat) { if Fresh(s) then 25 else 63 }
  function AfterNotOpen(s: nat): (t: nat) { if Fresh(s) then 43 else 87 }

  function AfterIdentifier(s: nat): (t: nat) {
    if s == 16 then 26 else if s == 36 then 64 else if s in {24, 43, 25} then 40 else 82
  }

  function AfterExpression(s: nat): (t: nat) {
    if s == 16 then 30 else if s == 36 then 66 else if s in {24, 62} then 41 else if s in {43, 87} then 71
    else if s == 57 then 83 else 84
  }

  lemma OpenEarly()
    ensures ActionOf(16, OPEN) == Shift(24)
    ensures ActionOf(24, OPEN) == Shift(24)
    ensures ActionOf(36, OPEN) == Shift(62)
    ensures ActionOf(43, OPEN) == Shift(24)
  {
  }

  lemma OpenLate()
    ensures ActionOf(57, OPEN) == Shift(62)
    ensures ActionOf(58, OPEN) == Shift(62)
    ensures ActionOf(62, OPEN) == Shift(62)
    ensures ActionOf(87, OPEN) == Shift(62)
  {
  }

  lemma NegationEarly()
    ensures ActionOf(16, NOT) == Shift(25)
    ensures ActionOf(24, NOT) == Shift(25)
    ensures ActionOf(36, NOT) == Shift(63)
    ensures ActionOf(43, NOT) == Shift(25)
  {
  }

  lemma NegationLate()
    ensures ActionOf(57, NOT) == Shift(63)
    ensures ActionOf(58, NOT) == Shift(63)
    ensures ActionOf(62, NOT) == Shift(63)
    ensures ActionOf(87, NOT) == Shift(63)
  {
  }

  lemma IdentifierEarly()
    ensures ActionOf(16, IDENTIFIER) == Shift(26)
    ensures ActionOf(24, IDENTIFIER) == Shift(40)
    ensures ActionOf(36, IDENTIFIER) == Shift(64)
    ensures ActionOf(43, IDENTIFIER) == Shift(40)
  {
  }

  lemma IdentifierLate()
    ensures ActionOf(57, IDENTIFIER) == Shift(82)
    ensures ActionOf(58, IDENTIFIER) == Shift(82)
    ensures ActionOf(62, IDENTIFIER) == Shift(82)
    ensures ActionOf(87, IDENTIFIER) == Shift(82)
  {
  }

  lemma BeginRows(s: nat)
    requires Begins(s)
    ensures ActionOf(s, OPEN) == Shift(AfterOpen(s)) && Begins(AfterOpen(s))
    ensures ActionOf(s, NOT) == Shift(AfterNot(s))
    ensures ActionOf(s, IDENTIFIER) == Shift(AfterIdentifier(s))
  {
    OpenEarly();
    OpenLate();
    NegationEarly();
    NegationLate();
    IdentifierEarly();
    IdentifierLate();
  }

  lemma BeginGotos(s: nat)
    requires Begins(s)
    ensures GotoOf(s, EXPRESSION) == AfterExpression(s)
    ensures GotoOf(s, EXTENDED) == 29 && GotoOf(s, KEY_VALUE) == 28
  {
  }

  lemma NotRows(s: nat)
    requires s == 25 || s == 63
    ensures ActionOf(s, OPEN) == Shift(if s == 25 then 43 else 87)
    ensures ActionOf(s, IDENTIFIER) == Shift(AfterIdentifier(s))
    ensures GotoOf(s, EXTENDED) == 45 && GotoOf(s, KEY_VALUE) == 28
  {
    NotFacts();
    NotGotos();
  }

  lemma NotFacts()
    ensures ActionOf(25, OPEN) == Shift(43)
    ensures ActionOf(25, IDENTIFIER) == Shift(40)
    ensures ActionOf(63, OPEN) == Shift(87)
    ensures ActionOf(63, IDENTIFIER) == Shift(82)
  {
  }

  lemma NotGotos()
    ensures GotoOf(25, EXTENDED) == 45
    ensures GotoOf(25, KEY_VALUE) == 28
    ensures GotoOf(63, EXTENDED) == 45
    ensures GotoOf(63, KEY_VALUE) == 28
  {
  }

  lemma Comparators26()
    ensures ActionOf(26, EQUAL) == Shift(48)
    ensures ActionOf(26, DIFF) == Shift(49)
    ensures ActionOf(26, GT) == Shift(50)
    ensures ActionOf(26, GT_EQ) == Shift(51)
    ensures ActionOf(26, LT) == Shift(52)
    ensures ActionOf(26, LT_EQ) == Shift(53)
  {
  }

  lemma Comparators40()
    ensures ActionOf(40, EQUAL) == Shift(48)
    ensures ActionOf(40, DIFF) == Shift(49)
    ensures ActionOf(40, GT) == Shift(50)
    ensures ActionOf(40, GT_EQ) == Shift(51)
    ensures ActionOf(40, LT) == Shift(52)
    ensures ActionOf(40, LT_EQ) == Shift(53)
  {
  }

  lemma Comparators64()
    ensures ActionOf(64, EQUAL) == Shift(48)
    ensures ActionOf(64, DIFF) == Shift(49)
    ensures ActionOf(64, GT) == Shift(50)
    ensures ActionOf(64, GT_EQ) == Shift(51)
    ensures ActionOf(64, LT) == Shift(52)
    ensures ActionOf(64, LT_EQ) == Shift(53)
  {
  }

  lemma Comparators82()
    ensures ActionOf(82, EQUAL) == Shift(48)
    ensures ActionOf(82, DIFF) == Shift(49)
    ensures ActionOf(82, GT) == Shift(50)
    ensures ActionOf(82, GT_EQ) == Shift(51)
    ensures ActionOf(82, LT) == Shift(52)
    ensures ActionOf(82, LT_EQ) == Shift(53)
  {
  }

  lemma ComparedIdentifier()
    ensures ActionOf(48, IDENTIFIER) == Shift(32)
    ensures ActionOf(49, IDENTIFIER) == Shift(32)
    ensures ActionOf(50, IDENTIFIER) == Shift(32)
    ensures ActionOf(51, IDENTIFIER) == Shift(32)
    ensures ActionOf(52, IDENTIFIER) == Shift(32)
    ensures ActionOf(53, IDENTIFIER) == Shift(32)
  {
  }

  lemma ComparedOther()
    ensures ActionOf(48, NON_IDENTIFIER) == Shift(33)
    ensures ActionOf(49, NON_IDENTIFIER) == Shift(33)
    ensures ActionOf(50, NON_IDENTIFIER) == Shift(33)
    ensures ActionOf(51, NON_IDENTIFIER) == Shift(33)
    ensures ActionOf(52, NON_IDENTIFIER) == Shift(33)
    ensures ActionOf(53, NON_IDENTIFIER) == Shift(33)
  {
  }

  lemma ComparedGoto()
    ensures GotoOf(48, VALUE) == 75
    ensures GotoOf(49, VALUE) == 76
    ensures GotoOf(50, VALUE) == 77
    ensures GotoOf(51, VALUE) == 78
    ensures GotoOf(52, VALUE) == 79
    ensures GotoOf(53, VALUE) == 80
  {
  }

  lemma ComparisonRules()
    ensures Rule1(17) == KEY_VALUE && Rule2(17) == 3
    ensures Rule1(18) == KEY_VALUE && Rule2(18) == 3
    ensures Rule1(19) == KEY_VALUE && Rule2(19) == 3
    ensures Rule1(20) == KEY_VALUE && Rule2(20) == 3
    ensures Rule1(21) == KEY_VALUE && Rule2(21) == 3
    ensures Rule1(22) == KEY_VALUE && Rule2(22) == 3
  {
  }

  lemma ComparisonStates()
    ensures Pact(75) == NO_ROW && DefAct(75) == 17
    ensures Pact(76) == NO_ROW && DefAct(76) == 18
    ensures Pact(77) == NO_ROW && DefAct(77) == 19
    ensures Pact(78) == NO_ROW && DefAct(78) == 20
    ensures Pact(79) == NO_ROW && DefAct(79) == 21
    ensures Pact(80) == NO_ROW && DefAct(80) == 22
  {
  }

  /** The six comparators, with the states after them and the rules they end in. */
  datatype Comparison = Comparison(tok: nat, after: nat, done: nat, rule: nat)

  function ComparisonOf(k: nat): (r: Comparison) {
    if k == 0 then Comparison(EQUAL, 48, 75, 17)
    else if k == 1 then Comparison(DIFF, 49, 76, 18)
    else if k == 2 then Comparison(GT, 50, 77, 19)
    else if k == 3 then Comparison(GT_EQ, 51, 78, 20)
    else if k == 4 then Comparison(LT, 52, 79, 21)
    else Comparison(LT_EQ, 53, 80, 22)
  }

  lemma ComparatorRows(s: nat, k: nat)
    requires s in {26, 40, 64, 82} && k < 6
    ensures ActionOf(s, ComparisonOf(k).tok) == Shift(ComparisonOf(k).after)
  {
    if s == 26 {
      Comparators26();
    } else if s == 40 {
      Comparators40();
    } else if s == 64 {
      Comparators64();
    } else {
      Comparators82();
    }
  }

  lemma ComparedRows(k: nat)
    requires k < 6
    ensures var c := ComparisonOf(k);
      && ActionOf(c.after, IDENTIFIER) == Shift(32) && ActionOf(c.after, NON_IDENTIFIER) == Shift(33)
      && GotoOf(c.after, VALUE) == c.done
  {
    ComparedIdentifier();
    ComparedOther();
    ComparedGoto();
  }

  lemma ComparisonEnds(k: nat, tok: nat)
    requires k < 6
    ensures var c := ComparisonOf(k);
      ActionOf(c.done, tok) == Reduce(c.rule) && Rule1(c.rule) == KEY_VALUE && Rule2(c.rule) == 3
  {
    ComparisonRules();
    ComparisonStates();
  }

  lemma ArgumentEarly()
    ensures ActionOf(28, OPEN) == Shift(55)
    ensures ActionOf(55, IDENTIFIER) == Shift(32) && ActionOf(55, NON_IDENTIFIER) == Shift(33)
    ensures GotoOf(55, VALUE) == 37 && GotoOf(55, ARGLIST) == 81
  {
  }

  lemma ArgumentLate()
    ensures ActionOf(81, COMMA) == Shift(68) && ActionOf(81, CLOSE) == Shift(94)
    ensures ActionOf(68, IDENTIFIER) == Shift(32) && ActionOf(68, NON_IDENTIFIER) == Shift(33)
    ensures GotoOf(68, VALUE) == 91
  {
  }

  /** What follows an expression. */
  predicate Follows(tok: nat) { tok in {AND, OR, CLOSE, END_SUB_BLOCK} }

  predicate Closes(tok: nat) { tok == CLOSE || tok == END_SUB_BLOCK }

  lemma AndEarly()
    ensures ActionOf(30, AND) == Shift(57)
    ensures ActionOf(41, AND) == Shift(57)
    ensures ActionOf(66, AND) == Shift(57)
  {
  }

  lemma AndLate()
    ensures ActionOf(71, AND) == Shift(57)
    ensures ActionOf(83, AND) == Shift(57)
    ensures ActionOf(84, AND) == Shift(57)
  {
  }

  lemma OrEarly()
    ensures ActionOf(30, OR) == Shift(58)
    ensures ActionOf(41, OR) == Shift(58)
    ensures ActionOf(66, OR) == Shift(58)
  {
  }

  lemma OrLate()
    ensures ActionOf(71, OR) == Shift(58)
    ensures ActionOf(83, OR) == Shift(58)
    ensures ActionOf(84, OR) == Shift(58)
  {
  }

  lemma AndClosed()
    ensures ActionOf(83, CLOSE) == Reduce(32)
  {
  }

  lemma AndEnded()
    ensures ActionOf(83, END_SUB_BLOCK) == Reduce(32)
  {
  }

  lemma OrClosed()
    ensures ActionOf(84, CLOSE) == Reduce(33)
  {
  }

  lemma OrEnded()
    ensures ActionOf(84, END_SUB_BLOCK) == Reduce(33)
  {
  }

  lemma GroupClosed()
    ensures ActionOf(41, CLOSE) == Shift(69)
  {
  }

  lemma NegationClosed()
    ensures ActionOf(71, CLOSE) == Shift(92)
  {
  }

  lemma KeyValueRows()
    ensures ActionOf(28, AND) == Reduce(26)
    ensures ActionOf(28, OR) == Reduce(26)
    ensures ActionOf(28, CLOSE) == Reduce(26)
    ensures ActionOf(28, END_SUB_BLOCK) == Reduce(26)
  {
  }

  lemma AfterRows(s: nat)
    requires Begins(s)
    ensures ActionOf(AfterExpression(s), AND) == Shift(57) && ActionOf(AfterExpression(s), OR) == Shift(58)
  {
    AndEarly();
    AndLate();
    OrEarly();
    OrLate();
  }

  lemma FollowRows(tok: nat)
    requires Follows(tok)
    ensures ActionOf(28, tok) == Reduce(26)
    ensures Closes(tok) ==> ActionOf(83, tok) == Reduce(32) && ActionOf(84, tok) == Reduce(33)
  {
    KeyValueRows();
    AndClosed();
    AndEnded();
    OrClosed();
    OrEnded();
    GroupClosed();
    NegationClosed();
  }

  /** States that reduce whatever comes next. */
  lemma DefaultRows(tok: nat)
    ensures ActionOf(32, tok) == Reduce(11) && ActionOf(33, tok) == Reduce(12)
    ensures ActionOf(37, tok) == Reduce(24) && ActionOf(91, tok) == Reduce(23) && ActionOf(94, tok) == Reduce(25)
    ensures ActionOf(29, tok) == Reduce(28) && ActionOf(45, tok) == Reduce(29)
    ensures ActionOf(69, tok) == Reduce(31) && ActionOf(92, tok) == Reduce(30)
  {
  }

  lemma RuleShapes()
    ensures Rule1(11) == VALUE && Rule2(11) == 1 && Rule1(12) == VALUE && Rule2(12) == 1
    ensures Rule1(23) == ARGLIST && Rule2(23) == 3 && Rule1(24) == ARGLIST && Rule2(24) == 1
    ensures Rule1(25) == EXTENDED && Rule2(25) == 4 && Rule1(26) == EXTENDED && Rule2(26) == 1
    ensures Rule1(28) == EXPRESSION && Rule2(28) == 1 && Rule1(29) == EXPRESSION && Rule2(29) == 2
    ensures Rule1(30) == EXPRESSION && Rule2(30) == 4 && Rule1(31) == EXPRESSION && Rule2(31) == 3
    ensures Rule1(32) == EXPRESSION && Rule2(32) == 3 && Rule1(33) == EXPRESSION && Rule2(33) == 3
  {
  }

  /* ---- the automaton, and all that expressions need of it ---- */

  datatype Automaton = Automaton(action: (nat, nat) -> Action, goto: (nat, nat) -> int, left: nat -> int, len: nat -> int)

  function Conf(): (m: Automaton) {
    Automaton(ActionOf, GotoOf, Rule1, Rule2)
  }

  ghost predicate Rule(m: Automaton, rule: nat, left: nat, len: nat) {
    m.left(rule) == left && m.len(rule) == len
  }

  ghost predicate ExprRules(m: Automaton) {
    && Rule(m, 11, VALUE, 1) && Rule(m, 12, VALUE, 1)
    && (forall k :: 0 <= k < 6 ==> Rule(m, ComparisonOf(k).rule, KEY_VALUE, 3))
    && Rule(m, 23, ARGLIST, 3) && Rule(m, 24, ARGLIST, 1)
    && Rule(m, 25, EXTENDED, 4) && Rule(m, 26, EXTENDED, 1)
    && Rule(m, 28, EXPRESSION, 1) && Rule(m, 29, EXPRESSION, 2) && Rule(m, 30, EXPRESSION, 4)
    && Rule(m, 31, EXPRESSION, 3) && Rule(m, 32, EXPRESSION, 3) && Rule(m, 33, EXPRESSION, 3)
  }

  /** The states in which a condition may begin: where an expression may, and after a negation. */
  predicate Conditions(s: nat) { Begins(s) || s == 25 || s == 63 }

  ghost predicate CondRows(m: Automaton) {
    && (forall s :: Conditions(s) ==>
          && m.action(s, IDENTIFIER) == Shift(AfterIdentifier(s)) && m.goto(s, KEY_VALUE) == 28
          && m.goto(s, EXTENDED) == if Begins(s) then 29 else 45)
    && (forall s, k :: s in {26, 40, 64, 82} && 0 <= k < 6 ==> m.action(s, ComparisonOf(k).tok) == Shift(ComparisonOf(k).after))
    && (forall k :: 0 <= k < 6 ==>
          && m.action(ComparisonOf(k).after, IDENTIFIER) == Shift(32)
          && m.action(ComparisonOf(k).after, NON_IDENTIFIER) == Shift(33)
          && m.goto(ComparisonOf(k).after, VALUE) == ComparisonOf(k).done)
    && (forall k, tok :: 0 <= k < 6 ==> m.action(ComparisonOf(k).done, tok) == Reduce(ComparisonOf(k).rule))
    && (forall tok :: m.action(32, tok) == Reduce(11)) && (forall tok :: m.action(33, tok) == Reduce(12))
    && (forall tok :: Follows(tok) ==> m.action(28, tok) == Reduce(26))
  }

  ghost predicate ArgRows(m: Automaton) {
    && m.action(28, OPEN) == Shift(55) && m.goto(55, VALUE) == 37 && m.goto(55, ARGLIST) == 81
    && m.action(55, IDENTIFIER) == Shift(32) && m.action(55, NON_IDENTIFIER) == Shift(33)
    && m.action(81, COMMA) == Shift(68) && m.action(81, CLOSE) == Shift(94) && m.goto(68, VALUE) == 91
    && m.action(68, IDENTIFIER) == Shift(32) && m.action(68, NON_IDENTIFIER) == Shift(33)
    && (forall tok :: m.action(37, tok) == Reduce(24)) && (forall tok :: m.action(91, tok) == Reduce(23))
    && (forall tok :: m.action(94, tok) == Reduce(25))
  }

  ghost predicate ExprRows(m: Automaton) {
    && (forall s :: Begins(s) ==>
          && m.action(s, OPEN) == Shift(AfterOpen(s)) && m.action(s, NOT) == Shift(AfterNot(s))
          && m.action(AfterNot(s), OPEN) == Shift(AfterNotOpen(s)) && m.goto(s, EXPRESSION) == AfterExpression(s)
          && m.action(AfterExpression(s), AND) == Shift(57) && m.action(AfterExpression(s), OR) == Shift(58))
    && m.action(41, CLOSE) == Shift(69) && m.action(71, CLOSE) == Shift(92)
    && (forall tok :: Closes(tok) ==> m.action(83, tok) == Reduce(32))
    && (forall tok :: Closes(tok) ==> m.action(84, tok) == Reduce(33))
    && (forall tok :: m.action(29, tok) == Reduce(28)) && (forall tok :: m.action(45, tok) == Reduce(29))
    && (forall tok :: m.action(69, tok) == Reduce(31)) && (forall tok :: m.action(92, tok) == Reduce(30))
  }

  ghost predicate Drives(m: Automaton) {
    ExprRules(m) && CondRows(m) && ArgRows(m) && ExprRows(m)
  }

  lemma ConfRules()
    ensures ExprRules(Conf())
  {
    RuleShapes();
    forall k: nat | k < 6 ensures Rule(Conf(), ComparisonOf(k).rule, KEY_VALUE, 3) {
      ComparisonEnds(k, 0);
    }
  }

  lemma ConfCondRows()
    ensures CondRows(Conf())
  {
    var m := Conf();
    forall s: nat | Conditions(s)
      ensures m.action(s, IDENTIFIER) == Shift(AfterIdentifier(s)) && m.goto(s, KEY_VALUE) == 28
      ensures m.goto(s, EXTENDED) == if Begins(s) then 29 else 45
    {
      if Begins(s) {
        BeginRows(s);
        BeginGotos(s);
      } else {
        NotRows(s);
      }
    }
    forall s: nat, k: nat | s in {26, 40, 64, 82} && k < 6 ensures m.action(s, ComparisonOf(k).tok) == Shift(ComparisonOf(k).after) {
      ComparatorRows(s, k);
    }
    forall k: nat | k < 6
      ensures m.action(ComparisonOf(k).after, IDENTIFIER) == Shift(32) && m.action(ComparisonOf(k).after, NON_IDENTIFIER) == Shift(33)
      ensures m.goto(ComparisonOf(k).after, VALUE) == ComparisonOf(k).done
    {
      ComparedRows(k);
    }
    forall k: nat, tok: nat | k < 6 ensures m.action(ComparisonOf(k).done, tok) == Reduce(ComparisonOf(k).rule) {
      ComparisonEnds(k, tok);
    }
    forall tok: nat ensures m.action(32, tok) == Reduce(11) && m.action(33, tok) == Reduce(12) {
      DefaultRows(tok);
    }
    forall tok: nat | Follows(tok) ensures m.action(28, tok) == Reduce(26) {
      FollowRows(tok);
    }
  }

  lemma ConfArgRows()
    ensures ArgRows(Conf())
  {
    ArgumentEarly();
    ArgumentLate();
    forall tok: nat ensures Conf().action(37, tok) == Reduce(24) && Conf().action(91, tok) == Reduce(23) && Conf().action(94, tok) == Reduce(25) {
      DefaultRows(tok);
    }
  }

  lemma ConfExprRows()
    ensures ExprRows(Conf())
  {
    var m := Conf();
    forall s: nat | Begins(s)
      ensures m.action(s, OPEN) == Shift(AfterOpen(s)) && m.action(s, NOT) == Shift(AfterNot(s))
      ensures m.action(AfterNot(s), OPEN) == Shift(AfterNotOpen(s)) && m.goto(s, EXPRESSION) == AfterExpression(s)
      ensures m.action(AfterExpression(s), AND) == Shift(57) && m.action(AfterExpression(s), OR) == Shift(58)
    {
      BeginRows(s);
      BeginGotos(s);
      NotRows(AfterNot(s));
      AfterRows(s);
    }
    AndClosed();
    AndEnded();
    OrClosed();
    OrEnded();
    GroupClosed();
    NegationClosed();
    forall tok: nat | Closes(tok) ensures m.action(83, tok) == Reduce(32) && m.action(84, tok) == Reduce(33) {
      FollowRows(tok);
    }
    forall tok: nat
      ensures m.action(29, tok) == Reduce(28) && m.action(45, tok) == Reduce(29)
      ensures m.action(69, tok) == Reduce(31) && m.action(92, tok) == Reduce(30)
    {
      DefaultRows(tok);
    }
  }

  /** The program's tables have all these rows. */
  lemma ConfDrives()
    ensures Drives(Conf())
  {
    ConfRules();
    ConfCondRows();
    ConfArgRows();
    ConfExprRows();
  }
}
