/** From the tokens of a Boolean expression to the entries it matches. */
module ConfMeaning {
  import opened Common
  import opened ConfTables
  import P = ConfParser
  import B = BoolExpr

  /** The expression that a parsed tree stands for. */
  function ToExpr(t: P.Tree): (e: B.Expr) {
    match t
    case Cond(op, name, value, _) => B.Condition(B.KeyValue(op, name, value))
    case Negated(t1) => B.Unary(B.Not, ToExpr(t1))
    case Both(t1, t2) => B.Binary(B.And, ToExpr(t1), ToExpr(t2))
    case Either(t1, t2) => B.Binary(B.Or, ToExpr(t1), ToExpr(t2))
  }

  /** The grammar puts no negation between two operands. */
  lemma {:induction false} ParsedIsProper(t: P.Tree)
    ensures B.Proper(ToExpr(t))
  {
    match t
    case Cond(_, _, _, _) =>
    case Negated(t1) => ParsedIsProper(t1);
    case Both(t1, t2) =>
      ParsedIsProper(t1);
      ParsedIsProper(t2);
    case Either(t1, t2) =>
      ParsedIsProper(t1);
      ParsedIsProper(t2);
  }

  /** No operator of a parsed tree has the wrong number of operands. */
  lemma {:induction false} ParsedIsDecided(ctx: B.Context, x: B.Entry, t: P.Tree)
    requires Conditions(ctx, x, t)
    ensures B.Decided(ctx, x, ToExpr(t))
  {
    match t
    case Cond(_, _, _, _) =>
    case Negated(t1) => ParsedIsDecided(ctx, x, t1);
    case Both(t1, t2) =>
      ParsedIsDecided(ctx, x, t1);
      ParsedIsDecided(ctx, x, t2);
    case Either(t1, t2) =>
      ParsedIsDecided(ctx, x, t1);
      ParsedIsDecided(ctx, x, t2);
  }

  /** Every condition of the tree is decided on the entry. */
  predicate Conditions(ctx: B.Context, x: B.Entry, t: P.Tree) {
    match t
    case Cond(op, name, value, _) =>
      var m := B.CondMeaning(ctx, x, B.KeyValue(op, name, value));
      m.Yes? || m.No?
    case Negated(t1) => Conditions(ctx, x, t1)
    case Both(t1, t2) => Conditions(ctx, x, t1) && Conditions(ctx, x, t2)
    case Either(t1, t2) => Conditions(ctx, x, t1) && Conditions(ctx, x, t2)
  }

  /** Plain Boolean meaning of a parsed tree, given which conditions hold. */
  predicate Holds(ctx: B.Context, x: B.Entry, t: P.Tree) {
    match t
    case Cond(op, name, value, _) => B.CondMeaning(ctx, x, B.KeyValue(op, name, value)).Yes?
    case Negated(t1) => !Holds(ctx, x, t1)
    case Both(t1, t2) => Holds(ctx, x, t1) && Holds(ctx, x, t2)
    case Either(t1, t2) => Holds(ctx, x, t1) || Holds(ctx, x, t2)
  }

  lemma {:induction false} HoldsAlike(ctx: B.Context, x: B.Entry, t: P.Tree)
    ensures B.Holds(ctx, x, ToExpr(t)) == Holds(ctx, x, t)
  {
    match t
    case Cond(_, _, _, _) =>
    case Negated(t1) => HoldsAlike(ctx, x, t1);
    case Both(t1, t2) =>
      HoldsAlike(ctx, x, t1);
      HoldsAlike(ctx, x, t2);
    case Either(t1, t2) =>
      HoldsAlike(ctx, x, t1);
      HoldsAlike(ctx, x, t2);
  }

  /**
   * From the text to the match: the automaton reads a written expression as its tree, and what is built
   * from the tree, if it can be built, matches every entry as the tree means, undecided conditions included.
   */
  lemma TextMatchesAsItMeans(env: P.Env, ident: P.Lexer, stack: seq<P.Frame>, text: P.Text, rest: seq<P.Token>,
                             ctx: B.Context, x: B.Entry)
    requires stack != [] && Begins(P.Top(stack)) && P.ValidText(text) && Closes(P.Symbol(rest))
    requires B.LowerBool(ctx, ToExpr(P.TextTree(text))).Ok?
    ensures P.Reaches(Conf(), env, P.Config(stack, P.TextTokens(ident, text) + rest), P.Config(P.Read(stack, P.TextTree(text)), rest))
    ensures var e := ToExpr(P.TextTree(text)); B.Matches(x, B.LowerBool(ctx, e).value) == B.ExprMeaning(ctx, x, e)
    ensures Conditions(ctx, x, P.TextTree(text)) ==>
      B.Matches(x, B.LowerBool(ctx, ToExpr(P.TextTree(text))).value) == B.OfBool(Holds(ctx, x, P.TextTree(text)))
  {
    var t := P.TextTree(text);
    P.BindsToTheRight(env, ident, stack, text, rest);
    ParsedIsProper(t);
    B.LoweringPreservesMeaning(ctx, x, ToExpr(t));
    if Conditions(ctx, x, t) {
      ParsedIsDecided(ctx, x, t);
      B.LoweringIsBoolean(ctx, x, ToExpr(t));
      HoldsAlike(ctx, x, t);
    }
  }

  /* ---- what the tokens mean ---- */

  function Answer(b: bool): (m: B.Match) { if b then B.Yes else B.No }

  /** What is built from the tree `t` says of the entry whether `b`. */
  ghost predicate Says(ctx: B.Context, x: B.Entry, t: P.Tree, b: bool) {
    B.LowerBool(ctx, ToExpr(t)).Ok? && B.Matches(x, B.LowerBool(ctx, ToExpr(t)).value) == Answer(b)
  }

  lemma NegatedSays(ctx: B.Context, x: B.Entry, t: P.Tree, a: bool)
    requires Says(ctx, x, t, a)
    ensures Says(ctx, x, P.Negated(t), !a)
  {
    var n := B.LowerBool(ctx, ToExpr(t)).value;
    assert B.LowerBool(ctx, ToExpr(P.Negated(t))) == B.Ok(B.UnaryNode(B.NNot, n));
  }

  /** `name comparator value`, with the value quoted or not. */
  function Comparison(name: string, tok: nat, kind: nat, value: string): (r: seq<P.Token>) {
    [P.Token(IDENTIFIER, name), P.Token(tok, ""), P.Token(kind, value)]
  }

  lemma ComparisonTokens(ident: P.Lexer, t: P.Tree, tok: nat, kind: nat)
    requires t.Cond? && t.args == [] && !t.op.OpCmd? && kind == (if ident(t.value) then IDENTIFIER else NON_IDENTIFIER)
    requires tok == ComparisonOf(P.Rank(t.op)).tok
    ensures P.TextTokens(ident, P.One(P.Plain(false, t))) == Comparison(t.name, tok, kind, t.value)
  {
    assert P.TextTokens(ident, P.One(P.Plain(false, t))) == P.CondTokens(ident, t);
    assert P.ArgTokens(ident, t.args) == [];
  }

  /** The operator that a comparator is read as. */
  lemma ComparisonIsRead(env: P.Env, stack: seq<P.Frame>, name: string, tok: nat, kind: nat, value: string, rest: seq<P.Token>)
    returns (t: P.Tree)
    requires stack != [] && Begins(P.Top(stack)) && Closes(P.Symbol(rest)) && kind in {IDENTIFIER, NON_IDENTIFIER}
    requires tok in {EQUAL, DIFF, GT, GT_EQ, LT, LT_EQ}
    ensures P.Reaches(Conf(), env, P.Config(stack, Comparison(name, tok, kind, value) + rest), P.Config(P.Read(stack, t), rest))
    ensures t.Cond? && t.name == name && t.value == value && t.args == []
    ensures t.op == if tok == EQUAL then OpEqual else if tok == DIFF then OpDiff else if tok == GT then OpGt
                    else if tok == GT_EQ then OpGtEq else if tok == LT then OpLt else OpLtEq
  {
    var op := if tok == EQUAL then OpEqual else if tok == DIFF then OpDiff else if tok == GT then OpGt
              else if tok == GT_EQ then OpGtEq else if tok == LT then OpLt else OpLtEq;
    t := P.Cond(op, name, value, []);
    var ident: P.Lexer := (s: string) => kind == IDENTIFIER;
    var text := P.One(P.Plain(false, t));
    P.BindsToTheRight(env, ident, stack, text, rest);
    ComparisonTokens(ident, t, tok, kind);
    assert P.TextTree(text) == P.OperandTree(text.o) == t;
  }

  /**
   * Comparators on numbers: what is built from `name > value` matches an entry with a greater number, and
   * so on for the other five.
   */
  lemma ComparatorsOnNumbers(env: P.Env, stack: seq<P.Frame>, name: string, tok: nat, kind: nat, value: string, rest: seq<P.Token>,
                             ctx: B.Context, x: B.Entry, a: int, b: int)
    returns (t: P.Tree)
    requires stack != [] && Begins(P.Top(stack)) && Closes(P.Symbol(rest)) && kind in {IDENTIFIER, NON_IDENTIFIER}
    requires tok in {EQUAL, DIFF, GT, GT_EQ, LT, LT_EQ}
    requires ctx.lookup(name).Some? && !ctx.lookup(name).value.text && ctx.parse(ctx.lookup(name).value.id, value) == Some(b)
    requires ctx.lookup(name).value.id in x.attrs && x.attrs[ctx.lookup(name).value.id] == B.Number(a)
    ensures P.Reaches(Conf(), env, P.Config(stack, Comparison(name, tok, kind, value) + rest), P.Config(P.Read(stack, t), rest))
    ensures B.LowerBool(ctx, ToExpr(t)).Ok? ==>
      Says(ctx, x, t, if tok == EQUAL then a == b else if tok == DIFF then a != b else if tok == GT then a > b
                      else if tok == GT_EQ then a >= b else if tok == LT then a < b else a <= b)
  {
    t := ComparisonIsRead(env, stack, name, tok, kind, value, rest);
    if B.LowerBool(ctx, ToExpr(t)).Ok? {
      B.LoweredCond(ctx, x, B.KeyValue(t.op, name, value));
    }
  }

  /** Comparators on texts: equal and different, or matching and not matching a pattern. */
  lemma ComparatorsOnTexts(env: P.Env, stack: seq<P.Frame>, name: string, tok: nat, kind: nat, value: string, rest: seq<P.Token>,
                           ctx: B.Context, x: B.Entry, a: string)
    returns (t: P.Tree)
    requires stack != [] && Begins(P.Top(stack)) && Closes(P.Symbol(rest)) && kind in {IDENTIFIER, NON_IDENTIFIER}
    requires tok in {EQUAL, DIFF}
    requires ctx.lookup(name).Some? && ctx.lookup(name).value.text
    requires ctx.lookup(name).value.id in x.attrs && x.attrs[ctx.lookup(name).value.id] == B.Text(a)
    ensures P.Reaches(Conf(), env, P.Config(stack, Comparison(name, tok, kind, value) + rest), P.Config(P.Read(stack, t), rest))
    ensures B.LowerBool(ctx, ToExpr(t)).Ok? ==>
      var same := if B.Literal(value) then a == value else x.glob(value, a);
      Says(ctx, x, t, if tok == EQUAL then same else !same)
  {
    t := ComparisonIsRead(env, stack, name, tok, kind, value, rest);
    B.WildcardsMean(value);
    if B.LowerBool(ctx, ToExpr(t)).Ok? {
      B.LoweredCond(ctx, x, B.KeyValue(t.op, name, value));
    }
  }

  /** `and` and `or` between an operand and the rest of the expression. */
  lemma ConnectivesMean(env: P.Env, ident: P.Lexer, stack: seq<P.Frame>, o: P.Operand, tok: nat, text: string, more: P.Text,
                        rest: seq<P.Token>, ctx: B.Context, x: B.Entry, a: bool, b: bool)
    returns (t: P.Tree)
    requires stack != [] && Begins(P.Top(stack)) && Closes(P.Symbol(rest)) && P.ValidOperand(o) && P.ValidText(more)
    requires (tok == AND && text == "AND") || (tok == OR && text == "OR")
    requires Says(ctx, x, P.OperandTree(o), a) && Says(ctx, x, P.TextTree(more), b)
    ensures var tokens := P.OperandTokens(ident, o) + ([P.Token(tok, text)] + P.TextTokens(ident, more));
      P.Reaches(Conf(), env, P.Config(stack, tokens + rest), P.Config(P.Read(stack, t), rest))
    ensures Says(ctx, x, t, if tok == AND then a && b else a || b)
  {
    var whole := P.Chain(o, tok == AND, more);
    t := P.TextTree(whole);
    P.BindsToTheRight(env, ident, stack, whole, rest);
    assert P.TextTokens(ident, whole) == P.OperandTokens(ident, o) + ([P.Token(tok, text)] + P.TextTokens(ident, more));
  }

  lemma NegatedOperand(ident: P.Lexer, o: P.Operand)
    requires P.ValidOperand(o) && !o.neg
    ensures P.ValidOperand(o.(neg := true)) && P.OperandTree(o.(neg := true)) == P.Negated(P.OperandTree(o))
    ensures P.OperandTokens(ident, o.(neg := true)) == [P.Token(NOT, "NOT")] + P.OperandTokens(ident, o)
  {
  }

  lemma ReadOperand(env: P.Env, ident: P.Lexer, stack: seq<P.Frame>, o: P.Operand, rest: seq<P.Token>)
    requires stack != [] && Begins(P.Top(stack)) && Closes(P.Symbol(rest)) && P.ValidOperand(o)
    ensures P.Reaches(Conf(), env, P.Config(stack, P.OperandTokens(ident, o) + rest), P.Config(P.Read(stack, P.OperandTree(o)), rest))
  {
    P.BindsToTheRight(env, ident, stack, P.One(o), rest);
    assert P.TextTree(P.One(o)) == P.OperandTree(o) && P.TextTokens(ident, P.One(o)) == P.OperandTokens(ident, o);
  }

  /** `not` before a condition or a parenthesis. */
  lemma NegationMeans(env: P.Env, ident: P.Lexer, stack: seq<P.Frame>, o: P.Operand, rest: seq<P.Token>,
                      ctx: B.Context, x: B.Entry, a: bool)
    returns (t: P.Tree)
    requires stack != [] && Begins(P.Top(stack)) && Closes(P.Symbol(rest)) && P.ValidOperand(o) && !o.neg
    requires Says(ctx, x, P.OperandTree(o), a)
    ensures P.Reaches(Conf(), env, P.Config(stack, [P.Token(NOT, "NOT")] + P.OperandTokens(ident, o) + rest), P.Config(P.Read(stack, t), rest))
    ensures Says(ctx, x, t, !a)
  {
    t := P.Negated(P.OperandTree(o));
    NegatedOperand(ident, o);
    ReadOperand(env, ident, stack, o.(neg := true), rest);
    NegatedSays(ctx, x, P.OperandTree(o), a);
  }

  /** Parentheses mean what is between them. */
  lemma ParenthesesMean(env: P.Env, ident: P.Lexer, stack: seq<P.Frame>, inner: P.Text, rest: seq<P.Token>)
    requires stack != [] && Begins(P.Top(stack)) && Closes(P.Symbol(rest)) && P.ValidText(inner)
    ensures var tokens := [P.Token(OPEN, "(")] + (P.TextTokens(ident, inner) + [P.Token(CLOSE, ")")]);
      P.Reaches(Conf(), env, P.Config(stack, tokens + rest), P.Config(P.Read(stack, P.TextTree(inner)), rest))
  {
    var o := P.Group(false, inner);
    var tokens := [P.Token(OPEN, "(")] + (P.TextTokens(ident, inner) + [P.Token(CLOSE, ")")]);
    ReadOperand(env, ident, stack, o, rest);
    assert P.OperandTokens(ident, o) == tokens && P.OperandTree(o) == P.TextTree(inner);
  }
}
