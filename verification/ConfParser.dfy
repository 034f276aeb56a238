/** The parser of Boolean expressions as the table-driven automaton runs it, and the printer. */
module ConfParser {
  import opened Common
  import opened ConfTables

  datatype Tree =
    | Cond(op: Operator, name: string, value: string, args: seq<string>)
    | Negated(t: Tree)
    | Both(t1: Tree, t2: Tree)
    | Either(t1: Tree, t2: Tree)

  datatype Token = Token(sym: nat, text: string)

  /** Semantic values of the symbols of expressions. */
  datatype Sem = Nothing | Str(s: string) | Args(args: seq<string>) | Item(t: Tree)

  datatype Frame = Frame(state: nat, sem: Sem)
  datatype Config = Config(stack: seq<Frame>, input: seq<Token>)
  datatype Outcome = Running(c: Config) | Accepted | Failed

  /** How environment variables are resolved. */
  type Env = string -> string

  function Symbol(input: seq<Token>): (n: nat) {
    if input == [] then 0 else input[0].sym
  }

  function OperatorOf(rule: nat): (op: Operator) {
    if rule == 17 then OpEqual else if rule == 18 then OpDiff else if rule == 19 then OpGt
    else if rule == 20 then OpGtEq else if rule == 21 then OpLt else OpLtEq
  }

  function Compared(op: Operator, name: Sem, value: Sem): (r: Sem) {
    if name.Str? && value.Str? then Item(Cond(op, name.s, value.s, [])) else Nothing
  }

  function WithArgs(kv: Sem, args: Sem): (r: Sem) {
    if kv.Item? && kv.t.Cond? && args.Args? then Item(kv.t.(args := args.args)) else Nothing
  }

  function Joined(rule: nat, a: Sem, b: Sem): (r: Sem) {
    if a.Item? && b.Item? then Item(if rule == 32 then Both(a.t, b.t) else Either(a.t, b.t)) else Nothing
  }

  /** The actions of the rules of expressions; the other rules build what is not modelled here. */
  function Act(env: Env, rule: nat, v: seq<Sem>): (r: Sem) {
    if (rule == 11 || rule == 12 || rule == 26 || rule == 28) && |v| == 1 then v[0]
    else if rule == 13 && |v| == 1 && v[0].Str? then Str(env(v[0].s))
    else if 17 <= rule <= 22 && |v| == 3 then Compared(OperatorOf(rule), v[0], v[2])
    else if rule == 23 && |v| == 3 && v[0].Args? && v[2].Str? then Args(v[0].args + [v[2].s])
    else if rule == 24 && |v| == 1 && v[0].Str? then Args([v[0].s])
    else if rule == 25 && |v| == 4 then WithArgs(v[0], v[2])
    else if rule == 27 && |v| == 4 then Compared(OpCmd, v[0], v[2])
    else if rule == 29 && |v| == 2 && v[1].Item? then Item(Negated(v[1].t))
    else if rule == 30 && |v| == 4 && v[2].Item? then Item(Negated(v[2].t))
    else if rule == 31 && |v| == 3 then v[1]
    else if (rule == 32 || rule == 33) && |v| == 3 then Joined(rule, v[0], v[2])
    else Nothing
  }

  function Sems(frames: seq<Frame>): (v: seq<Sem>)
    ensures |v| == |frames| && forall i :: 0 <= i < |v| ==> v[i] == frames[i].sem
  {
    seq(|frames|, i requires 0 <= i < |frames| => frames[i].sem)
  }

  /** Pop the right-hand side of a rule and push its left-hand side. */
  function ReduceBy(m: Automaton, env: Env, c: Config, rule: nat): (r: Outcome) {
    var n := m.len(rule);
    if n < 0 || |c.stack| <= n || m.left(rule) < 0 then Failed
    else
      var base := c.stack[..|c.stack| - n];
      var t := m.goto(base[|base| - 1].state, m.left(rule));
      if t < 0 then Failed
      else Running(Config(base + [Frame(t, Act(env, rule, Sems(c.stack[|c.stack| - n..])))], c.input))
  }

  /** One turn of the parser's loop. */
  function Step(m: Automaton, env: Env, c: Config): (r: Outcome) {
    if c.stack == [] then Failed
    else
      var s := c.stack[|c.stack| - 1].state;
      if s == FINAL then Accepted
      else match m.action(s, Symbol(c.input))
        case Fail => Failed
        case Reduce(rule) => ReduceBy(m, env, c, rule)
        case Shift(t) =>
          if c.input == [] then Failed
          else Running(Config(c.stack + [Frame(t, Str(c.input[0].text))], c.input[1..]))
  }

  function Run(m: Automaton, env: Env, c: Config, n: nat): (r: Outcome)
    decreases n
  {
    if n == 0 then Running(c)
    else match Step(m, env, c)
      case Running(c') => Run(m, env, c', n - 1)
      case o => o
  }

  /** The loop over the state and value stacks, for at most `fuel` turns. */
  method Parse(m: Automaton, env: Env, stack: seq<Frame>, input: seq<Token>, fuel: nat) returns (r: Outcome)
    ensures r == Run(m, env, Config(stack, input), fuel)
  {
    var st, toks := stack, input;
    var left := fuel;
    while left > 0
      invariant Run(m, env, Config(st, toks), left) == Run(m, env, Config(stack, input), fuel)
    {
      if st == [] {
        return Failed;
      }
      var s := st[|st| - 1].state;
      if s == FINAL {
        return Accepted;
      }
      var a := m.action(s, Symbol(toks));
      if a.Fail? {
        return Failed;
      }
      if a.Shift? {
        if toks == [] {
          return Failed;
        }
        st := st + [Frame(a.state, Str(toks[0].text))];
        toks := toks[1..];
      } else {
        var o := ReduceBy(m, env, Config(st, toks), a.rule);
        if o.Failed? {
          return Failed;
        }
        st, toks := o.c.stack, o.c.input;
      }
      left := left - 1;
    }
    return Running(Config(st, toks));
  }

  /* ---- composing runs ---- */

  ghost predicate Reaches(m: Automaton, env: Env, c: Config, c': Config) {
    exists n: nat :: Run(m, env, c, n) == Running(c')
  }

  lemma {:induction false} RunConcat(m: Automaton, env: Env, c: Config, n: nat, c': Config, k: nat)
    requires Run(m, env, c, n) == Running(c')
    ensures Run(m, env, c, n + k) == Run(m, env, c', k)
    decreases n
  {
    if n > 0 {
      RunConcat(m, env, Step(m, env, c).c, n - 1, c', k);
    }
  }

  lemma Then(m: Automaton, env: Env, c: Config, c1: Config, c2: Config)
    requires Reaches(m, env, c, c1) && Reaches(m, env, c1, c2)
    ensures Reaches(m, env, c, c2)
  {
    var n: nat :| Run(m, env, c, n) == Running(c1);
    var k: nat :| Run(m, env, c1, k) == Running(c2);
    RunConcat(m, env, c, n, c1, k);
  }

  lemma OneStep(m: Automaton, env: Env, c: Config, c': Config)
    requires Step(m, env, c) == Running(c')
    ensures Reaches(m, env, c, c')
  {
    assert Run(m, env, c', 0) == Running(c');
    assert Run(m, env, c, 1) == Running(c');
  }

  /** The state on top of a stack. */
  function Top(stack: seq<Frame>): (s: nat)
    requires stack != []
  {
    stack[|stack| - 1].state
  }

  lemma Shifts(m: Automaton, env: Env, stack: seq<Frame>, tok: Token, rest: seq<Token>, t: nat)
    requires stack != [] && Top(stack) != FINAL && m.action(Top(stack), tok.sym) == Shift(t)
    ensures Reaches(m, env, Config(stack, [tok] + rest), Config(stack + [Frame(t, Str(tok.text))], rest))
  {
    assert ([tok] + rest)[1..] == rest;
    OneStep(m, env, Config(stack, [tok] + rest), Config(stack + [Frame(t, Str(tok.text))], rest));
  }

  lemma Reduces(m: Automaton, env: Env, base: seq<Frame>, handle: seq<Frame>, input: seq<Token>, rule: nat, left: nat, t: nat)
    requires base != [] && handle != [] && Top(handle) != FINAL && m.action(Top(handle), Symbol(input)) == Reduce(rule)
    requires Rule(m, rule, left, |handle|) && m.goto(Top(base), left) == t
    ensures Reaches(m, env, Config(base + handle, input), Config(base + [Frame(t, Act(env, rule, Sems(handle)))], input))
  {
    var c := Config(base + handle, input);
    ReduceByIs(m, env, base, handle, input, rule, left, t);
    assert c.stack[|c.stack| - 1] == handle[|handle| - 1];
    OneStep(m, env, c, Config(base + [Frame(t, Act(env, rule, Sems(handle)))], input));
  }

  lemma ReduceByIs(m: Automaton, env: Env, base: seq<Frame>, handle: seq<Frame>, input: seq<Token>, rule: nat, left: nat, t: nat)
    requires base != [] && Rule(m, rule, left, |handle|) && m.goto(Top(base), left) == t
    ensures ReduceBy(m, env, Config(base + handle, input), rule)
         == Running(Config(base + [Frame(t, Act(env, rule, Sems(handle)))], input))
  {
    var stack := base + handle;
    assert stack[..|stack| - |handle|] == base && stack[|stack| - |handle|..] == handle;
  }

  /* ---- what is written ---- */

  /** How the scanner classifies a value: identifiers are those that `ident` accepts. */
  type Lexer = string -> bool

  function ValueToken(ident: Lexer, v: string): (t: Token) {
    Token(if ident(v) then IDENTIFIER else NON_IDENTIFIER, v)
  }

  /** The position of an operator among the comparators. */
  function Rank(op: Operator): (k: nat)
    requires !op.OpCmd?
    ensures k < 6 && OperatorOf(17 + k) == op && 17 + k == ComparisonOf(k).rule
  {
    match op
    case OpEqual => 0
    case OpDiff => 1
    case OpGt => 2
    case OpGtEq => 3
    case OpLt => 4
    case OpLtEq => 5
  }

  /** `, a1, a2 ...)` */
  function MoreArgs(ident: Lexer, args: seq<string>): (r: seq<Token>) {
    if args == [] then [Token(CLOSE, ")")]
    else [Token(COMMA, ",")] + ([ValueToken(ident, args[0])] + MoreArgs(ident, args[1..]))
  }

  function ArgTokens(ident: Lexer, args: seq<string>): (r: seq<Token>) {
    if args == [] then []
    else [Token(OPEN, "(")] + ([ValueToken(ident, args[0])] + MoreArgs(ident, args[1..]))
  }

  function CondTokens(ident: Lexer, t: Tree): (r: seq<Token>)
    requires t.Cond? && !t.op.OpCmd?
  {
    [Token(IDENTIFIER, t.name)]
    + ([Token(ComparisonOf(Rank(t.op)).tok, "")] + ([ValueToken(ident, t.value)] + ArgTokens(ident, t.args)))
  }

  /* ---- values, arguments, conditions ---- */

  /** A value is read in a state that expects one. */
  lemma ParseValue(m: Automaton, env: Env, ident: Lexer, stack: seq<Frame>, v: string, rest: seq<Token>, t: nat)
    requires Drives(m) && stack != [] && Top(stack) != FINAL
    requires m.action(Top(stack), IDENTIFIER) == Shift(32) && m.action(Top(stack), NON_IDENTIFIER) == Shift(33)
    requires m.goto(Top(stack), VALUE) == t
    ensures Reaches(m, env, Config(stack, [ValueToken(ident, v)] + rest), Config(stack + [Frame(t, Str(v))], rest))
  {
    var tok := ValueToken(ident, v);
    var s := if ident(v) then 32 else 33;
    Shifts(m, env, stack, tok, rest, s);
    var rule := if ident(v) then 11 else 12;
    Reduces(m, env, stack, [Frame(s, Str(v))], rest, rule, VALUE, t);
    Then(m, env, Config(stack, [tok] + rest), Config(stack + [Frame(s, Str(v))], rest), Config(stack + [Frame(t, Str(v))], rest));
  }

  /** `, arg` after other arguments. */
  lemma ParseNextArg(m: Automaton, env: Env, ident: Lexer, stack: seq<Frame>, done: seq<string>, arg: string, tail: seq<Token>)
    requires Drives(m) && stack != [] && Top(stack) == 55
    ensures Reaches(m, env, Config(stack + [Frame(81, Args(done))], [Token(COMMA, ",")] + ([ValueToken(ident, arg)] + tail)),
                    Config(stack + [Frame(81, Args(done + [arg]))], tail))
  {
    var s1 := stack + [Frame(81, Args(done))];
    var s2 := s1 + [Frame(68, Str(","))];
    var val := [ValueToken(ident, arg)];
    var c0 := Config(s1, [Token(COMMA, ",")] + (val + tail));
    Shifts(m, env, s1, Token(COMMA, ","), val + tail, 68);
    ParseValue(m, env, ident, s2, arg, tail, 91);
    Then(m, env, c0, Config(s2, val + tail), Config(s2 + [Frame(91, Str(arg))], tail));
    var handle := [Frame(81, Args(done)), Frame(68, Str(",")), Frame(91, Str(arg))];
    assert s2 + [Frame(91, Str(arg))] == stack + handle;
    Reduces(m, env, stack, handle, tail, 23, ARGLIST, 81);
    Then(m, env, c0, Config(stack + handle, tail), Config(stack + [Frame(81, Args(done + [arg]))], tail));
  }

  /** `, a1, a2 ...)` after a first argument. */
  lemma {:induction false} ParseMoreArgs(m: Automaton, env: Env, ident: Lexer, stack: seq<Frame>, done: seq<string>, args: seq<string>, rest: seq<Token>)
    requires Drives(m) && stack != [] && Top(stack) == 55
    ensures Reaches(m, env, Config(stack + [Frame(81, Args(done))], MoreArgs(ident, args) + rest),
                    Config(stack + [Frame(81, Args(done + args))] + [Frame(94, Str(")"))], rest))
    decreases args
  {
    var s1 := stack + [Frame(81, Args(done))];
    if args == [] {
      Shifts(m, env, s1, Token(CLOSE, ")"), rest, 94);
      assert done + args == done;
    } else {
      var tail := MoreArgs(ident, args[1..]) + rest;
      assert MoreArgs(ident, args) + rest == [Token(COMMA, ",")] + ([ValueToken(ident, args[0])] + tail);
      ParseNextArg(m, env, ident, stack, done, args[0], tail);
      var s3 := stack + [Frame(81, Args(done + [args[0]]))];
      ParseMoreArgs(m, env, ident, stack, done + [args[0]], args[1..], rest);
      assert done + [args[0]] + args[1..] == done + args;
      Then(m, env, Config(s1, MoreArgs(ident, args) + rest), Config(s3, tail),
           Config(stack + [Frame(81, Args(done + args))] + [Frame(94, Str(")"))], rest));
    }
  }

  /** The opening parenthesis and the first argument. */
  lemma OpenArgs(m: Automaton, env: Env, ident: Lexer, stack: seq<Frame>, arg: string, tail: seq<Token>)
    requires Drives(m) && stack != [] && Top(stack) == 28
    ensures Reaches(m, env, Config(stack, [Token(OPEN, "(")] + ([ValueToken(ident, arg)] + tail)),
                    Config(stack + [Frame(55, Str("("))] + [Frame(81, Args([arg]))], tail))
  {
    var s2 := stack + [Frame(55, Str("("))];
    var val := [ValueToken(ident, arg)];
    var c0 := Config(stack, [Token(OPEN, "(")] + (val + tail));
    Shifts(m, env, stack, Token(OPEN, "("), val + tail, 55);
    ParseValue(m, env, ident, s2, arg, tail, 37);
    Then(m, env, c0, Config(s2, val + tail), Config(s2 + [Frame(37, Str(arg))], tail));
    Reduces(m, env, s2, [Frame(37, Str(arg))], tail, 24, ARGLIST, 81);
    Then(m, env, c0, Config(s2 + [Frame(37, Str(arg))], tail), Config(s2 + [Frame(81, Args([arg]))], tail));
  }

  /** The list of arguments becomes part of the condition. */
  lemma CloseArgs(m: Automaton, env: Env, stack: seq<Frame>, kv: Tree, args: seq<string>, rest: seq<Token>, t: nat)
    requires Drives(m) && stack != [] && m.goto(Top(stack), EXTENDED) == t && kv.Cond?
    ensures Reaches(m, env, Config(stack + [Frame(28, Item(kv))] + [Frame(55, Str("("))] + [Frame(81, Args(args))] + [Frame(94, Str(")"))], rest),
                    Config(stack + [Frame(t, Item(kv.(args := args)))], rest))
  {
    var handle := [Frame(28, Item(kv)), Frame(55, Str("(")), Frame(81, Args(args)), Frame(94, Str(")"))];
    assert stack + [Frame(28, Item(kv))] + [Frame(55, Str("("))] + [Frame(81, Args(args))] + [Frame(94, Str(")"))] == stack + handle;
    Reduces(m, env, stack, handle, rest, 25, EXTENDED, t);
  }

  lemma ArgTokensAre(ident: Lexer, args: seq<string>, rest: seq<Token>)
    requires args != []
    ensures ArgTokens(ident, args) + rest == [Token(OPEN, "(")] + ([ValueToken(ident, args[0])] + (MoreArgs(ident, args[1..]) + rest))
  {
  }

  /** A parenthesised list of arguments is read after a condition. */
  lemma ReadArgs(m: Automaton, env: Env, ident: Lexer, stack: seq<Frame>, args: seq<string>, rest: seq<Token>)
    requires Drives(m) && stack != [] && Top(stack) == 28 && args != []
    ensures Reaches(m, env, Config(stack, ArgTokens(ident, args) + rest),
                    Config(stack + [Frame(55, Str("("))] + [Frame(81, Args(args))] + [Frame(94, Str(")"))], rest))
  {
    var s2 := stack + [Frame(55, Str("("))];
    var tail := MoreArgs(ident, args[1..]) + rest;
    ArgTokensAre(ident, args, rest);
    OpenArgs(m, env, ident, stack, args[0], tail);
    ParseMoreArgs(m, env, ident, s2, [args[0]], args[1..], rest);
    assert [args[0]] + args[1..] == args;
    Then(m, env, Config(stack, ArgTokens(ident, args) + rest), Config(s2 + [Frame(81, Args([args[0]]))], tail),
         Config(s2 + [Frame(81, Args(args))] + [Frame(94, Str(")"))], rest));
  }

  lemma ParseArgs(m: Automaton, env: Env, ident: Lexer, stack: seq<Frame>, kv: Tree, args: seq<string>, rest: seq<Token>, t: nat)
    requires Drives(m) && stack != [] && m.goto(Top(stack), EXTENDED) == t
    requires args != [] && kv.Cond? && kv.args == []
    ensures Reaches(m, env, Config(stack + [Frame(28, Item(kv))], ArgTokens(ident, args) + rest),
                    Config(stack + [Frame(t, Item(kv.(args := args)))], rest))
  {
    var s1 := stack + [Frame(28, Item(kv))];
    ReadArgs(m, env, ident, s1, args, rest);
    CloseArgs(m, env, stack, kv, args, rest, t);
    Then(m, env, Config(s1, ArgTokens(ident, args) + rest),
         Config(s1 + [Frame(55, Str("("))] + [Frame(81, Args(args))] + [Frame(94, Str(")"))], rest),
         Config(stack + [Frame(t, Item(kv.(args := args)))], rest));
  }

  /** The states a condition goes through after its name, its comparator and its value. */
  function KeyValueFrames(s: nat, kv: Tree): (r: seq<Frame>)
    requires kv.Cond? && !kv.op.OpCmd?
  {
    [Frame(AfterIdentifier(s), Str(kv.name)), Frame(ComparisonOf(Rank(kv.op)).after, Str("")),
     Frame(ComparisonOf(Rank(kv.op)).done, Str(kv.value))]
  }

  lemma ShiftKeyValue(m: Automaton, env: Env, ident: Lexer, stack: seq<Frame>, kv: Tree, rest: seq<Token>)
    requires Drives(m) && stack != [] && Conditions(Top(stack)) && kv.Cond? && !kv.op.OpCmd? && kv.args == []
    ensures Reaches(m, env, Config(stack, CondTokens(ident, kv) + rest), Config(stack + KeyValueFrames(Top(stack), kv), rest))
  {
    var cmp := ComparisonOf(Rank(kv.op));
    var name, op, val := Token(IDENTIFIER, kv.name), Token(cmp.tok, ""), [ValueToken(ident, kv.value)];
    var c0 := Config(stack, CondTokens(ident, kv) + rest);
    assert CondTokens(ident, kv) + rest == [name] + ([op] + (val + rest));
    var f := KeyValueFrames(Top(stack), kv);
    Shifts(m, env, stack, name, [op] + (val + rest), f[0].state);
    Shifts(m, env, stack + [f[0]], op, val + rest, f[1].state);
    Then(m, env, c0, Config(stack + [f[0]], [op] + (val + rest)), Config(stack + [f[0]] + [f[1]], val + rest));
    ParseValue(m, env, ident, stack + [f[0]] + [f[1]], kv.value, rest, f[2].state);
    Then(m, env, c0, Config(stack + [f[0]] + [f[1]], val + rest), Config(stack + [f[0]] + [f[1]] + [f[2]], rest));
    assert stack + [f[0]] + [f[1]] + [f[2]] == stack + f;
  }

  lemma ReduceKeyValue(m: Automaton, env: Env, stack: seq<Frame>, kv: Tree, rest: seq<Token>)
    requires Drives(m) && stack != [] && Conditions(Top(stack)) && kv.Cond? && !kv.op.OpCmd? && kv.args == []
    ensures Reaches(m, env, Config(stack + KeyValueFrames(Top(stack), kv), rest), Config(stack + [Frame(28, Item(kv))], rest))
  {
    var f := KeyValueFrames(Top(stack), kv);
    var rule := ComparisonOf(Rank(kv.op)).rule;
    Reduces(m, env, stack, f, rest, rule, KEY_VALUE, 28);
    assert Act(env, rule, Sems(f)) == Item(kv);
  }

  /** `name op value`. */
  lemma ParseKeyValue(m: Automaton, env: Env, ident: Lexer, stack: seq<Frame>, kv: Tree, rest: seq<Token>)
    requires Drives(m) && stack != [] && Conditions(Top(stack)) && kv.Cond? && !kv.op.OpCmd? && kv.args == []
    ensures Reaches(m, env, Config(stack, CondTokens(ident, kv) + rest), Config(stack + [Frame(28, Item(kv))], rest))
  {
    ShiftKeyValue(m, env, ident, stack, kv, rest);
    ReduceKeyValue(m, env, stack, kv, rest);
    Then(m, env, Config(stack, CondTokens(ident, kv) + rest), Config(stack + KeyValueFrames(Top(stack), kv), rest),
         Config(stack + [Frame(28, Item(kv))], rest));
  }

  lemma ParseCond(m: Automaton, env: Env, ident: Lexer, stack: seq<Frame>, t: Tree, rest: seq<Token>)
    requires Drives(m) && stack != [] && Conditions(Top(stack)) && t.Cond? && !t.op.OpCmd? && Follows(Symbol(rest))
    ensures Reaches(m, env, Config(stack, CondTokens(ident, t) + rest),
                    Config(stack + [Frame(if Begins(Top(stack)) then 29 else 45, Item(t))], rest))
  {
    var next := if Begins(Top(stack)) then 29 else 45;
    var kv := t.(args := []);
    var tail := ArgTokens(ident, t.args) + rest;
    var c0 := Config(stack, CondTokens(ident, t) + rest);
    assert CondTokens(ident, t) + rest == CondTokens(ident, kv) + tail;
    ParseKeyValue(m, env, ident, stack, kv, tail);
    if t.args == [] {
      assert tail == rest;
      Reduces(m, env, stack, [Frame(28, Item(kv))], rest, 26, EXTENDED, next);
    } else {
      ParseArgs(m, env, ident, stack, kv, t.args, rest, next);
    }
    Then(m, env, c0, Config(stack + [Frame(28, Item(kv))], tail), Config(stack + [Frame(next, Item(t))], rest));
  }

  /* ---- expressions ---- */

  /** Expressions as they can be written: operands, possibly negated or in parentheses, with operators between. */
  datatype Operand = Plain(neg: bool, cond: Tree) | Group(neg: bool, inner: Text)
  datatype Text = One(o: Operand) | Chain(o: Operand, isAnd: bool, more: Text)

  ghost predicate ValidOperand(o: Operand) {
    match o
    case Plain(_, cond) => cond.Cond? && !cond.op.OpCmd?
    case Group(_, inner) => ValidText(inner)
  }

  ghost predicate ValidText(x: Text) {
    match x
    case One(o) => ValidOperand(o)
    case Chain(o, _, more) => ValidOperand(o) && ValidText(more)
  }

  ghost function OperandTokens(ident: Lexer, o: Operand): (r: seq<Token>)
    requires ValidOperand(o)
  {
    (if o.neg then [Token(NOT, "NOT")] else [])
    + match o
      case Plain(_, cond) => CondTokens(ident, cond)
      case Group(_, inner) => [Token(OPEN, "(")] + (TextTokens(ident, inner) + [Token(CLOSE, ")")])
  }

  ghost function TextTokens(ident: Lexer, x: Text): (r: seq<Token>)
    requires ValidText(x)
  {
    match x
    case One(o) => OperandTokens(ident, o)
    case Chain(o, isAnd, more) => OperandTokens(ident, o) + ([Connective(isAnd)] + TextTokens(ident, more))
  }

  function Connective(isAnd: bool): (t: Token) { if isAnd then Token(AND, "AND") else Token(OR, "OR") }

  /** Both operators bind alike and to the right; a negation takes one condition or one parenthesis. */
  function OperandTree(o: Operand): (t: Tree) {
    var t := match o case Plain(_, cond) => cond case Group(_, inner) => TextTree(inner);
    if o.neg then Negated(t) else t
  }

  function TextTree(x: Text): (t: Tree) {
    match x
    case One(o) => OperandTree(o)
    case Chain(o, isAnd, more) => if isAnd then Both(OperandTree(o), TextTree(more)) else Either(OperandTree(o), TextTree(more))
  }

  /** What has been read: an expression `t` on top of `stack`. */
  function Read(stack: seq<Frame>, t: Tree): (r: seq<Frame>)
    requires stack != []
  {
    stack + [Frame(AfterExpression(Top(stack)), Item(t))]
  }

  lemma ParseBare(m: Automaton, env: Env, ident: Lexer, stack: seq<Frame>, cond: Tree, rest: seq<Token>)
    requires Drives(m) && stack != [] && Begins(Top(stack)) && cond.Cond? && !cond.op.OpCmd? && Follows(Symbol(rest))
    ensures Reaches(m, env, Config(stack, CondTokens(ident, cond) + rest), Config(Read(stack, cond), rest))
  {
    var f := Frame(29, Item(cond));
    ParseCond(m, env, ident, stack, cond, rest);
    Reduces(m, env, stack, [f], rest, 28, EXPRESSION, AfterExpression(Top(stack)));
    Then(m, env, Config(stack, CondTokens(ident, cond) + rest), Config(stack + [f], rest), Config(Read(stack, cond), rest));
  }

  lemma ParseNegated(m: Automaton, env: Env, ident: Lexer, stack: seq<Frame>, cond: Tree, rest: seq<Token>)
    requires Drives(m) && stack != [] && Begins(Top(stack)) && cond.Cond? && !cond.op.OpCmd? && Follows(Symbol(rest))
    ensures Reaches(m, env, Config(stack, [Token(NOT, "NOT")] + (CondTokens(ident, cond) + rest)), Config(Read(stack, Negated(cond)), rest))
  {
    var tail := CondTokens(ident, cond) + rest;
    var c0 := Config(stack, [Token(NOT, "NOT")] + tail);
    var f1, f2 := Frame(AfterNot(Top(stack)), Str("NOT")), Frame(45, Item(cond));
    Shifts(m, env, stack, Token(NOT, "NOT"), tail, f1.state);
    ParseCond(m, env, ident, stack + [f1], cond, rest);
    assert stack + [f1] + [f2] == stack + [f1, f2];
    Then(m, env, c0, Config(stack + [f1], tail), Config(stack + [f1, f2], rest));
    Reduces(m, env, stack, [f1, f2], rest, 29, EXPRESSION, AfterExpression(Top(stack)));
    Then(m, env, c0, Config(stack + [f1, f2], rest), Config(Read(stack, Negated(cond)), rest));
  }

  lemma ParsePlain(m: Automaton, env: Env, ident: Lexer, stack: seq<Frame>, o: Operand, rest: seq<Token>)
    requires Drives(m) && stack != [] && Begins(Top(stack)) && ValidOperand(o) && o.Plain? && Follows(Symbol(rest))
    ensures Reaches(m, env, Config(stack, OperandTokens(ident, o) + rest), Config(Read(stack, OperandTree(o)), rest))
  {
    if o.neg {
      assert OperandTokens(ident, o) + rest == [Token(NOT, "NOT")] + (CondTokens(ident, o.cond) + rest);
      ParseNegated(m, env, ident, stack, o.cond, rest);
    } else {
      assert OperandTokens(ident, o) + rest == CondTokens(ident, o.cond) + rest;
      ParseBare(m, env, ident, stack, o.cond, rest);
    }
  }

  /** The closing parenthesis of a group, once its inside was read. */
  lemma CloseGroup(m: Automaton, env: Env, stack: seq<Frame>, opening: seq<Frame>, o: Operand, rest: seq<Token>)
    requires Drives(m) && stack != [] && Begins(Top(stack)) && o.Group?
    requires opening == if o.neg then [Frame(AfterNot(Top(stack)), Str("NOT")), Frame(AfterNotOpen(Top(stack)), Str("("))]
                       else [Frame(AfterOpen(Top(stack)), Str("("))]
    ensures Reaches(m, env, Config(Read(stack + opening, TextTree(o.inner)), [Token(CLOSE, ")")] + rest),
                    Config(Read(stack, OperandTree(o)), rest))
  {
    var s := Top(stack);
    var inner := Frame(if o.neg then 71 else 41, Item(TextTree(o.inner)));
    var close := Frame(if o.neg then 92 else 69, Str(")"));
    var c0 := Config(Read(stack + opening, TextTree(o.inner)), [Token(CLOSE, ")")] + rest);
    Shifts(m, env, c0.stack, Token(CLOSE, ")"), rest, close.state);
    var handle := opening + [inner, close];
    assert c0.stack + [close] == stack + handle;
    Reduces(m, env, stack, handle, rest, if o.neg then 30 else 31, EXPRESSION, AfterExpression(s));
    assert Act(env, if o.neg then 30 else 31, Sems(handle)) == Item(OperandTree(o));
    Then(m, env, c0, Config(stack + handle, rest), Config(Read(stack, OperandTree(o)), rest));
  }

  /** The opening of a group. */
  lemma OpenGroup(m: Automaton, env: Env, stack: seq<Frame>, neg: bool, tail: seq<Token>) returns (opening: seq<Frame>)
    requires Drives(m) && stack != [] && Begins(Top(stack))
    ensures opening == if neg then [Frame(AfterNot(Top(stack)), Str("NOT")), Frame(AfterNotOpen(Top(stack)), Str("("))]
                      else [Frame(AfterOpen(Top(stack)), Str("("))]
    ensures Begins(Top(stack + opening))
    ensures Reaches(m, env, Config(stack, (if neg then [Token(NOT, "NOT")] else []) + ([Token(OPEN, "(")] + tail)), Config(stack + opening, tail))
  {
    var s := Top(stack);
    if neg {
      var f1, f2 := Frame(AfterNot(s), Str("NOT")), Frame(AfterNotOpen(s), Str("("));
      Shifts(m, env, stack, Token(NOT, "NOT"), [Token(OPEN, "(")] + tail, f1.state);
      Shifts(m, env, stack + [f1], Token(OPEN, "("), tail, f2.state);
      opening := [f1, f2];
      assert stack + [f1] + [f2] == stack + opening;
      Then(m, env, Config(stack, [Token(NOT, "NOT")] + ([Token(OPEN, "(")] + tail)), Config(stack + [f1], [Token(OPEN, "(")] + tail),
           Config(stack + opening, tail));
    } else {
      var f := Frame(AfterOpen(s), Str("("));
      opening := [f];
      assert [] + ([Token(OPEN, "(")] + tail) == [Token(OPEN, "(")] + tail;
      Shifts(m, env, stack, Token(OPEN, "("), tail, f.state);
    }
  }

  lemma GroupTokens(ident: Lexer, o: Operand, rest: seq<Token>)
    requires ValidOperand(o) && o.Group?
    ensures OperandTokens(ident, o) + rest
         == (if o.neg then [Token(NOT, "NOT")] else [])
            + ([Token(OPEN, "(")] + (TextTokens(ident, o.inner) + ([Token(CLOSE, ")")] + rest)))
  {
  }

  lemma {:induction false} ParseOperand(m: Automaton, env: Env, ident: Lexer, stack: seq<Frame>, o: Operand, rest: seq<Token>)
    requires Drives(m) && stack != [] && Begins(Top(stack)) && ValidOperand(o) && Follows(Symbol(rest))
    ensures Reaches(m, env, Config(stack, OperandTokens(ident, o) + rest), Config(Read(stack, OperandTree(o)), rest))
    decreases o
  {
    if o.Plain? {
      ParsePlain(m, env, ident, stack, o, rest);
    } else {
      var inner, close := TextTokens(ident, o.inner), [Token(CLOSE, ")")] + rest;
      var c0 := Config(stack, OperandTokens(ident, o) + rest);
      var opening := OpenGroup(m, env, stack, o.neg, inner + close);
      GroupTokens(ident, o, rest);
      ParseText(m, env, ident, stack + opening, o.inner, close);
      Then(m, env, c0, Config(stack + opening, inner + close), Config(Read(stack + opening, TextTree(o.inner)), close));
      CloseGroup(m, env, stack, opening, o, rest);
      Then(m, env, c0, Config(Read(stack + opening, TextTree(o.inner)), close), Config(Read(stack, OperandTree(o)), rest));
    }
  }

  lemma ChainTokens(ident: Lexer, x: Text, rest: seq<Token>)
    requires ValidText(x) && x.Chain?
    ensures TextTokens(ident, x) + rest == OperandTokens(ident, x.o) + ([Connective(x.isAnd)] + (TextTokens(ident, x.more) + rest))
  {
  }

  /** An expression is read up to what closes it, as its tree. */
  lemma {:induction false} ParseText(m: Automaton, env: Env, ident: Lexer, stack: seq<Frame>, x: Text, rest: seq<Token>)
    requires Drives(m) && stack != [] && Begins(Top(stack)) && ValidText(x) && Closes(Symbol(rest))
    ensures Reaches(m, env, Config(stack, TextTokens(ident, x) + rest), Config(Read(stack, TextTree(x)), rest))
    decreases x, 1
  {
    match x
    case One(o) => ParseOperand(m, env, ident, stack, o, rest);
    case Chain(o, isAnd, more) =>
      var c0 := Config(stack, TextTokens(ident, x) + rest);
      var c1 := Config(AfterFirst(stack, x), TextTokens(ident, more) + rest);
      ParseFirst(m, env, ident, stack, x, rest);
      ParseText(m, env, ident, AfterFirst(stack, x), more, rest);
      JoinOperands(m, env, stack, o, isAnd, more, rest);
      Then(m, env, c1, Config(Read(AfterFirst(stack, x), TextTree(more)), rest), Config(Read(stack, TextTree(x)), rest));
      Then(m, env, c0, c1, Config(Read(stack, TextTree(x)), rest));
  }

  /** The stack after the first operand and the operator. */
  function AfterFirst(stack: seq<Frame>, x: Text): (r: seq<Frame>)
    requires stack != [] && x.Chain?
    ensures r != [] && Top(r) == if x.isAnd then 57 else 58
  {
    Read(stack, OperandTree(x.o)) + [Frame(if x.isAnd then 57 else 58, Str(Connective(x.isAnd).text))]
  }

  lemma {:induction false} ParseFirst(m: Automaton, env: Env, ident: Lexer, stack: seq<Frame>, x: Text, rest: seq<Token>)
    requires Drives(m) && stack != [] && Begins(Top(stack)) && ValidText(x) && x.Chain?
    ensures Reaches(m, env, Config(stack, TextTokens(ident, x) + rest), Config(AfterFirst(stack, x), TextTokens(ident, x.more) + rest))
    decreases x, 0
  {
    var tail := TextTokens(ident, x.more) + rest;
    var op := Connective(x.isAnd);
    ChainTokens(ident, x, rest);
    ParseOperand(m, env, ident, stack, x.o, [op] + tail);
    var s1 := Read(stack, OperandTree(x.o));
    Shifts(m, env, s1, op, tail, if x.isAnd then 57 else 58);
    Then(m, env, Config(stack, TextTokens(ident, x) + rest), Config(s1, [op] + tail), Config(AfterFirst(stack, x), tail));
  }

  lemma JoinOperands(m: Automaton, env: Env, stack: seq<Frame>, o: Operand, isAnd: bool, more: Text, rest: seq<Token>)
    requires Drives(m) && stack != [] && Begins(Top(stack)) && Closes(Symbol(rest))
    ensures Reaches(m, env, Config(Read(AfterFirst(stack, Chain(o, isAnd, more)), TextTree(more)), rest),
                    Config(Read(stack, TextTree(Chain(o, isAnd, more))), rest))
  {
    var f1 := Frame(AfterExpression(Top(stack)), Item(OperandTree(o)));
    var f2 := Frame(if isAnd then 57 else 58, Str(Connective(isAnd).text));
    var f3 := Frame(if isAnd then 83 else 84, Item(TextTree(more)));
    assert Read(Read(stack, OperandTree(o)) + [f2], TextTree(more)) == stack + [f1, f2, f3];
    Reduces(m, env, stack, [f1, f2, f3], rest, if isAnd then 32 else 33, EXPRESSION, AfterExpression(Top(stack)));
    assert Act(env, if isAnd then 32 else 33, Sems([f1, f2, f3])) == Item(TextTree(Chain(o, isAnd, more)));
  }

  /* ---- the printer ---- */

  /** No condition is a command. */
  predicate NoCommand(t: Tree) {
    match t
    case Cond(op, _, _, _) => !op.OpCmd?
    case Negated(t1) => NoCommand(t1)
    case Both(t1, t2) => NoCommand(t1) && NoCommand(t2)
    case Either(t1, t2) => NoCommand(t1) && NoCommand(t2)
  }

  function Enclosed(s: seq<Token>): (r: seq<Token>) {
    [Token(OPEN, "(")] + (s + [Token(CLOSE, ")")])
  }

  /** What is printed for a tree: every operand in parentheses. */
  function Print(ident: Lexer, t: Tree): (r: seq<Token>)
    requires NoCommand(t)
  {
    match t
    case Cond(_, _, _, _) => CondTokens(ident, t)
    case Negated(t1) => [Token(NOT, "NOT")] + Enclosed(Print(ident, t1))
    case Both(t1, t2) => Enclosed(Print(ident, t1)) + ([Token(AND, "AND")] + Enclosed(Print(ident, t2)))
    case Either(t1, t2) => Enclosed(Print(ident, t1)) + ([Token(OR, "OR")] + Enclosed(Print(ident, t2)))
  }

  /** The printed form as written text. */
  function AsText(t: Tree): (x: Text) {
    match t
    case Cond(_, _, _, _) => One(Plain(false, t))
    case Negated(t1) => One(Group(true, AsText(t1)))
    case Both(t1, t2) => Chain(Group(false, AsText(t1)), true, One(Group(false, AsText(t2))))
    case Either(t1, t2) => Chain(Group(false, AsText(t1)), false, One(Group(false, AsText(t2))))
  }

  ghost predicate PrintsAs(ident: Lexer, t: Tree) {
    && NoCommand(t) && ValidText(AsText(t))
    && TextTokens(ident, AsText(t)) == Print(ident, t) && TextTree(AsText(t)) == t
  }

  lemma PrintedGroup(ident: Lexer, neg: bool, t: Tree)
    requires PrintsAs(ident, t)
    ensures var o := Group(neg, AsText(t));
      && ValidOperand(o) && OperandTree(o) == (if neg then Negated(t) else t)
      && OperandTokens(ident, o) == (if neg then [Token(NOT, "NOT")] else []) + Enclosed(Print(ident, t))
  {
  }

  lemma PrintedJoin(ident: Lexer, isAnd: bool, t1: Tree, t2: Tree)
    requires PrintsAs(ident, t1) && PrintsAs(ident, t2)
    ensures PrintsAs(ident, if isAnd then Both(t1, t2) else Either(t1, t2))
  {
    PrintedGroup(ident, false, t1);
    PrintedGroup(ident, false, t2);
    var a, b := Enclosed(Print(ident, t1)), Enclosed(Print(ident, t2));
    assert [] + a == a && [] + b == b;
    var t := if isAnd then Both(t1, t2) else Either(t1, t2);
    assert AsText(t) == Chain(Group(false, AsText(t1)), isAnd, One(Group(false, AsText(t2))));
    assert TextTokens(ident, One(Group(false, AsText(t2)))) == b;
    assert TextTokens(ident, AsText(t)) == a + ([Connective(isAnd)] + b);
  }

  lemma {:induction false} PrintedText(ident: Lexer, t: Tree)
    requires NoCommand(t)
    ensures PrintsAs(ident, t)
  {
    match t
    case Cond(_, _, _, _) => assert [] + CondTokens(ident, t) == CondTokens(ident, t);
    case Negated(t1) =>
      PrintedText(ident, t1);
      PrintedGroup(ident, true, t1);
    case Both(t1, t2) =>
      PrintedText(ident, t1);
      PrintedText(ident, t2);
      PrintedJoin(ident, true, t1, t2);
    case Either(t1, t2) =>
      PrintedText(ident, t1);
      PrintedText(ident, t2);
      PrintedJoin(ident, false, t1, t2);
  }

  /** Printing a tree and parsing what was printed gives the tree back, in a block as inside parentheses. */
  lemma PrintThenParse(env: Env, ident: Lexer, stack: seq<Frame>, t: Tree, rest: seq<Token>)
    requires stack != [] && Begins(Top(stack)) && NoCommand(t) && Closes(Symbol(rest))
    ensures Reaches(Conf(), env, Config(stack, Print(ident, t) + rest), Config(Read(stack, t), rest))
  {
    ConfDrives();
    PrintedText(ident, t);
    ParseText(Conf(), env, ident, stack, AsText(t), rest);
  }

  /** Written without parentheses, `and` and `or` bind alike, and to the right. */
  lemma BindsToTheRight(env: Env, ident: Lexer, stack: seq<Frame>, x: Text, rest: seq<Token>)
    requires stack != [] && Begins(Top(stack)) && ValidText(x) && Closes(Symbol(rest))
    ensures Reaches(Conf(), env, Config(stack, TextTokens(ident, x) + rest), Config(Read(stack, TextTree(x)), rest))
  {
    ConfDrives();
    ParseText(Conf(), env, ident, stack, x, rest);
  }
}
