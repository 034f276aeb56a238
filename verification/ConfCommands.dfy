/** Environment variables as values, and commands, as the automaton reads them. */
module ConfCommands {
  import opened Common
  import opened ConfTables
  import opened ConfParser

  /** The rows and rules that variables and commands need. */
  ghost predicate CommandRows(m: Automaton) {
    && (forall s :: s in {26, 40, 64, 82} ==> m.action(s, OPEN) == Shift(47))
    && m.action(47, IDENTIFIER) == Shift(32) && m.action(47, NON_IDENTIFIER) == Shift(33) && m.goto(47, VALUE) == 74
    && m.action(74, CLOSE) == Shift(93) && (forall tok :: m.action(93, tok) == Reduce(27)) && Rule(m, 27, EXTENDED, 4)
  }

  ghost predicate VariableRows(m: Automaton) {
    && (forall s :: 47 <= s <= 53 ==> m.action(s, ENV_VAR) == Shift(34))
    && (forall tok :: m.action(34, tok) == Reduce(13)) && Rule(m, 13, VALUE, 1)
  }

  lemma OpenAfterName()
    ensures ActionOf(26, OPEN) == Shift(47)
    ensures ActionOf(40, OPEN) == Shift(47)
    ensures ActionOf(64, OPEN) == Shift(47)
    ensures ActionOf(82, OPEN) == Shift(47)
  {
  }

  lemma CommandStates()
    ensures ActionOf(47, IDENTIFIER) == Shift(32)
    ensures ActionOf(47, NON_IDENTIFIER) == Shift(33)
    ensures GotoOf(47, VALUE) == 74
    ensures ActionOf(74, CLOSE) == Shift(93)
    ensures Rule1(27) == EXTENDED && Rule2(27) == 4
  {
  }

  lemma CommandEnds(tok: nat)
    ensures ActionOf(93, tok) == Reduce(27)
    ensures ActionOf(34, tok) == Reduce(13)
  {
  }

  lemma VariableEarly()
    ensures ActionOf(47, ENV_VAR) == Shift(34)
    ensures ActionOf(48, ENV_VAR) == Shift(34)
    ensures ActionOf(49, ENV_VAR) == Shift(34)
    ensures ActionOf(50, ENV_VAR) == Shift(34)
  {
  }

  lemma VariableLate()
    ensures ActionOf(51, ENV_VAR) == Shift(34)
    ensures ActionOf(52, ENV_VAR) == Shift(34)
    ensures ActionOf(53, ENV_VAR) == Shift(34)
    ensures Rule1(13) == VALUE && Rule2(13) == 1
  {
  }

  lemma ConfCommandRows()
    ensures CommandRows(Conf())
  {
    OpenAfterName();
    CommandStates();
    forall tok: nat ensures Conf().action(93, tok) == Reduce(27) {
      CommandEnds(tok);
    }
  }

  lemma ConfVariableRows()
    ensures VariableRows(Conf())
  {
    VariableEarly();
    VariableLate();
    forall s: nat | 47 <= s <= 53 ensures Conf().action(s, ENV_VAR) == Shift(34) {
      assert s == 47 || s == 48 || s == 49 || s == 50 || s == 51 || s == 52 || s == 53;
    }
    forall tok: nat ensures Conf().action(34, tok) == Reduce(13) {
      CommandEnds(tok);
    }
  }

  /** Where a value is expected, an environment variable stands for its value. */
  lemma ReadVariable(m: Automaton, env: Env, stack: seq<Frame>, name: string, rest: seq<Token>, t: nat)
    requires VariableRows(m) && stack != [] && 47 <= Top(stack) <= 53 && m.goto(Top(stack), VALUE) == t
    ensures Reaches(m, env, Config(stack, [Token(ENV_VAR, name)] + rest), Config(stack + [Frame(t, Str(env(name)))], rest))
  {
    var f := Frame(34, Str(name));
    Shifts(m, env, stack, Token(ENV_VAR, name), rest, 34);
    Reduces(m, env, stack, [f], rest, 13, VALUE, t);
    Then(m, env, Config(stack, [Token(ENV_VAR, name)] + rest), Config(stack + [f], rest), Config(stack + [Frame(t, Str(env(name)))], rest));
  }

  /** After a comparator, an environment variable is resolved and read as the value. */
  lemma VariableIsResolved(env: Env, stack: seq<Frame>, name: string, rest: seq<Token>)
    requires stack != [] && 48 <= Top(stack) <= 53
    ensures Reaches(Conf(), env, Config(stack, [Token(ENV_VAR, name)] + rest),
                    Config(stack + [Frame(Top(stack) + 27, Str(env(name)))], rest))
  {
    ConfVariableRows();
    ComparedGoto();
    ReadVariable(Conf(), env, stack, name, rest, Top(stack) + 27);
  }

  function CommandFrames(s: nat, name: string, value: string): (r: seq<Frame>) {
    [Frame(AfterIdentifier(s), Str(name)), Frame(47, Str("(")), Frame(74, Str(value)), Frame(93, Str(")"))]
  }

  function CommandTokens(ident: Lexer, name: string, value: string, rest: seq<Token>): (r: seq<Token>) {
    [Token(IDENTIFIER, name)] + ([Token(OPEN, "(")] + ([ValueToken(ident, value)] + ([Token(CLOSE, ")")] + rest)))
  }

  lemma ShiftCommand(m: Automaton, env: Env, ident: Lexer, stack: seq<Frame>, name: string, value: string, rest: seq<Token>)
    requires Drives(m) && CommandRows(m) && stack != [] && Begins(Top(stack))
    ensures Reaches(m, env, Config(stack, CommandTokens(ident, name, value, rest)), Config(stack + CommandFrames(Top(stack), name, value), rest))
  {
    var f := CommandFrames(Top(stack), name, value);
    var t3 := [Token(CLOSE, ")")] + rest;
    var t2 := [ValueToken(ident, value)] + t3;
    var t1 := [Token(OPEN, "(")] + t2;
    var c0 := Config(stack, CommandTokens(ident, name, value, rest));
    var s1 := stack + [f[0]];
    var s2 := s1 + [f[1]];
    var s3 := s2 + [f[2]];
    Shifts(m, env, stack, Token(IDENTIFIER, name), t1, f[0].state);
    Shifts(m, env, s1, Token(OPEN, "("), t2, 47);
    Then(m, env, c0, Config(s1, t1), Config(s2, t2));
    ParseValue(m, env, ident, s2, value, t3, 74);
    Then(m, env, c0, Config(s2, t2), Config(s3, t3));
    Shifts(m, env, s3, Token(CLOSE, ")"), rest, 93);
    Then(m, env, c0, Config(s3, t3), Config(s3 + [f[3]], rest));
    assert s3 + [f[3]] == stack + f;
  }

  lemma ReduceCommand(m: Automaton, env: Env, stack: seq<Frame>, name: string, value: string, rest: seq<Token>)
    requires Drives(m) && CommandRows(m) && stack != [] && Begins(Top(stack))
    ensures Reaches(m, env, Config(stack + CommandFrames(Top(stack), name, value), rest),
                    Config(Read(stack, Cond(OpCmd, name, value, [])), rest))
  {
    var f, t := CommandFrames(Top(stack), name, value), Cond(OpCmd, name, value, []);
    var item := [Frame(29, Item(t))];
    Reduces(m, env, stack, f, rest, 27, EXTENDED, 29);
    assert Act(env, 27, Sems(f)) == Item(t);
    Reduces(m, env, stack, item, rest, 28, EXPRESSION, AfterExpression(Top(stack)));
    Then(m, env, Config(stack + f, rest), Config(stack + item, rest), Config(Read(stack, t), rest));
  }

  /** `name(value)` is read as a command. */
  lemma CommandIsRead(env: Env, ident: Lexer, stack: seq<Frame>, name: string, value: string, rest: seq<Token>)
    requires stack != [] && Begins(Top(stack))
    ensures Reaches(Conf(), env, Config(stack, CommandTokens(ident, name, value, rest)),
                    Config(Read(stack, Cond(OpCmd, name, value, [])), rest))
  {
    ConfDrives();
    ConfCommandRows();
    ShiftCommand(Conf(), env, ident, stack, name, value, rest);
    ReduceCommand(Conf(), env, stack, name, value, rest);
    Then(Conf(), env, Config(stack, CommandTokens(ident, name, value, rest)),
         Config(stack + CommandFrames(Top(stack), name, value), rest), Config(Read(stack, Cond(OpCmd, name, value, [])), rest));
  }
}
