/** Lowering of Boolean and set expressions of the configuration to the trees that entries are matched with. */
module BoolExpr {
  import opened Common

  /* ---- what the parser delivers ---- */

  datatype KeyValue = KeyValue(op: Operator, name: string, value: string)
  datatype BoolOp = Identity | Not | And | Or
  datatype Expr = Condition(kv: KeyValue) | Unary(uop: BoolOp, e: Expr) | Binary(bop: BoolOp, e1: Expr, e2: Expr)
  datatype SetOp = SetNot | SetUnion | SetInter
  datatype SetExpr = Singleton(name: string) | Negation(nop: SetOp, s: SetExpr) | Combined(sop: SetOp, s1: SetExpr, s2: SetExpr)

  /* ---- what entries are matched with ---- */

  datatype Comparator = CEqual | CDiff | CGt | CGtEq | CLt | CLtEq | CLike | CUnlike | CNone
  datatype Value = Text(s: string) | Number(n: int)
  datatype Triplet = Triplet(crit: nat, op: Comparator, val: Value)
  datatype NodeOp = NNot | NAnd | NOr
  datatype Node = Cond(t: Triplet) | UnaryNode(uop: NodeOp, n: Node) | BinaryNode(bop: NodeOp, n1: Node, n2: Node)

  datatype Result<+T> = Ok(value: T) | Error

  datatype Criterion = Criterion(id: nat, mask: set<nat>, text: bool, notEmpty: bool, noSlash: bool,
                                 noWildcards: bool, positive: bool, comparable: bool, onlyStatus: bool, isStatus: bool)

  /** The status manager a policy refers to; `statusMask` is the attribute that holds its status. */
  datatype Manager = Manager(statusMask: set<nat>, deletedEntries: bool, statuses: set<string>)

  /** The table of criteria, how numbers are read, and the status manager of the context. */
  datatype Context = Context(lookup: string -> Option<Criterion>, parse: (nat, string) -> Option<int>, smi: Option<Manager>)

  datatype Class = Class(id: string, definition: Node, mask: set<nat>)

  predicate Wildcards(s: string) { '*' in s || '?' in s || '[' in s || ']' in s || '{' in s || '}' in s }

  function ToComparator(op: Operator): (c: Comparator) {
    match op
    case OpEqual => CEqual
    case OpDiff => CDiff
    case OpGt => CGt
    case OpGtEq => CGtEq
    case OpLt => CLt
    case OpLtEq => CLtEq
    case OpCmd => CNone
  }

  function ToNodeOp(op: BoolOp): (r: Option<NodeOp>) {
    match op
    case Not => Some(NNot)
    case And => Some(NAnd)
    case Or => Some(NOr)
    case Identity => None
  }

  predicate IsEquality(c: Comparator) { c.CEqual? || c.CDiff? || c.CLike? || c.CUnlike? }

  /** An attribute mask that callees add to. */
  class MaskRef {
    var mask: set<nat>

    constructor ()
      ensures mask == {}
    {
      mask := {};
    }
  }

  /* ---- conditions ---- */

  /** The attributes a condition needs; a criterion of a status manager needs one. */
  function CondMask(ctx: Context, kv: KeyValue): (r: Option<set<nat>>) {
    var c := ctx.lookup(kv.name);
    if c.None? then None
    else if !c.value.onlyStatus then Some(c.value.mask)
    else if ctx.smi.None? then None
    else if c.value.isStatus then Some(ctx.smi.value.statusMask)
    else if ctx.smi.value.deletedEntries then Some(c.value.mask)
    else None
  }

  /** The value of a condition, if it has the right form for its criterion. */
  function CondValue(ctx: Context, c: Criterion, kv: KeyValue): (r: Option<Value>) {
    if c.text then
      if (c.notEmpty && kv.value == "") || (c.noSlash && '/' in kv.value)
        || (c.noWildcards && Wildcards(kv.value))
        || (c.isStatus && kv.value != "" && ctx.smi.Some? && kv.value !in ctx.smi.value.statuses)
      then None else Some(Text(kv.value))
    else
      var n := ctx.parse(c.id, kv.value);
      if n.None? || (c.positive && n.value < 0) then None else Some(Number(n.value))
  }

  function CondOp(c: Criterion, kv: KeyValue): (op: Comparator) {
    var op := ToComparator(kv.op);
    if c.text && Wildcards(kv.value) then
      (if op.CEqual? then CLike else if op.CDiff? then CUnlike else op)
    else op
  }

  function LowerCond(ctx: Context, kv: KeyValue): (r: Result<Triplet>) {
    if CondMask(ctx, kv).None? then Error
    else
      var c := ctx.lookup(kv.name).value;
      var v := CondValue(ctx, c, kv);
      if v.None? || (!c.comparable && !IsEquality(CondOp(c, kv))) then Error
      else Ok(Triplet(c.id, CondOp(c, kv), v.value))
  }

  /** Interpret and check a condition, adding the attributes it needs to the mask. */
  method InterpretCondition(ctx: Context, kv: KeyValue, out: MaskRef) returns (r: Result<Triplet>)
    modifies out
    ensures r == LowerCond(ctx, kv)
    ensures r.Ok? ==> CondMask(ctx, kv).Some? && out.mask == old(out.mask) + CondMask(ctx, kv).value
    ensures old(out.mask) <= out.mask
  {
    var c := ctx.lookup(kv.name);
    if c.None? {
      return Error;
    }
    if c.value.onlyStatus {
      if ctx.smi.None? {
        return Error;
      } else if c.value.isStatus {
        out.mask := out.mask + ctx.smi.value.statusMask;
      } else if ctx.smi.value.deletedEntries {
        out.mask := out.mask + c.value.mask;
      } else {
        return Error;
      }
    } else {
      out.mask := out.mask + c.value.mask;
    }
    var op := ToComparator(kv.op);
    var v;
    if c.value.text {
      if c.value.notEmpty && kv.value == "" {
        return Error;
      }
      if c.value.noSlash && '/' in kv.value {
        return Error;
      }
      if Wildcards(kv.value) {
        if c.value.noWildcards {
          return Error;
        }
        if op == CEqual {
          op := CLike;
        } else if op == CDiff {
          op := CUnlike;
        }
      }
      if c.value.isStatus && kv.value != "" && ctx.smi.Some? && kv.value !in ctx.smi.value.statuses {
        return Error;
      }
      v := Text(kv.value);
    } else {
      var n := ctx.parse(c.value.id, kv.value);
      if n.None? || (c.value.positive && n.value < 0) {
        return Error;
      }
      v := Number(n.value);
    }
    if !c.value.comparable && op != CEqual && op != CDiff && op != CLike && op != CUnlike {
      return Error;
    }
    return Ok(Triplet(c.value.id, op, v));
  }

  /* ---- Boolean expressions ---- */

  function LowerBool(ctx: Context, e: Expr): (r: Result<Node>) {
    match e
    case Condition(kv) => (match LowerCond(ctx, kv) case Ok(t) => Ok(Cond(t)) case Error => Error)
    case Unary(op, e1) =>
      if op.Identity? then LowerBool(ctx, e1)
      else (match LowerBool(ctx, e1) case Ok(n) => Ok(UnaryNode(ToNodeOp(op).value, n)) case Error => Error)
    case Binary(op, e1, e2) =>
      if op.Identity? then Error
      else match LowerBool(ctx, e1)
        case Error => Error
        case Ok(n1) => (match LowerBool(ctx, e2) case Ok(n2) => Ok(BinaryNode(ToNodeOp(op).value, n1, n2)) case Error => Error)
  }

  /** The union of what the conditions of an expression need. */
  function ExprMask(ctx: Context, e: Expr): (m: set<nat>) {
    match e
    case Condition(kv) => if CondMask(ctx, kv).Some? then CondMask(ctx, kv).value else {}
    case Unary(_, e1) => ExprMask(ctx, e1)
    case Binary(_, e1, e2) => ExprMask(ctx, e1) + ExprMask(ctx, e2)
  }

  /** Build the tree of an expression; on success exactly what its conditions need is added to the mask. */
  method BuildBoolExpr(ctx: Context, e: Expr, out: MaskRef) returns (r: Result<Node>)
    modifies out
    ensures r == LowerBool(ctx, e)
    ensures r.Ok? ==> out.mask == old(out.mask) + ExprMask(ctx, e)
    decreases e
  {
    match e
    case Condition(kv) =>
      var t := InterpretCondition(ctx, kv, out);
      return if t.Ok? then Ok(Cond(t.value)) else Error;
    case Unary(op, e1) =>
      if op == Identity {
        r := BuildBoolExpr(ctx, e1, out);
        return;
      }
      var n := BuildBoolExpr(ctx, e1, out);
      return if n.Ok? then Ok(UnaryNode(ToNodeOp(op).value, n.value)) else Error;
    case Binary(op, e1, e2) =>
      if ToNodeOp(op).None? {
        return Error;
      }
      var n1 := BuildBoolExpr(ctx, e1, out);
      if n1.Error? {
        return Error;
      }
      var n2 := BuildBoolExpr(ctx, e2, out);
      return if n2.Ok? then Ok(BinaryNode(ToNodeOp(op).value, n1.value, n2.value)) else Error;
  }

  /* ---- what is accepted, and what it needs ---- */

  function Conditions(e: Expr): (s: set<KeyValue>) {
    match e
    case Condition(kv) => {kv}
    case Unary(_, e1) => Conditions(e1)
    case Binary(_, e1, e2) => Conditions(e1) + Conditions(e2)
  }

  /** No operator between two operands stands for nothing. */
  predicate Joins(e: Expr) {
    match e
    case Condition(_) => true
    case Unary(_, e1) => Joins(e1)
    case Binary(op, e1, e2) => op != Identity && Joins(e1) && Joins(e2)
  }

  /** The text has none of the characters of a pattern. */
  ghost predicate Literal(s: string) {
    forall i :: 0 <= i < |s| ==> s[i] !in {'*', '?', '[', ']', '{', '}'}
  }

  /** The value is one that the criterion takes. */
  ghost predicate Takes(ctx: Context, c: Criterion, value: string) {
    if c.text then
      && (c.notEmpty ==> value != [])
      && (c.noSlash ==> '/' !in value)
      && (c.noWildcards ==> Literal(value))
      && (c.isStatus && ctx.smi.Some? && value != [] ==> value in ctx.smi.value.statuses)
    else
      ctx.parse(c.id, value).Some? && (c.positive ==> ctx.parse(c.id, value).value >= 0)
  }

  /** A condition on a known criterion, available here, with a value it takes and a comparator it has. */
  ghost predicate Acceptable(ctx: Context, kv: KeyValue) {
    && ctx.lookup(kv.name).Some?
    && var c := ctx.lookup(kv.name).value;
       && (c.onlyStatus ==> ctx.smi.Some? && (c.isStatus || ctx.smi.value.deletedEntries))
       && Takes(ctx, c, kv.value)
       && (!c.comparable ==> kv.op == OpEqual || kv.op == OpDiff)
  }

  lemma WildcardsMean(s: string)
    ensures Wildcards(s) <==> !Literal(s)
  {
  }

  lemma ConditionAccepted(ctx: Context, kv: KeyValue)
    ensures LowerCond(ctx, kv).Ok? <==> Acceptable(ctx, kv)
  {
    WildcardsMean(kv.value);
  }

  /** Building succeeds exactly when no operator stands for nothing and every condition is acceptable. */
  lemma {:induction false} BuildsExactly(ctx: Context, e: Expr)
    ensures LowerBool(ctx, e).Ok? <==> Joins(e) && forall kv :: kv in Conditions(e) ==> Acceptable(ctx, kv)
  {
    match e
    case Condition(kv) =>
      ConditionAccepted(ctx, kv);
      assert kv in Conditions(e);
    case Unary(_, e1) => BuildsExactly(ctx, e1);
    case Binary(_, e1, e2) =>
      BuildsExactly(ctx, e1);
      BuildsExactly(ctx, e2);
  }

  /** The condition needs attribute `a`: one of its criterion, or the status itself. */
  ghost predicate Needs(ctx: Context, kv: KeyValue, a: nat) {
    && ctx.lookup(kv.name).Some?
    && var c := ctx.lookup(kv.name).value;
       if c.onlyStatus && ctx.smi.Some? && c.isStatus then a in ctx.smi.value.statusMask
       else a in c.mask && (c.onlyStatus ==> ctx.smi.Some? && ctx.smi.value.deletedEntries)
  }

  lemma ConditionNeeds(ctx: Context, kv: KeyValue, a: nat)
    ensures CondMask(ctx, kv).Some? && a in CondMask(ctx, kv).value <==> Needs(ctx, kv, a)
  {
  }

  /** The mask of an expression holds exactly what its conditions need. */
  lemma {:induction false} MaskExactly(ctx: Context, e: Expr, a: nat)
    ensures a in ExprMask(ctx, e) <==> exists kv :: kv in Conditions(e) && Needs(ctx, kv, a)
  {
    match e
    case Condition(kv) =>
      ConditionNeeds(ctx, kv, a);
      assert kv in Conditions(e) && forall other :: other in Conditions(e) ==> other == kv;
    case Unary(_, e1) => MaskExactly(ctx, e1, a);
    case Binary(_, e1, e2) =>
      MaskExactly(ctx, e1, a);
      MaskExactly(ctx, e2, a);
  }

  /* ---- matching ---- */

  datatype Match = Yes | No | Missing | Err

  function OfBool(b: bool): (m: Match) { if b then Yes else No }

  function Negate(m: Match): (r: Match) {
    match m
    case Yes => No
    case No => Yes
    case _ => m
  }

  /** Attribute values of an entry, by criterion, and how patterns match. */
  datatype Entry = Entry(attrs: map<nat, Value>, glob: (string, string) -> bool)

  function Compare(a: int, op: Comparator, b: int): (m: Match) {
    match op
    case CEqual => OfBool(a == b)
    case CDiff => OfBool(a != b)
    case CGt => OfBool(a > b)
    case CGtEq => OfBool(a >= b)
    case CLt => OfBool(a < b)
    case CLtEq => OfBool(a <= b)
    case _ => Err
  }

  function TestTriplet(x: Entry, t: Triplet): (m: Match) {
    if t.crit !in x.attrs then Missing
    else match (x.attrs[t.crit], t.val)
      case (Text(a), Text(b)) =>
        (match t.op
         case CEqual => OfBool(a == b)
         case CDiff => OfBool(a != b)
         case CLike => OfBool(x.glob(b, a))
         case CUnlike => OfBool(!x.glob(b, a))
         case _ => Err)
      case (Number(a), Number(b)) => Compare(a, t.op, b)
      case _ => Err
  }

  /** Match an entry with a tree; the second operand is looked at when the first does not decide. */
  function Matches(x: Entry, n: Node): (m: Match) {
    match n
    case Cond(t) => TestTriplet(x, t)
    case UnaryNode(op, n1) => if op.NNot? then Negate(Matches(x, n1)) else Err
    case BinaryNode(op, n1, n2) =>
      var m := Matches(x, n1);
      if op.NOr? && m.Yes? then Yes
      else if op.NAnd? && m.No? then No
      else if !m.Yes? && !m.No? then m
      else Matches(x, n2)
  }

  /* ---- what expressions mean ---- */

  /** The meaning of a condition: `==` and `!=` with wildcards are pattern matches. */
  function CondMeaning(ctx: Context, x: Entry, kv: KeyValue): (m: Match) {
    var c := ctx.lookup(kv.name);
    if c.None? then Err
    else if c.value.id !in x.attrs then Missing
    else match x.attrs[c.value.id]
      case Text(a) =>
        if !c.value.text then Err
        else
          var same := if Wildcards(kv.value) then x.glob(kv.value, a) else a == kv.value;
          if kv.op.OpEqual? then OfBool(same) else if kv.op.OpDiff? then OfBool(!same) else Err
      case Number(a) =>
        if c.value.text || ctx.parse(c.value.id, kv.value).None? then Err
        else
          var b := ctx.parse(c.value.id, kv.value).value;
          match kv.op
          case OpEqual => OfBool(a == b)
          case OpDiff => OfBool(a != b)
          case OpGt => OfBool(a > b)
          case OpGtEq => OfBool(a >= b)
          case OpLt => OfBool(a < b)
          case OpLtEq => OfBool(a <= b)
          case OpCmd => Err
  }

  /** `a or b` and `a and b` where `a` is looked at first and may be undecided. */
  function OrThen(a: Match, b: Match): (m: Match) { if a.No? then b else a }
  function AndThen(a: Match, b: Match): (m: Match) { if a.Yes? then b else a }

  function ExprMeaning(ctx: Context, x: Entry, e: Expr): (m: Match) {
    match e
    case Condition(kv) => CondMeaning(ctx, x, kv)
    case Unary(op, e1) =>
      (match op
       case Identity => ExprMeaning(ctx, x, e1)
       case Not => Negate(ExprMeaning(ctx, x, e1))
       case _ => Err)
    case Binary(op, e1, e2) =>
      (match op
       case And => AndThen(ExprMeaning(ctx, x, e1), ExprMeaning(ctx, x, e2))
       case Or => OrThen(ExprMeaning(ctx, x, e1), ExprMeaning(ctx, x, e2))
       case _ => Err)
  }

  /** No negation stands between two operands. */
  predicate Proper(e: Expr) {
    match e
    case Condition(_) => true
    case Unary(_, e1) => Proper(e1)
    case Binary(op, e1, e2) => !op.Not? && Proper(e1) && Proper(e2)
  }

  lemma LoweredCond(ctx: Context, x: Entry, kv: KeyValue)
    requires LowerCond(ctx, kv).Ok?
    ensures TestTriplet(x, LowerCond(ctx, kv).value) == CondMeaning(ctx, x, kv)
  {
  }

  /** A tree that was built matches an entry exactly as the expression means. */
  lemma {:induction false} LoweringPreservesMeaning(ctx: Context, x: Entry, e: Expr)
    requires LowerBool(ctx, e).Ok? && Proper(e)
    ensures Matches(x, LowerBool(ctx, e).value) == ExprMeaning(ctx, x, e)
  {
    match e
    case Condition(kv) => LoweredCond(ctx, x, kv);
    case Unary(op, e1) => LoweringPreservesMeaning(ctx, x, e1);
    case Binary(op, e1, e2) =>
      LoweringPreservesMeaning(ctx, x, e1);
      LoweringPreservesMeaning(ctx, x, e2);
  }

  /** Two-valued meaning: what the operators mean when every condition is decided. */
  predicate Holds(ctx: Context, x: Entry, e: Expr) {
    match e
    case Condition(kv) => CondMeaning(ctx, x, kv).Yes?
    case Unary(op, e1) => if op.Not? then !Holds(ctx, x, e1) else Holds(ctx, x, e1)
    case Binary(op, e1, e2) =>
      if op.And? then Holds(ctx, x, e1) && Holds(ctx, x, e2) else Holds(ctx, x, e1) || Holds(ctx, x, e2)
  }

  /** Every condition is decided on the entry, and the operators have the number of operands they should. */
  predicate Decided(ctx: Context, x: Entry, e: Expr) {
    match e
    case Condition(kv) => CondMeaning(ctx, x, kv).Yes? || CondMeaning(ctx, x, kv).No?
    case Unary(op, e1) => (op.Not? || op.Identity?) && Decided(ctx, x, e1)
    case Binary(op, e1, e2) => (op.And? || op.Or?) && Decided(ctx, x, e1) && Decided(ctx, x, e2)
  }

  /** On decided conditions the tree is plain Boolean logic. */
  lemma {:induction false} LoweringIsBoolean(ctx: Context, x: Entry, e: Expr)
    requires LowerBool(ctx, e).Ok? && Decided(ctx, x, e)
    ensures Matches(x, LowerBool(ctx, e).value) == OfBool(Holds(ctx, x, e))
  {
    match e
    case Condition(kv) => LoweredCond(ctx, x, kv);
    case Unary(op, e1) => LoweringIsBoolean(ctx, x, e1);
    case Binary(op, e1, e2) =>
      LoweringIsBoolean(ctx, x, e1);
      LoweringIsBoolean(ctx, x, e2);
  }

  /**
   * The first operand is looked at first: it decides `or` when it matches and `and` when it does not, an
   * undecided one leaves the whole undecided, and otherwise the second decides.
   */
  lemma FirstOperandDecides(ctx: Context, x: Entry, e1: Expr, e2: Expr)
    requires LowerBool(ctx, e1).Ok? && LowerBool(ctx, e2).Ok?
    ensures var m1, m2 := Matches(x, LowerBool(ctx, e1).value), Matches(x, LowerBool(ctx, e2).value);
      var disjunction, conjunction, negation := Binary(Or, e1, e2), Binary(And, e1, e2), Unary(Not, e1);
      && LowerBool(ctx, disjunction).Ok? && LowerBool(ctx, conjunction).Ok? && LowerBool(ctx, negation).Ok?
      && Matches(x, LowerBool(ctx, disjunction).value) == (if m1 == No then m2 else m1)
      && Matches(x, LowerBool(ctx, conjunction).value) == (if m1 == Yes then m2 else m1)
      && Matches(x, LowerBool(ctx, negation).value) == (if m1 == Yes then No else if m1 == No then Yes else m1)
      && LowerBool(ctx, Unary(Identity, e1)) == LowerBool(ctx, e1)
  {
    var n1, n2 := LowerBool(ctx, e1).value, LowerBool(ctx, e2).value;
    assert LowerBool(ctx, Binary(Or, e1, e2)) == Ok(BinaryNode(NOr, n1, n2));
    assert LowerBool(ctx, Binary(And, e1, e2)) == Ok(BinaryNode(NAnd, n1, n2));
    assert LowerBool(ctx, Unary(Not, e1)) == Ok(UnaryNode(NNot, n1));
  }

  /** A condition on an attribute that the entry does not have is not decided, and one on a value of another type is an error. */
  lemma UndecidedConditions(ctx: Context, x: Entry, kv: KeyValue)
    requires LowerBool(ctx, Condition(kv)).Ok?
    ensures ctx.lookup(kv.name).Some?
    ensures var id, m := ctx.lookup(kv.name).value.id, Matches(x, LowerBool(ctx, Condition(kv)).value);
      && (m == Missing <==> id !in x.attrs)
      && (id in x.attrs && x.attrs[id].Text? != ctx.lookup(kv.name).value.text ==> m == Err)
  {
  }

  /** A negation between two operands is accepted, and matches as its second operand. */
  lemma NegationBetweenOperands(ctx: Context, x: Entry, e1: Expr, e2: Expr)
    requires LowerBool(ctx, e1).Ok? && LowerBool(ctx, e2).Ok?
    requires Matches(x, LowerBool(ctx, e1).value).Yes? || Matches(x, LowerBool(ctx, e1).value).No?
    ensures LowerBool(ctx, Binary(Not, e1, e2)).Ok?
    ensures Matches(x, LowerBool(ctx, Binary(Not, e1, e2)).value) == Matches(x, LowerBool(ctx, e2).value)
    ensures ExprMeaning(ctx, x, Binary(Not, e1, e2)) == Err
  {
    assert LowerBool(ctx, Binary(Not, e1, e2)) == Ok(BinaryNode(NNot, LowerBool(ctx, e1).value, LowerBool(ctx, e2).value));
  }

  /* ---- set expressions ---- */

  function LowerCase(s: string): (r: string)
    ensures |r| == |s|
  {
    seq(|s|, i requires 0 <= i < |s| => if 'A' <= s[i] <= 'Z' then s[i] - 'A' + 'a' else s[i])
  }

  predicate SameName(a: string, b: string) { LowerCase(a) == LowerCase(b) }

  /** The first class of that name. */
  function FindClass(classes: seq<Class>, name: string): (r: Option<Class>) {
    if classes == [] then None
    else if SameName(classes[0].id, name) then Some(classes[0])
    else FindClass(classes[1..], name)
  }

  lemma {:induction false} FindClassSkips(classes: seq<Class>, name: string, n: nat)
    requires n <= |classes| && forall i :: 0 <= i < n ==> !SameName(classes[i].id, name)
    ensures FindClass(classes, name) == FindClass(classes[n..], name)
  {
    if n > 0 {
      FindClassSkips(classes[1..], name, n - 1);
      assert classes[1..][n - 1..] == classes[n..];
    }
  }

  /** Equal but for the case of letters. */
  ghost predicate SameLetters(a: string, b: string) {
    |a| == |b| && forall i :: 0 <= i < |a| ==>
      || a[i] == b[i]
      || ('A' <= a[i] <= 'Z' && b[i] as int == a[i] as int + 32)
      || ('A' <= b[i] <= 'Z' && a[i] as int == b[i] as int + 32)
  }

  lemma SameNameMeans(a: string, b: string)
    ensures SameName(a, b) <==> SameLetters(a, b)
  {
    var x, y := LowerCase(a), LowerCase(b);
    if |a| == |b| {
      forall i | 0 <= i < |a| ensures x[i] == y[i] <==>
        (a[i] == b[i] || ('A' <= a[i] <= 'Z' && b[i] as int == a[i] as int + 32)
         || ('A' <= b[i] <= 'Z' && a[i] as int == b[i] as int + 32))
      {
      }
    }
  }

  /** A name refers to the first class of that name, whatever the case of its letters. */
  lemma {:induction false} FindsFirst(classes: seq<Class>, name: string, i: nat)
    requires i < |classes| && SameLetters(classes[i].id, name) && forall j :: 0 <= j < i ==> !SameLetters(classes[j].id, name)
    ensures FindClass(classes, name) == Some(classes[i])
  {
    SameNameMeans(classes[0].id, name);
    if i > 0 {
      FindsFirst(classes[1..], name, i - 1);
    }
  }

  lemma {:induction false} FindsNone(classes: seq<Class>, name: string)
    requires forall j :: 0 <= j < |classes| ==> !SameLetters(classes[j].id, name)
    ensures FindClass(classes, name) == None
  {
    if classes != [] {
      SameNameMeans(classes[0].id, name);
      FindsNone(classes[1..], name);
    }
  }

  function LowerSet(classes: seq<Class>, s: SetExpr): (r: Result<Node>) {
    match s
    case Singleton(name) =>
      var c := FindClass(classes, name);
      if c.Some? then Ok(c.value.definition) else Error
    case Negation(op, s1) =>
      if !op.SetNot? then Error
      else (match LowerSet(classes, s1) case Ok(n) => Ok(UnaryNode(NNot, n)) case Error => Error)
    case Combined(op, s1, s2) =>
      if op.SetNot? then Error
      else match LowerSet(classes, s1)
        case Error => Error
        case Ok(n1) =>
          (match LowerSet(classes, s2)
           case Ok(n2) => Ok(BinaryNode(if op.SetUnion? then NOr else NAnd, n1, n2))
           case Error => Error)
  }

  function SetMask(classes: seq<Class>, s: SetExpr): (m: set<nat>) {
    match s
    case Singleton(name) => var c := FindClass(classes, name); if c.Some? then c.value.mask else {}
    case Negation(_, s1) => SetMask(classes, s1)
    case Combined(_, s1, s2) => SetMask(classes, s1) + SetMask(classes, s2)
  }

  /** Build the tree of a union or intersection of classes. */
  method BuildSetExpr(classes: seq<Class>, s: SetExpr, out: MaskRef) returns (r: Result<Node>)
    modifies out
    ensures r == LowerSet(classes, s)
    ensures r.Ok? ==> out.mask == old(out.mask) + SetMask(classes, s)
    decreases s
  {
    match s
    case Singleton(name) =>
      var i := 0;
      while i < |classes|
        invariant 0 <= i <= |classes| && out.mask == old(out.mask)
        invariant forall j :: 0 <= j < i ==> !SameName(classes[j].id, name)
      {
        if SameName(classes[i].id, name) {
          FindClassSkips(classes, name, i);
          out.mask := out.mask + classes[i].mask;
          return Ok(classes[i].definition);
        }
        i := i + 1;
      }
      FindClassSkips(classes, name, i);
      return Error;
    case Negation(op, s1) =>
      if op != SetNot {
        return Error;
      }
      var n := BuildSetExpr(classes, s1, out);
      return if n.Ok? then Ok(UnaryNode(NNot, n.value)) else Error;
    case Combined(op, s1, s2) =>
      if op == SetNot {
        return Error;
      }
      var n1 := BuildSetExpr(classes, s1, out);
      if n1.Error? {
        return Error;
      }
      var n2 := BuildSetExpr(classes, s2, out);
      return if n2.Ok? then Ok(BinaryNode(if op == SetUnion then NOr else NAnd, n1.value, n2.value)) else Error;
  }

  /** Does the entry belong to the class of that name? */
  function InClass(classes: seq<Class>, x: Entry, name: string): (m: Match) {
    var c := FindClass(classes, name);
    if c.Some? then Matches(x, c.value.definition) else Err
  }

  /** The classes a set expression names. */
  function Names(s: SetExpr): (r: set<string>) {
    match s
    case Singleton(name) => {name}
    case Negation(_, s1) => Names(s1)
    case Combined(_, s1, s2) => Names(s1) + Names(s2)
  }

  /** Membership in a set expression, given membership in its classes. */
  predicate Member(s: SetExpr, of: string -> bool) {
    match s
    case Singleton(name) => of(name)
    case Negation(_, s1) => !Member(s1, of)
    case Combined(op, s1, s2) => if op.SetUnion? then Member(s1, of) || Member(s2, of) else Member(s1, of) && Member(s2, of)
  }

  /** An entry matches the tree of a set expression exactly when it is a member, if it is known for every class. */
  lemma {:induction false} SetLoweringPreservesMeaning(classes: seq<Class>, x: Entry, s: SetExpr, of: string -> bool)
    requires LowerSet(classes, s).Ok?
    requires forall name :: name in Names(s) ==> InClass(classes, x, name) == OfBool(of(name))
    ensures Matches(x, LowerSet(classes, s).value) == OfBool(Member(s, of))
  {
    match s
    case Singleton(name) =>
      assert name in Names(s);
    case Negation(_, s1) => SetLoweringPreservesMeaning(classes, x, s1, of);
    case Combined(_, s1, s2) =>
      assert Names(s1) <= Names(s) && Names(s2) <= Names(s);
      SetLoweringPreservesMeaning(classes, x, s1, of);
      SetLoweringPreservesMeaning(classes, x, s2, of);
  }

  /** Building succeeds exactly when every class is defined and every operator has its number of operands. */
  lemma {:induction false} SetBuilds(classes: seq<Class>, s: SetExpr)
    ensures LowerSet(classes, s).Ok? <==>
      ProperSet(s) && forall name :: name in Names(s) ==> FindClass(classes, name).Some?
  {
    match s
    case Singleton(name) =>
      assert name in Names(s);
      assert forall n :: n in Names(s) ==> n == name;
    case Negation(_, s1) => SetBuilds(classes, s1);
    case Combined(_, s1, s2) =>
      SetBuilds(classes, s1);
      SetBuilds(classes, s2);
  }

  predicate ProperSet(s: SetExpr) {
    match s
    case Singleton(_) => true
    case Negation(op, s1) => op.SetNot? && ProperSet(s1)
    case Combined(op, s1, s2) => !op.SetNot? && ProperSet(s1) && ProperSet(s2)
  }

  /** Union, intersection and complement, given what is said of the parts. */
  lemma SetOperatorsMean(classes: seq<Class>, x: Entry, s1: SetExpr, s2: SetExpr, a: bool, b: bool)
    requires LowerSet(classes, s1).Ok? && Matches(x, LowerSet(classes, s1).value) == (if a then Yes else No)
    requires LowerSet(classes, s2).Ok? && Matches(x, LowerSet(classes, s2).value) == (if b then Yes else No)
    ensures var union, inter, rest := Combined(SetUnion, s1, s2), Combined(SetInter, s1, s2), Negation(SetNot, s1);
      && LowerSet(classes, union).Ok? && Matches(x, LowerSet(classes, union).value) == (if a || b then Yes else No)
      && LowerSet(classes, inter).Ok? && Matches(x, LowerSet(classes, inter).value) == (if a && b then Yes else No)
      && LowerSet(classes, rest).Ok? && Matches(x, LowerSet(classes, rest).value) == (if a then No else Yes)
  {
    var n1, n2 := LowerSet(classes, s1).value, LowerSet(classes, s2).value;
    assert LowerSet(classes, Combined(SetUnion, s1, s2)) == Ok(BinaryNode(NOr, n1, n2));
    assert LowerSet(classes, Combined(SetInter, s1, s2)) == Ok(BinaryNode(NAnd, n1, n2));
    assert LowerSet(classes, Negation(SetNot, s1)) == Ok(UnaryNode(NNot, n1));
  }
}
