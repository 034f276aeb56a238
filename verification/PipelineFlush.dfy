/** Sequences of atomic moves: what the recursive move of finished operations amounts to. */
module PipelineFlush {
  import opened Common
  import opened PipelineState
  import opened PipelineOrder
  import opened PipelineInvariant
  import opened PipelineTheorems

  /** Registration is all that a move changes in an operation. */
  ghost predicate SameButRegistered(ops: map<nat, Op>, ops': map<nat, Op>) {
    && ops'.Keys == ops.Keys
    && forall p :: p in ops ==> ops'[p] == ops[p].(referenced := ops'[p].referenced)
  }

  ghost predicate StagesBounded(c: Config, s: State) {
    |s.stages| == |c.defs| && forall p :: p in s.ops ==> s.ops[p].stage < |c.defs|
  }

  lemma {:induction false} ReadyLenSame(entries: seq<nat>, ops: map<nat, Op>, ops': map<nat, Op>, src: nat)
    requires SameButRegistered(ops, ops')
    ensures ReadyLen(entries, ops, src) == ReadyLen(entries, ops', src)
  {
    if entries != [] {
      ReadyLenSame(entries[1..], ops, ops', src);
    }
  }

  /** `s'` is `s` after one atomic move from `src`. */
  ghost predicate Step(c: Config, s: State, src: nat, s': State) {
    StagesBounded(c, s) && Enabled(c, s, Move(src)) && s' == DoMove(c, s, src)
  }

  ghost function MoveSteps(c: Config): (r: (State, nat, State) -> bool)
    ensures forall s, src, s' :: r(s, src, s') <==> Step(c, s, src, s')
  {
    (s: State, src: nat, s': State) => Step(c, s, src, s')
  }

  /** Performing the moves of the stages `srcs`, each of them enabled, leads from `s` to `s'`. */
  ghost predicate MovesTo(c: Config, s: State, srcs: seq<nat>, s': State) {
    Chain(MoveSteps(c), s, srcs, s')
  }

  lemma NoMove(c: Config, s: State)
    ensures MovesTo(c, s, [], s)
  {
  }

  lemma MovesConcat(c: Config, s: State, a: seq<nat>, s1: State, b: seq<nat>, s2: State)
    requires MovesTo(c, s, a, s1) && MovesTo(c, s1, b, s2)
    ensures MovesTo(c, s, a + b, s2)
  {
    ChainConcat(MoveSteps(c), s, a, s1, b, s2);
  }

  lemma OneMore(c: Config, s: State, srcs: seq<nat>, s1: State, src: nat, s2: State)
    requires MovesTo(c, s, srcs, s1) && Step(c, s1, src, s2)
    ensures MovesTo(c, s, srcs + [src], s2)
  {
    ChainOne(MoveSteps(c), s1, src, s2);
    ChainConcat(MoveSteps(c), s, srcs, s1, [src], s2);
  }

  /* ---- what moves keep ---- */

  lemma MoveKeepsInv(c: Config, s: State, src: nat, s': State)
    requires Inv(c, s) && Step(c, s, src, s')
    ensures Inv(c, s')
  {
    EventKeepsInv(c, s, Move(src));
  }

  lemma MovesKeepInv(c: Config, s: State, srcs: seq<nat>, s': State)
    requires Inv(c, s) && MovesTo(c, s, srcs, s')
    ensures Inv(c, s')
  {
    forall x, src, y | Inv(c, x) && Step(c, x, src, y) ensures Inv(c, y) {
      MoveKeepsInv(c, x, src, y);
    }
    ChainKeeps(MoveSteps(c), x => Inv(c, x), s, srcs, s');
  }

  lemma MoveKeepsFlow(c: Config, s: State, src: nat, s': State)
    requires Step(c, s, src, s')
    ensures Flow(s'.stages) == Flow(s.stages)
  {
    var d := MoveTarget(c, s, src);
    FlowMove(s.stages, src, d, ReadyLen(s.stages[src].entries, s.ops, src), s'.stages[src], s'.stages[d]);
  }

  /** Moves lose, add and reorder nothing. */
  lemma MovesKeepFlow(c: Config, s: State, srcs: seq<nat>, s': State)
    requires MovesTo(c, s, srcs, s')
    ensures Flow(s'.stages) == Flow(s.stages)
  {
    forall x, src, y | Step(c, x, src, y) ensures Flow(y.stages) == Flow(x.stages) {
      MoveKeepsFlow(c, x, src, y);
    }
    ChainKeeps(MoveSteps(c), (x: State) => Flow(x.stages) == Flow(s.stages), s, srcs, s');
  }

  /** `s'` agrees with `s` on the stages below `src` and, but for registration, on the operations. */
  ghost predicate SameBelow(c: Config, s: State, s': State, src: nat) {
    && StagesBounded(c, s') && |s'.stages| == |s.stages| && SameButRegistered(s.ops, s'.ops)
    && (forall j :: 0 <= j < src && j < |s.stages| ==> s'.stages[j] == s.stages[j])
    && s' == s.(stages := s'.stages, ops := s'.ops, reg := s'.reg)
  }

  lemma MoveKeepsBelow(c: Config, s: State, x: State, a: nat, y: State, src: nat)
    requires SameBelow(c, s, x, src) && Step(c, x, a, y) && src <= a
    ensures SameBelow(c, s, y, src)
  {
  }

  lemma MovesKeepBelow(c: Config, s: State, srcs: seq<nat>, s': State, src: nat)
    requires MovesTo(c, s, srcs, s') && StagesBounded(c, s) && forall a :: a in srcs ==> a >= src
    ensures SameBelow(c, s, s', src)
  {
    forall x, a, y | a in srcs && SameBelow(c, s, x, src) && Step(c, x, a, y) ensures SameBelow(c, s, y, src) {
      MoveKeepsBelow(c, s, x, a, y, src);
    }
    ChainKeeps(MoveSteps(c), (x: State) => SameBelow(c, s, x, src), s, srcs, s');
  }

  /* ---- moves do not look at the stages below ---- */

  ghost function WithStage(s: State, src: nat, st: Stage): (r: State) {
    if src < |s.stages| then s.(stages := s.stages[src := st]) else s
  }

  lemma {:induction false} InsertStageFrame(ss: seq<Stage>, from: nat, upto: nat, src: nat, st: Stage)
    requires src < from <= upto < |ss|
    ensures InsertStage(ss[src := st], from, upto) == InsertStage(ss, from, upto)
    decreases upto - from
  {
    if from < upto {
      InsertStageFrame(ss, from + 1, upto, src, st);
    }
  }

  lemma StepFrame(c: Config, s: State, i: nat, s': State, src: nat, st: Stage)
    requires src < i && Step(c, s, i, s')
    ensures Step(c, WithStage(s, src, st), i, WithStage(s', src, st))
  {
    var t := WithStage(s, src, st);
    assert t.stages[i] == s.stages[i];
    var moved := s.stages[i].entries[..ReadyLen(s.stages[i].entries, s.ops, i)];
    assert forall p :: p in moved ==> Ready(s.ops, i, p);
    InsertStageFrame(s.stages, i + 1, MinStage(moved, s.ops), src, st);
    assert MoveTarget(c, t, i) == MoveTarget(c, s, i);
    assert DoMove(c, t, i).stages == s'.stages[src := st];
  }

  lemma MovesFrame(c: Config, s: State, srcs: seq<nat>, s': State, src: nat, st: Stage)
    requires MovesTo(c, s, srcs, s') && forall a :: a in srcs ==> a > src
    ensures MovesTo(c, WithStage(s, src, st), srcs, WithStage(s', src, st))
  {
    forall x, a, y | a in srcs && Step(c, x, a, y)
      ensures Step(c, WithStage(x, src, st), a, WithStage(y, src, st))
    {
      StepFrame(c, x, a, y, src, st);
    }
    ChainMap(MoveSteps(c), x => WithStage(x, src, st), s, srcs, s');
  }

  /* ---- uniqueness ---- */

  lemma ReadyLenIs(entries: seq<nat>, ops: map<nat, Op>, src: nat, k: nat)
    requires k <= |entries| && (forall j :: 0 <= j < k ==> Ready(ops, src, entries[j]))
    requires k < |entries| ==> !Ready(ops, src, entries[k])
    ensures ReadyLen(entries, ops, src) == k
  {
  }

  lemma MinStageIs(moved: seq<nat>, ops: map<nat, Op>, m: nat)
    requires moved != [] && forall p :: p in moved ==> p in ops && m <= ops[p].stage
    requires exists p :: p in moved && m == ops[p].stage
    ensures MinStage(moved, ops) == m
  {
  }

  lemma InsertStageIs(ss: seq<Stage>, from: nat, upto: nat, d: nat)
    requires from <= d <= upto < |ss| && (forall j :: from <= j < d ==> ss[j].entries == [])
    requires d < upto ==> ss[d].entries != []
    ensures InsertStage(ss, from, upto) == d
  {
  }

  lemma ToRegisterConcat(a: seq<nat>, b: seq<nat>, ops: map<nat, Op>)
    ensures ToRegister(a + b, ops) == ToRegister(a, ops) + ToRegister(b, ops)
  {
    OnlyConcat(a, b, set p | p in ops && !ops[p].referenced && ops[p].id.Some?);
  }

  lemma {:induction false} CountAtConcat(a: seq<nat>, b: seq<nat>, ops: map<nat, Op>, d: nat)
    ensures CountAt(a + b, ops, d) == CountAt(a, ops, d) + CountAt(b, ops, d)
  {
    if a == [] {
      assert a + b == b;
    } else {
      CountAtConcat(a[1..], b, ops, d);
      assert (a + b)[1..] == a[1..] + b;
    }
  }

  /** Cutting a prefix off a list keeps the flow increasing. */
  lemma FlowCut(ss: seq<Stage>, src: nat, k: nat, low: Stage)
    requires Increasing(Flow(ss)) && src < |ss| && k <= |ss[src].entries| && low.entries == ss[src].entries[k..]
    ensures Increasing(Flow(ss[src := low]))
  {
    var moved := ss[src].entries[..k];
    var gone := Elems(moved);
    FlowIncreasing(ss);
    assert ss[src].entries == moved + low.entries;
    WithoutConcat(moved, low.entries, gone);
    WithoutNothing(low.entries, gone);
    WithoutAll(moved, gone);
    FlowWithout(ss, src, low, gone);
    WithoutIncreasing(Flow(ss), gone);
  }

  lemma {:induction false} CountAtSame(moved: seq<nat>, ops: map<nat, Op>, ops': map<nat, Op>, d: nat)
    requires SameButRegistered(ops, ops')
    ensures CountAt(moved, ops, d) == CountAt(moved, ops', d)
  {
    if moved != [] {
      CountAtSame(moved[1..], ops, ops', d);
    }
  }

  lemma ToRegisterStep(rem: seq<nat>, n: nat, ops: map<nat, Op>)
    requires n < |rem| && rem[n] in ops
    ensures ToRegister(rem[..n + 1], ops)
            == ToRegister(rem[..n], ops) + (if !ops[rem[n]].referenced && ops[rem[n]].id.Some? then [rem[n]] else [])
  {
    assert rem[..n + 1] == rem[..n] + [rem[n]];
    ToRegisterConcat(rem[..n], [rem[n]], ops);
    OnlyOne(rem[n], set p | p in ops && !ops[p].referenced && ops[p].id.Some?);
  }

  lemma MarkOneMore(ops: map<nat, Op>, who: seq<nat>, p: nat)
    requires p in ops && p !in who
    ensures MarkReferenced(ops, who)[p] == ops[p]
    ensures MarkReferenced(ops, who + [p]) == MarkReferenced(ops, who)[p := ops[p].(referenced := true)]
  {
  }

  /** `s` is `s1` after the `k` operations `rem` were cut from `src`, registered, counted and spliced into `d`. */
  ghost predicate Spliced(c: Config, s1: State, s: State, src: nat, k: nat, d: nat) {
    && src < d < |s1.stages| && k <= |s1.stages[src].entries|
    && var rem := s1.stages[src].entries[..k];
    && var regs := if d == c.constraint then ToRegister(rem, s1.ops) else [];
    && var here := CountAt(rem, s1.ops, d);
    && s.ops == MarkReferenced(s1.ops, regs) && s.reg == s1.reg + regs
    && s.stages == s1.stages[src := s1.stages[src].(entries := s1.stages[src].entries[k..],
                                                    processed := s1.stages[src].processed - k)]
                            [d := s1.stages[d].(entries := s1.stages[d].entries + rem,
                                                unprocessed := s1.stages[d].unprocessed + here,
                                                processed := s1.stages[d].processed + k - here)]
    && s == s1.(stages := s.stages, ops := s.ops, reg := s.reg)
  }

  lemma SplicedIsStep(c: Config, s1: State, s: State, src: nat, k: nat, min: nat, d: nat)
    requires StagesBounded(c, s1) && Spliced(c, s1, s, src, k, d) && d <= min < |c.defs|
    requires k == ReadyLen(s1.stages[src].entries, s1.ops, src) && k > 0
    requires forall p :: p in s1.stages[src].entries[..k] ==> Ready(s1.ops, src, p)
    requires min == MinStage(s1.stages[src].entries[..k], s1.ops)
    requires d == InsertStage(s1.stages, src + 1, min)
    ensures Step(c, s1, src, s)
  {
    assert MoveTarget(c, s1, src) == d;
  }

  /** The same, when `s1` comes from a state `s0` with the same stage `src`. */
  lemma SplicedAfter(c: Config, s0: State, s1: State, s: State, src: nat, k: nat, min: nat, d: nat)
    requires SameBelow(c, s0, s1, src + 1) && Spliced(c, s1, s, src, k, d) && d <= min < |c.defs|
    requires k == ReadyLen(s0.stages[src].entries, s0.ops, src) && k > 0
    requires forall p :: p in s0.stages[src].entries[..k] ==> p in s0.ops
    requires min == MinStage(s0.stages[src].entries[..k], s0.ops)
    requires d == InsertStage(s1.stages, src + 1, min)
    ensures Step(c, s1, src, s) && ReadyLen(s.stages[src].entries, s.ops, src) == 0
  {
    var entries := s0.stages[src].entries;
    assert s1.stages[src] == s0.stages[src];
    ReadyLenSame(entries, s0.ops, s1.ops, src);
    MinStageIs(entries[..k], s1.ops, min);
    assert forall p :: p in s1.stages[src].entries[..k] ==> Ready(s1.ops, src, p);
    SplicedIsStep(c, s1, s, src, k, min, d);
    assert SameButRegistered(s1.ops, s.ops);
    ReadyLenIs(entries[k..], s.ops, src, 0);
  }

  /** What moving relies on in the lists; it also holds between the cut and the splice. */
  ghost predicate SoundLists(c: Config, s: State) {
    && StagesBounded(c, s)
    && (forall j, p :: 0 <= j < |s.stages| && p in s.stages[j].entries ==> p in s.ops)
    && Increasing(Flow(s.stages))
  }

  lemma MovesKeepSound(c: Config, s: State, srcs: seq<nat>, s': State)
    requires MovesTo(c, s, srcs, s') && SoundLists(c, s)
    ensures SoundLists(c, s')
  {
    MovesKeepFlow(c, s, srcs, s');
    MovesKeepBelow(c, s, srcs, s', 0);
    forall j, p | 0 <= j < |s'.stages| && p in s'.stages[j].entries ensures p in s'.ops {
      FlowMember(s'.stages, p);
      FlowMember(s.stages, p);
    }
  }

  /* ---- the phases of the recursive move ---- */

  /** Moves from above `src` lead to `s`, with the stages between `src` and `i` empty. */
  ghost predicate Flushed(c: Config, s0: State, srcs: seq<nat>, s: State, src: nat, i: nat) {
    && MovesTo(c, s0, srcs, s) && (forall a :: a in srcs ==> a > src)
    && i <= |s.stages| && forall j :: src < j < i ==> s.stages[j].entries == []
  }

  lemma FlushedMore(c: Config, s0: State, srcs: seq<nat>, s: State, src: nat, i: nat, more: seq<nat>, s': State)
    requires Flushed(c, s0, srcs, s, src, i) && StagesBounded(c, s) && src < i < |s.stages|
    requires MovesTo(c, s, more, s') && forall a :: a in more ==> a >= i
    ensures Flushed(c, s0, srcs + more, s', src, i)
    ensures i < |s'.stages| && (s'.stages[i].entries == [] ==> Flushed(c, s0, srcs + more, s', src, i + 1))
  {
    MovesConcat(c, s0, srcs, s, more, s');
    MovesKeepBelow(c, s, more, s', i);
  }

  function Cut(st: Stage, k: nat): (r: Stage)
    requires k <= |st.entries|
  {
    st.(entries := st.entries[k..], processed := st.processed - k)
  }

  /** `s` is `s1` with the `k` first operations of `src` taken out; moves above `src` lead from `s0` to `s1`. */
  ghost predicate OnItsWay(c: Config, s0: State, srcs: seq<nat>, s1: State, s: State, src: nat, k: nat) {
    && src < |s0.stages| && k <= |s0.stages[src].entries|
    && MovesTo(c, s0, srcs, s1) && (forall a :: a in srcs ==> a > src)
    && SameBelow(c, s0, s1, src + 1) && s == WithStage(s1, src, Cut(s0.stages[src], k))
  }

  /** Giving the cut stage its list back: what was done above it are moves from the state before the cut. */
  lemma Uncut(c: Config, s0: State, src: nat, k: nat, srcs: seq<nat>, s: State)
    requires StagesBounded(c, s0) && src < |s0.stages| && k <= |s0.stages[src].entries|
    requires MovesTo(c, WithStage(s0, src, Cut(s0.stages[src], k)), srcs, s) && forall a :: a in srcs ==> a > src
    ensures OnItsWay(c, s0, srcs, WithStage(s, src, s0.stages[src]), s, src, k)
  {
    var st := s0.stages[src];
    var s0' := WithStage(s0, src, Cut(st, k));
    MovesFrame(c, s0', srcs, s, src, st);
    WithStageTwice(s0, src, Cut(st, k), st);
    MovesKeepBelow(c, s0', srcs, s, src + 1);
    MovesKeepBelow(c, s0, srcs, WithStage(s, src, st), src + 1);
    WithStageTwice(s, src, st, Cut(st, k));
  }

  lemma WithStageTwice(s: State, src: nat, a: Stage, b: Stage)
    requires src < |s.stages| && s.stages[src] == b
    ensures WithStage(WithStage(s, src, a), src, b) == s
  {
    assert WithStage(WithStage(s, src, a), src, b).stages == s.stages;
  }

  lemma CutSound(c: Config, s: State, src: nat, k: nat)
    requires SoundLists(c, s) && src < |s.stages| && k <= |s.stages[src].entries|
    ensures SoundLists(c, WithStage(s, src, Cut(s.stages[src], k)))
    ensures Distinct(s.stages[src].entries[..k]) && forall p :: p in s.stages[src].entries[..k] ==> p in s.ops
  {
    FlowCut(s.stages, src, k, Cut(s.stages[src], k));
    FlowIncreasing(s.stages);
  }

  /** The operations `rem`, cut from `src` of `s1`, can be spliced into stage `insert`. */
  ghost predicate CanSplice(s1: State, s: State, src: nat, rem: seq<nat>, insert: nat) {
    && src < insert < |s.stages| && src < |s1.stages| && |rem| <= |s1.stages[src].entries|
    && rem == s1.stages[src].entries[..|rem|] && Distinct(rem)
    && (forall p :: p in rem ==> p in s.ops && insert <= s.ops[p].stage)
    && s == WithStage(s1, src, Cut(s1.stages[src], |rem|))
  }

  lemma OnItsWayFacts(c: Config, s0: State, srcs: seq<nat>, s1: State, s: State, src: nat, k: nat, min: nat)
    requires OnItsWay(c, s0, srcs, s1, s, src, k) && StagesBounded(c, s0) && src < min < |c.defs|
    requires k == ReadyLen(s0.stages[src].entries, s0.ops, src) && k > 0
    requires forall p :: p in s0.stages[src].entries[..k] ==> p in s0.ops
    requires min == MinStage(s0.stages[src].entries[..k], s0.ops) && Distinct(s0.stages[src].entries[..k])
    ensures |s.stages| == |c.defs| == |s1.stages|
    ensures InsertStage(s1.stages, src + 1, min) == InsertStage(s.stages, src + 1, min)
    ensures CanSplice(s1, s, src, s0.stages[src].entries[..k], InsertStage(s.stages, src + 1, min))
  {
    assert s1.stages[src] == s0.stages[src];
    InsertStageFrame(s1.stages, src + 1, min, src, Cut(s0.stages[src], k));
  }
}
