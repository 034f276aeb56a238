/**
 * Operations on one id, or on one name, get past the constraint stage in push order, whatever the
 * threads do and whenever ids are found.
 */
module PipelineSerial {
  import opened Common
  import opened PipelineState
  import opened PipelineOrder
  import opened PipelineInvariant
  import opened PipelineExclusion
  import opened PipelineTheorems

  /** It has an id, or is past the stage at which it could still get one. */
  ghost predicate Decided(c: Config, o: Op) {
    o.id.Some? || o.stage > c.constraint
  }

  /** Nothing is active behind an operation that may still get an id. */
  ghost predicate NoOvertaking(c: Config, ops: map<nat, Op>) {
    forall p, q :: p in ops && q in ops && p < q && Active(c, ops[q]) ==> Decided(c, ops[p])
  }

  /** Operations are registered in push order. */
  ghost predicate Serial(c: Config, s: State) {
    Increasing(s.reg) && NoOvertaking(c, s.ops)
  }

  /* ---- where operations are ---- */

  /** What was pushed before something listed at stage `j` is listed there or at a later stage. */
  lemma EarlierIsAhead(s: State, p: nat, q: nat, j: nat) returns (l: nat)
    requires InOrder(s) && p in s.ops && p < q && j < |s.stages| && q in s.stages[j].entries
    ensures j <= l < |s.stages| && p in s.stages[l].entries
  {
    l := InSomeList(s, p);
    FlowIncreasing(s.stages);
  }

  /** A registered or active operation is listed at the constraint stage or a later one. */
  lemma ListedPast(c: Config, s: State, p: nat) returns (j: nat)
    requires Base(c, s) && Registered(c, s) && p in s.ops && (p in s.reg || Active(c, s.ops[p]))
    ensures c.constraint <= j < |s.stages| && p in s.stages[j].entries
  {
    j := InSomeList(s, p);
    assert LocatedAt(c, s.ops, j, p) && RegisteredAt(c, s.ops[p], j);
  }

  /** Appending later operations keeps the order of registration. */
  lemma AppendIncreasing(a: seq<nat>, b: seq<nat>)
    requires Increasing(a) && Increasing(b) && forall p, q :: p in a && q in b ==> p < q
    ensures Increasing(a + b)
  {
    var c := a + b;
    forall i, j | 0 <= i < j < |c| ensures c[i] < c[j] {
      if i < |a| <= j {
        assert c[i] in a && c[j] in b;
      }
    }
  }

  /* ---- every event ---- */

  lemma PushKeepsSerial(c: Config, s: State, e: Event)
    requires Inv(c, s) && Serial(c, s) && e.Push? && Enabled(c, s, e)
    ensures Serial(c, DoPush(c, s, e))
  {
    NotPushedYet(c, s);
    AppendIncreasing(s.reg, [s.pushed]);
  }

  lemma MoveKeepsSerial(c: Config, s: State, src: nat)
    requires Inv(c, s) && Serial(c, s) && Enabled(c, s, Move(src))
    ensures Serial(c, DoMove(c, s, src))
  {
    var s' := DoMove(c, s, src);
    MoveFacts(c, s, src);
    MoveKeepsReg(c, s, src);
    forall p, q | p in s'.ops && q in s'.ops && p < q && Active(c, s'.ops[q]) ensures Decided(c, s'.ops[p]) {
      assert Active(c, s.ops[q]);
    }
  }

  lemma MoveKeepsReg(c: Config, s: State, src: nat)
    requires Base(c, s) && Registered(c, s) && Increasing(s.reg) && Enabled(c, s, Move(src))
    ensures Increasing(DoMove(c, s, src).reg)
  {
    var k := ReadyLen(s.stages[src].entries, s.ops, src);
    if MoveTarget(c, s, src) == c.constraint {
      RegisterMoved(c, s, src, s.stages[src].entries[..k]);
    }
  }

  lemma RegisterMoved(c: Config, s: State, src: nat, moved: seq<nat>)
    requires Base(c, s) && Registered(c, s) && Increasing(s.reg) && src < c.constraint && moved <= s.stages[src].entries
    ensures Increasing(s.reg + ToRegister(moved, s.ops))
  {
    FlowIncreasing(s.stages);
    assert Increasing(moved) by {
      assert Increasing(s.stages[src].entries);
    }
    OnlyIncreasing(moved, set p | p in s.ops && !s.ops[p].referenced && s.ops[p].id.Some?);
    forall p, q | p in s.reg && q in ToRegister(moved, s.ops) ensures p < q {
      RegisteredIsEarlier(c, s, src, p, q);
    }
    AppendIncreasing(s.reg, ToRegister(moved, s.ops));
  }

  lemma RegisteredIsEarlier(c: Config, s: State, src: nat, p: nat, q: nat)
    requires Base(c, s) && Registered(c, s) && src < c.constraint && p in s.reg && q in s.stages[src].entries
    ensures p < q
  {
    var j := ListedPast(c, s, p);
    FlowAcross(s.stages, src, j, q, p);
  }

  /** What starts at the constraint stage has only operations with an id before it, or ones past the stage. */
  lemma PickKeepsSerial(c: Config, s: State, t: nat, i: nat, k: nat, len: nat)
    requires Inv(c, s) && Serial(c, s) && Enabled(c, s, Pick(t, i, k, len))
    ensures Serial(c, DoPick(c, s, t, i, k, len))
  {
    var s' := DoPick(c, s, t, i, k, len);
    var batch := s.stages[i].entries[k..k + len];
    BatchFacts(c, s, i, k, len);
    forall p, q | p in s'.ops && q in s'.ops && p < q && Active(c, s'.ops[q]) ensures Decided(c, s'.ops[p]) {
      if !Active(c, s.ops[q]) {
        PickedBehind(c, s, t, i, k, len, p, q);
      }
    }
  }

  lemma PickedBehind(c: Config, s: State, t: nat, i: nat, k: nat, len: nat, p: nat, q: nat)
    requires Base(c, s) && Guarded(c, s) && CanPick(c, s, i, k, len) && p in s.ops && q in s.ops && p < q
    requires q in s.stages[i].entries[k..k + len] && i == c.constraint && s.ops[q].id.Some?
    ensures Decided(c, s.ops[p])
  {
    PickRules(c, s, t, i, k, len);
    StartedBehind(c, s, k, p);
  }

  lemma StartedBehind(c: Config, s: State, k: nat, p: nat)
    requires Base(c, s) && k < |s.stages[c.constraint].entries| && MayStart(c, s, k)
    requires s.ops[s.stages[c.constraint].entries[k]].id.Some?
    requires p in s.ops && p < s.stages[c.constraint].entries[k]
    ensures Decided(c, s.ops[p])
  {
    var e := s.stages[c.constraint].entries;
    assert e[k] in e;
    var l := EarlierIsAhead(s, p, e[k], c.constraint);
    assert LocatedAt(c, s.ops, l, p);
    if l == c.constraint {
      var a :| 0 <= a < |e| && e[a] == p;
      FlowIncreasing(s.stages);
      assert a < k;
    }
  }

  lemma AckKeepsSerial(c: Config, s: State, t: nat, next: nat, remove: bool)
    requires Inv(c, s) && Serial(c, s) && Enabled(c, s, Ack(t, next, remove))
    ensures Serial(c, DoAck(c, s, t, next, remove))
  {
    var s' := DoAck(c, s, t, next, remove);
    JobStage(c, s, t);
    WithoutIncreasing(s.reg, Elems(s.workers[t].ops));
    forall p, q | p in s'.ops && q in s'.ops && p < q && Active(c, s'.ops[q]) ensures Decided(c, s'.ops[p]) {
      assert Active(c, s.ops[q]);
    }
  }

  /** An id found late: the operation heads the constraint stage, so everything before it is past the stage. */
  lemma ResolveKeepsSerial(c: Config, s: State, t: nat, found: Option<Id>)
    requires Inv(c, s) && Serial(c, s) && Enabled(c, s, Resolve(t, found))
    ensures Serial(c, DoResolve(s, s.workers[t].ops[0], found))
  {
    var p := s.workers[t].ops[0];
    JobStage(c, s, t);
    assert p in s.workers[t].ops && s.ops[p].processing;
    assert FidOk(c, s.ops[p]) && Alone(c, s, p);
    HeadIsOldest(c, s, p);
    if found.Some? {
      AppendIncreasing([p], s.reg);
    }
  }

  lemma HeadIsLeast(e: seq<nat>, q: nat)
    requires Increasing(e) && q in e
    ensures e[0] <= q
  {
  }

  /** What was pushed before the head of the constraint stage is past that stage. */
  lemma AheadOfHead(c: Config, s: State, q: nat)
    requires Base(c, s) && s.stages[c.constraint].entries != [] && q in s.ops && q < s.stages[c.constraint].entries[0]
    ensures s.ops[q].stage > c.constraint
  {
    var e := s.stages[c.constraint].entries;
    var l := EarlierIsAhead(s, q, e[0], c.constraint);
    FlowListsIncreasing(s.stages);
    assert q !in e by {
      if q in e {
        HeadIsLeast(e, q);
      }
    }
    assert LocatedAt(c, s.ops, l, q);
  }

  lemma HeadIsOldest(c: Config, s: State, p: nat)
    requires Inv(c, s) && p in s.ops && Alone(c, s, p) && p !in s.reg
    ensures forall q :: q in s.reg ==> p < q
    ensures forall q :: q in s.ops && q < p ==> Decided(c, s.ops[q])
  {
    forall q | q in s.ops && q < p ensures s.ops[q].stage > c.constraint {
      AheadOfHead(c, s, q);
    }
    forall q | q in s.reg ensures p < q {
      assert s.ops[q].id.Some? && !Active(c, s.ops[q]);
    }
  }

  lemma SetIdKeepsSerial(c: Config, s: State, t: nat, newId: Id)
    requires Inv(c, s) && Serial(c, s) && Enabled(c, s, SetId(t, newId))
    ensures Serial(c, Next(c, s, SetId(t, newId)))
  {
    JobStage(c, s, t);
  }

  lemma RestKeepsSerial(c: Config, s: State, e: Event)
    requires WellShaped(c, s) && Serial(c, s) && Enabled(c, s, e) && (e.TakeToken? || e.PostToken? || e.Unblock?)
    ensures Serial(c, Next(c, s, e))
  {
  }

  lemma EventKeepsSerial(c: Config, s: State, e: Event)
    requires Inv(c, s) && Serial(c, s) && Enabled(c, s, e)
    ensures Serial(c, Next(c, s, e))
  {
    match e
    case Push(_, _, _, _) => PushKeepsSerial(c, s, e);
    case Move(src) => MoveKeepsSerial(c, s, src);
    case Pick(t, i, k, len) => PickKeepsSerial(c, s, t, i, k, len);
    case Ack(t, next, remove) => AckKeepsSerial(c, s, t, next, remove);
    case Resolve(t, found) => ResolveKeepsSerial(c, s, t, found);
    case SetId(t, newId) => SetIdKeepsSerial(c, s, t, newId);
    case _ => RestKeepsSerial(c, s, e);
  }

  /** Both hold in every state of every run. */
  lemma {:induction false} RunSerial(c: Config, states: seq<State>, events: seq<Event>, n: nat)
    requires ValidConfig(c) && IsRun(c, states, events) && n < |states|
    ensures Inv(c, states[n]) && Serial(c, states[n])
  {
    RunInv(c, states, events, n);
    if n > 0 {
      RunSerial(c, states, events, n - 1);
      EventKeepsSerial(c, states[n - 1], events[n - 1]);
    }
  }

  /**
   * Behind every active operation: what was pushed before it and is still there has another id and
   * another name, or will never have an id.
   */
  lemma EarlierIsElsewhere(c: Config, s: State, p: nat, q: nat)
    requires Inv(c, s) && Serial(c, s) && p in s.ops && q in s.ops && p < q && Active(c, s.ops[q])
    ensures s.ops[p].id != s.ops[q].id && Decided(c, s.ops[p])
    ensures s.ops[p].id.Some? && s.ops[q].name.Some? ==> s.ops[p].name != s.ops[q].name
  {
    assert IsFirst(s.ops, s.reg, q);
    if s.ops[p].id.Some? {
      var j := ListedPast(c, s, q);
      var l := EarlierIsAhead(s, p, q, j);
      assert RegisteredAt(c, s.ops[p], l);
      BeforeOrAfter(s.reg, p, q);
      if q in Before(s.reg, p) {
        IncreasingBefore(s.reg, q, p);
      }
    }
  }

  lemma IncreasingBefore(reg: seq<nat>, a: nat, b: nat)
    requires Increasing(reg) && b in reg && a in Before(reg, b)
    ensures a < b
  {
    var r := Before(reg, b);
    var i :| 0 <= i < |r| && r[i] == a;
    assert reg[i] == a && reg[|r|] == b;
  }
}
