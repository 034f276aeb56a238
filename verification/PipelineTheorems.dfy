/** What holds in every state of every run of the pipeline. */
module PipelineTheorems {
  import opened Common
  import opened PipelineState
  import opened PipelineOrder
  import opened PipelineInvariant
  import opened PipelineExclusion

  /** Everything started so far at the sequential stage `i` is past it, but possibly the last one. */
  ghost predicate InTurn(s: State, i: nat)
    requires i < |s.starts|
  {
    var started := s.starts[i];
    && Increasing(started)
    && (started != [] ==>
          && started[|started| - 1] < s.pushed
          && forall q :: q in s.ops && q <= started[|started| - 1] ==>
               s.ops[q].stage > i || (q == started[|started| - 1] && s.ops[q].stage == i && s.ops[q].processing))
  }

  ghost predicate Sequenced(c: Config, s: State) {
    |s.starts| == |c.defs| && forall i :: 0 <= i < |c.defs| && c.defs[i].sequential ==> InTurn(s, i)
  }

  ghost predicate Inv(c: Config, s: State) {
    Base(c, s) && Guarded(c, s) && Sequenced(c, s)
  }

  /**
   * When a sequential stage starts an operation, every operation pushed before it has left the
   * pipeline or is past that stage.
   */
  lemma SequentialStartsInPushOrder(c: Config, s: State, i: nat, k: nat, len: nat)
    requires Base(c, s) && CanPick(c, s, i, k, len) && c.defs[i].sequential
    ensures forall q :: q in s.ops && q < s.stages[i].entries[k] ==> s.ops[q].stage > i
  {
    var p := s.stages[i].entries[k];
    FlowIncreasing(s.stages);
    assert p in s.stages[i].entries;
    forall q | q in s.ops && q < p ensures s.ops[q].stage > i {
      var j := InSomeList(s, q);
      assert LocatedAt(c, s.ops, j, q);
      assert j >= i;
      if j == i {
        var a :| 0 <= a < |s.stages[i].entries| && s.stages[i].entries[a] == q;
        assert a < k;
      }
    }
  }

  lemma PickKeepsTurn(c: Config, s: State, t: nat, i: nat, k: nat, len: nat)
    requires Base(c, s) && Sequenced(c, s) && Enabled(c, s, Pick(t, i, k, len))
    ensures Sequenced(c, DoPick(c, s, t, i, k, len))
  {
    var s' := DoPick(c, s, t, i, k, len);
    forall l | 0 <= l < |c.defs| && c.defs[l].sequential ensures InTurn(s', l) {
      assert InTurn(s, l);
      if l == i {
        SequentialStartsInPushOrder(c, s, i, k, len);
        assert s.stages[i].entries[k] in s.ops;
        PickInTurn(c, s, t, i, k, len);
      }
    }
  }

  lemma PickInTurn(c: Config, s: State, t: nat, i: nat, k: nat, len: nat)
    requires CanPick(c, s, i, k, len) && c.defs[i].sequential && |s.starts| == |c.defs| && InTurn(s, i)
    requires s.stages[i].entries[k] < s.pushed
    requires forall q :: q in s.ops && q < s.stages[i].entries[k] ==> s.ops[q].stage > i
    ensures InTurn(DoPick(c, s, t, i, k, len), i)
  {
    var p := s.stages[i].entries[k];
    assert s.stages[i].entries[k..k + len] == [p];
    StartedInTurn(s, DoPick(c, s, t, i, k, len), i, p);
  }

  lemma StartedInTurn(s: State, s': State, i: nat, p: nat)
    requires i < |s.starts| && i < |s'.starts| && InTurn(s, i) && s'.starts[i] == s.starts[i] + [p]
    requires p in s.ops && !s.ops[p].processing && s.ops[p].stage == i && p < s.pushed == s'.pushed
    requires s'.ops == MarkProcessing(s.ops, [p]) && forall q :: q in s.ops && q < p ==> s.ops[q].stage > i
    ensures InTurn(s', i)
  {
  }

  /** From `s` to `s'` nothing is started, and operations only go forward. */
  ghost predicate Forward(s: State, s': State) {
    && s'.starts == s.starts && s'.pushed >= s.pushed
    && forall q :: q in s'.ops && q < s.pushed ==>
         && q in s.ops && s'.ops[q].stage >= s.ops[q].stage
         && (s'.ops[q].stage == s.ops[q].stage ==> s'.ops[q].processing == s.ops[q].processing)
  }

  lemma AckForward(c: Config, s: State, t: nat, next: nat, remove: bool)
    requires WellShaped(c, s) && Held(s) && Located(c, s) && Enabled(c, s, Ack(t, next, remove))
    ensures Forward(s, DoAck(c, s, t, next, remove))
  {
    JobStage(c, s, t);
  }

  lemma MoveForward(c: Config, s: State, src: nat)
    requires WellShaped(c, s) && Enabled(c, s, Move(src))
    ensures Forward(s, DoMove(c, s, src))
  {
    MoveFacts(c, s, src);
  }

  lemma EventForward(c: Config, s: State, e: Event)
    requires Base(c, s) && Enabled(c, s, e) && !e.Pick?
    ensures Forward(s, Next(c, s, e))
  {
    match e
    case Push(_, _, _, _) => NotPushedYet(c, s);
    case Ack(t, next, remove) => AckForward(c, s, t, next, remove);
    case Move(src) => MoveForward(c, s, src);
    case _ => OtherEventShape(c, s, e);
  }

  lemma ForwardKeepsTurn(c: Config, s: State, s': State)
    requires Sequenced(c, s) && Forward(s, s')
    ensures Sequenced(c, s')
  {
    forall i | 0 <= i < |c.defs| && c.defs[i].sequential ensures InTurn(s', i) {
      assert InTurn(s, i);
    }
  }

  lemma EventKeepsInv(c: Config, s: State, e: Event)
    requires Inv(c, s) && Enabled(c, s, e)
    ensures Inv(c, Next(c, s, e))
  {
    EventKeepsBase(c, s, e);
    EventKeepsGuarded(c, s, e);
    if e.Pick? {
      PickKeepsTurn(c, s, e.t, e.i, e.k, e.len);
    } else {
      EventForward(c, s, e);
      ForwardKeepsTurn(c, s, Next(c, s, e));
    }
  }

  lemma InitInv(c: Config, s: State)
    requires ValidConfig(c) && Init(c, s)
    ensures Inv(c, s)
  {
    InitBase(c, s);
  }

  /** The invariant holds in every state of every run. */
  lemma {:induction false} RunInv(c: Config, states: seq<State>, events: seq<Event>, n: nat)
    requires ValidConfig(c) && IsRun(c, states, events) && n < |states|
    ensures Inv(c, states[n])
  {
    if n == 0 {
      InitInv(c, states[0]);
    } else {
      RunInv(c, states, events, n - 1);
      EventKeepsInv(c, states[n - 1], events[n - 1]);
    }
  }

  /* ---- the results ---- */

  /** In every reachable state the lists, read from the last stage to the first, are in push order. */
  lemma GlobalOrder(c: Config, states: seq<State>, events: seq<Event>, n: nat)
    requires ValidConfig(c) && IsRun(c, states, events) && n < |states|
    ensures Increasing(Flow(states[n].stages))
    ensures forall p :: p in Flow(states[n].stages) <==> p in states[n].ops
  {
    RunInv(c, states, events, n);
  }

  /** At most one operation per id, and per parent/name, is being processed at the constraint stage or past it. */
  lemma OneActivePerId(c: Config, states: seq<State>, events: seq<Event>, n: nat, p: nat, q: nat)
    requires ValidConfig(c) && IsRun(c, states, events) && n < |states|
    requires p in states[n].ops && q in states[n].ops && p != q
    requires Active(c, states[n].ops[p]) && Active(c, states[n].ops[q])
    ensures states[n].ops[p].id != states[n].ops[q].id
    ensures states[n].ops[p].name.Some? ==> states[n].ops[p].name != states[n].ops[q].name
  {
    RunInv(c, states, events, n);
    ActiveApart(c, states[n], p, q);
  }

  lemma {:induction false} BeforeOrAfter(s: seq<nat>, p: nat, q: nat)
    requires p in s && q in s && p != q
    ensures p in Before(s, q) || q in Before(s, p)
  {
    if s[0] != p && s[0] != q {
      BeforeOrAfter(s[1..], p, q);
    }
  }

  lemma ActiveApart(c: Config, s: State, p: nat, q: nat)
    requires Guarded(c, s)
    requires p in s.ops && q in s.ops && p != q && Active(c, s.ops[p]) && Active(c, s.ops[q])
    ensures s.ops[p].id != s.ops[q].id
    ensures s.ops[p].name.Some? ==> s.ops[p].name != s.ops[q].name
  {
    assert IsFirst(s.ops, s.reg, p) && IsFirst(s.ops, s.reg, q);
    BeforeOrAfter(s.reg, p, q);
  }

  /** The operations a worker holds past the constraint stage have pairwise distinct ids. */
  lemma BatchIdsDistinct(c: Config, states: seq<State>, events: seq<Event>, n: nat, t: nat, a: nat, b: nat)
    requires ValidConfig(c) && IsRun(c, states, events) && n < |states|
    requires t in states[n].workers && states[n].workers[t].at > c.constraint
    requires a < b < |states[n].workers[t].ops|
    ensures var s := states[n]; var p, q := s.workers[t].ops[a], s.workers[t].ops[b];
      p in s.ops && q in s.ops && (s.ops[p].id.Some? && s.ops[q].id.Some? ==> s.ops[p].id != s.ops[q].id)
  {
    RunInv(c, states, events, n);
    var s := states[n];
    JobStage(c, s, t);
    var p, q := s.workers[t].ops[a], s.workers[t].ops[b];
    if s.ops[p].id.Some? && s.ops[q].id.Some? {
      ActiveApart(c, s, p, q);
    }
  }

  /** What a sequential stage has started, over a whole run, is in push order. */
  lemma StartsInPushOrder(c: Config, states: seq<State>, events: seq<Event>, n: nat, i: nat)
    requires ValidConfig(c) && IsRun(c, states, events) && n < |states|
    requires i < |c.defs| && c.defs[i].sequential
    ensures |states[n].starts| == |c.defs| && Increasing(states[n].starts[i])
  {
    RunInv(c, states, events, n);
    assert InTurn(states[n], i);
  }

  /** Stage counters, thread counts and tokens are exact in every reachable state. */
  lemma CountersExact(c: Config, states: seq<State>, events: seq<Event>, n: nat, j: nat)
    requires ValidConfig(c) && IsRun(c, states, events) && n < |states| && j < |c.defs|
    ensures |states[n].stages| == |c.defs|
    ensures var s := states[n]; var st := s.stages[j];
      && st.unprocessed == |Those(st.entries, s.ops, j, Idle)|
      && st.current == |Those(st.entries, s.ops, j, Busy)|
      && st.processed == |Those(st.entries, s.ops, j, Past)|
      && st.threads == |JobsAt(s.workers, j)|
      && (forall p :: p in st.entries ==> p in s.ops && j <= s.ops[p].stage)
      && (Limited(c) ==> s.free + s.pushing + |s.ops| + s.releasing == c.maxPending)
  {
    RunInv(c, states, events, n);
    var s := states[n];
    assert CountersOf(s.stages[j], s.ops, j);
    forall p | p in s.stages[j].entries ensures p in s.ops && j <= s.ops[p].stage {
      assert LocatedAt(c, s.ops, j, p);
    }
  }

  /* ---- progress of the constraint manager ---- */

  /** The operation is listed at the constraint stage and waits to be started there. */
  ghost predicate Waits(c: Config, s: State, p: nat)
    requires c.constraint < |s.stages|
  {
    p in s.stages[c.constraint].entries && StatusOf(s.ops, p, c.constraint) == Idle
  }

  /** Whoever is working on what: a registered operation waits at the constraint stage exactly when it is not active. */
  lemma WaitsUnlessActive(c: Config, s: State, p: nat)
    requires Inv(c, s) && p in s.reg
    ensures p in s.ops && (Waits(c, s, p) <==> !Active(c, s.ops[p]))
  {
    var j := InSomeList(s, p);
    assert LocatedAt(c, s.ops, j, p) && RegisteredAt(c, s.ops[p], j);
  }

  /** The oldest registered operation passes the first-operation test, in every state. */
  lemma OldestMayStart(c: Config, s: State)
    requires Inv(c, s) && s.reg != []
    ensures IsFirst(s.ops, s.reg, s.reg[0])
    ensures s.reg[0] in s.ops && (Waits(c, s, s.reg[0]) <==> !Active(c, s.ops[s.reg[0]]))
  {
    assert Before(s.reg, s.reg[0]) == [];
    WaitsUnlessActive(c, s, s.reg[0]);
  }

  /**
   * Constraints never block in a cycle: the oldest of the registered operations that are not active
   * waits, and for nothing but an active operation on its id or on its name.
   */
  lemma NoConstraintCycle(c: Config, s: State, p: nat)
    requires Inv(c, s) && p in s.reg && p in s.ops && !Active(c, s.ops[p])
    requires forall q :: q in Before(s.reg, p) && q in s.ops ==> Active(c, s.ops[q])
    ensures Waits(c, s, p)
    ensures IsFirst(s.ops, s.reg, p) <==>
      !exists q :: q in s.ops && Active(c, s.ops[q]) && SameTarget(s.ops[q], s.ops[p])
  {
    WaitsUnlessActive(c, s, p);
    if q :| q in s.ops && Active(c, s.ops[q]) && SameTarget(s.ops[q], s.ops[p]) {
      assert IsFirst(s.ops, s.reg, q);
      BeforeOrAfter(s.reg, p, q);
    }
  }

  /** The operations are on one id, or on one name. */
  ghost predicate SameTarget(a: Op, b: Op) {
    a.id == b.id || (b.name.Some? && a.name == b.name)
  }
}
