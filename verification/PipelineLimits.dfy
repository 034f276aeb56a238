/** What may be started: limits on threads and batches in every run, and when exactly an operation may start. */
module PipelineLimits {
  import opened Common
  import opened PipelineState
  import opened PipelineOrder
  import opened PipelineInvariant
  import opened PipelineExclusion
  import opened PipelineTheorems
  import opened PipelineSerial

  /* ---- limits ---- */

  /** No stage has more threads than it may have, and a sequential one has one at most. */
  ghost predicate Uncrowded(c: Config, s: State) {
    forall i :: 0 <= i < |c.defs| && i < |s.stages| ==>
      && (c.defs[i].maxThreads > 0 ==> s.stages[i].threads <= c.defs[i].maxThreads)
      && (c.defs[i].sequential ==> s.stages[i].threads <= 1)
  }

  /** A thread holds one operation or, where batches are allowed, no more than a batch may have. */
  ghost predicate SmallJobs(c: Config, s: State) {
    forall t :: t in s.workers ==> SmallJob(c, s.workers[t])
  }

  ghost predicate SmallJob(c: Config, job: Job) {
    job.at < |c.defs| && (|job.ops| == 1 || (c.defs[job.at].batchable && |job.ops| <= c.maxBatch))
  }

  lemma PickKeepsLimits(c: Config, s: State, t: nat, i: nat, k: nat, len: nat)
    requires WellShaped(c, s) && Uncrowded(c, s) && SmallJobs(c, s) && CanPick(c, s, i, k, len)
    ensures Uncrowded(c, DoPick(c, s, t, i, k, len)) && SmallJobs(c, DoPick(c, s, t, i, k, len))
  {
  }

  lemma EventKeepsLimits(c: Config, s: State, e: Event)
    requires WellShaped(c, s) && Uncrowded(c, s) && SmallJobs(c, s) && Enabled(c, s, e)
    ensures Uncrowded(c, Next(c, s, e)) && SmallJobs(c, Next(c, s, e))
  {
    if e.Pick? {
      PickKeepsLimits(c, s, e.t, e.i, e.k, e.len);
    }
  }

  lemma {:induction false} RunLimits(c: Config, states: seq<State>, events: seq<Event>, n: nat)
    requires ValidConfig(c) && IsRun(c, states, events) && n < |states|
    ensures Uncrowded(c, states[n]) && SmallJobs(c, states[n])
  {
    if n > 0 {
      RunLimits(c, states, events, n - 1);
      EventKeepsLimits(c, states[n - 1], events[n - 1]);
    }
  }

  /**
   * In every state of every run: no stage is worked on by more threads than its limit, a sequential
   * stage by one at most, and no thread holds more operations than a batch of its stage may have.
   */
  lemma LimitsHold(c: Config, states: seq<State>, events: seq<Event>, n: nat, i: nat)
    requires ValidConfig(c) && IsRun(c, states, events) && n < |states| && i < |c.defs|
    ensures c.defs[i].maxThreads > 0 ==> |JobsAt(states[n].workers, i)| <= c.defs[i].maxThreads
    ensures c.defs[i].sequential ==> |JobsAt(states[n].workers, i)| <= 1
    ensures forall t :: t in states[n].workers && states[n].workers[t].at == i ==>
      |states[n].workers[t].ops| == 1 || (c.defs[i].batchable && |states[n].workers[t].ops| <= c.maxBatch)
  {
    RunInv(c, states, events, n);
    RunLimits(c, states, events, n);
    assert |JobsAt(states[n].workers, i)| == states[n].stages[i].threads;
    forall t | t in states[n].workers && states[n].workers[t].at == i ensures SmallJob(c, states[n].workers[t]) {
    }
  }

  /* ---- when an operation may start ---- */

  /** Everything at the constraint stage and above it waits at the constraint stage. */
  ghost predicate NothingElse(c: Config, s: State) {
    forall j, q :: c.constraint <= j < |s.stages| && q in s.stages[j].entries ==>
      j == c.constraint && StatusOf(s.ops, q, j) == Idle
  }

  lemma {:induction false} UpperTotalEmpty(ss: seq<Stage>, i: nat)
    requires forall j :: i <= j < |ss| ==> ss[j].current == 0 && ss[j].unprocessed == 0 && ss[j].processed == 0
    ensures UpperTotal(ss, i) == 0
    decreases |ss| - i
  {
    if i < |ss| {
      UpperTotalEmpty(ss, i + 1);
    }
  }

  /** The test on the sum of the counters means that nothing else is at the stage or above it. */
  lemma TotalMeans(c: Config, s: State)
    requires Base(c, s)
    ensures UpperTotal(s.stages, c.constraint) - s.stages[c.constraint].unprocessed == 0 <==> NothingElse(c, s)
  {
    assert forall j :: 0 <= j < |s.stages| ==> CountersOf(s.stages[j], s.ops, j);
    if NothingElse(c, s) {
      NothingCounted(c, s);
    }
    if UpperTotal(s.stages, c.constraint) - s.stages[c.constraint].unprocessed == 0 {
      UpperTotalZero(s.stages, c.constraint);
      forall j, q | c.constraint <= j < |s.stages| && q in s.stages[j].entries
        ensures j == c.constraint && StatusOf(s.ops, q, j) == Idle
      {
        assert LocatedAt(c, s.ops, j, q) && CountersOf(s.stages[j], s.ops, j);
        assert q in Those(s.stages[j].entries, s.ops, j, StatusOf(s.ops, q, j));
      }
    }
  }

  lemma NothingCounted(c: Config, s: State)
    requires Base(c, s) && NothingElse(c, s)
    ensures UpperTotal(s.stages, c.constraint) - s.stages[c.constraint].unprocessed == 0
  {
    forall j | c.constraint <= j < |s.stages|
      ensures s.stages[j].current == 0 && s.stages[j].processed == 0 && (j > c.constraint ==> s.stages[j].unprocessed == 0)
    {
      assert CountersOf(s.stages[j], s.ops, j);
      assert Those(s.stages[j].entries, s.ops, j, Busy) == {} && Those(s.stages[j].entries, s.ops, j, Past) == {};
      assert j > c.constraint ==> Those(s.stages[j].entries, s.ops, j, Idle) == {};
    }
    UpperTotalEmpty(s.stages, c.constraint + 1);
  }

  /** Something pushed earlier and not yet done with is on the same id or name. */
  ghost predicate HeldBack(s: State, p: nat)
    requires p in s.ops
  {
    exists q :: q in s.ops && q < p && s.ops[q].id.Some? && SameTarget(s.ops[q], s.ops[p])
  }

  lemma EarlierRegistered(c: Config, s: State, p: nat, q: nat)
    requires Inv(c, s) && Serial(c, s) && p in s.reg && p in s.ops && q in s.ops && q < p && s.ops[q].id.Some?
    ensures q in Before(s.reg, p)
  {
    var j := ListedPast(c, s, p);
    var l := EarlierIsAhead(s, q, p, j);
    assert RegisteredAt(c, s.ops[q], l);
    EarlierIsBefore(s.reg, q, p);
  }

  lemma BeforeIsEarlier(c: Config, s: State, p: nat, q: nat)
    requires Registered(c, s) && Increasing(s.reg) && p in s.reg && q in Before(s.reg, p) && q in s.ops
    ensures q < p && s.ops[q].id.Some?
  {
    IncreasingBefore(s.reg, q, p);
    assert q in s.reg;
  }

  /** The first-operation test holds back exactly what has an earlier operation on its id or its name. */
  lemma FirstMeans(c: Config, s: State, p: nat)
    requires Inv(c, s) && Serial(c, s) && p in s.reg && p in s.ops
    ensures IsFirst(s.ops, s.reg, p) <==> !HeldBack(s, p)
  {
    if q :| q in s.ops && q < p && s.ops[q].id.Some? && SameTarget(s.ops[q], s.ops[p]) {
      EarlierRegistered(c, s, p, q);
    }
    forall q | q in Before(s.reg, p) && q in s.ops ensures q < p && s.ops[q].id.Some? {
      BeforeIsEarlier(c, s, p, q);
    }
  }

  lemma EarlierIsBefore(reg: seq<nat>, a: nat, b: nat)
    requires Increasing(reg) && a in reg && b in reg && a < b
    ensures a in Before(reg, b)
  {
    BeforeOrAfter(reg, a, b);
    if b in Before(reg, a) {
      IncreasingBefore(reg, b, a);
    }
  }

  /** What an operation waits for at stage `i`, by what the threads and the other operations do. */
  ghost predicate Free(c: Config, s: State, i: nat, p: nat)
    requires i < |c.defs| == |s.stages| && p in s.ops
  {
    if c.defs[i].sequential then
      var e := s.stages[i].entries;
      JobsAt(s.workers, i) == {} && forall j :: 0 <= j < |e| && e[j] < p ==> e[j] in s.ops && s.ops[e[j]].stage != i
    else
      && (c.defs[i].maxThreads > 0 ==> |JobsAt(s.workers, i)| < c.defs[i].maxThreads)
      && (i == c.constraint ==> !s.forceSeq && FreeOfOthers(c, s, p))
  }

  ghost predicate FreeOfOthers(c: Config, s: State, p: nat)
    requires c.constraint < |s.stages| && p in s.ops
  {
    var e := s.stages[c.constraint].entries;
    && (forall j :: 0 <= j < |e| && e[j] < p ==> e[j] in s.ops && s.ops[e[j]].id.Some?)
    && if s.ops[p].id.Some? then !HeldBack(s, p) else NothingElse(c, s) && forall j :: 0 <= j < |e| ==> p <= e[j]
  }

  /** In a list in push order, the positions before `k` are those of earlier operations. */
  lemma PositionsBefore(e: seq<nat>, k: nat)
    requires Increasing(e) && k < |e|
    ensures forall j :: 0 <= j < |e| ==> (e[j] < e[k] <==> j < k)
    ensures k > 0 ==> e[0] < e[k]
  {
  }

  /** A listed operation is there. */
  lemma ListedIsThere(c: Config, s: State, i: nat)
    requires Located(c, s) && i < |s.stages|
    ensures forall j :: 0 <= j < |s.stages[i].entries| ==> s.stages[i].entries[j] in s.ops
  {
    forall j | 0 <= j < |s.stages[i].entries| ensures s.stages[i].entries[j] in s.ops {
      assert s.stages[i].entries[j] in s.stages[i].entries;
      assert LocatedAt(c, s.ops, i, s.stages[i].entries[j]);
    }
  }

  lemma FirstOrNot(c: Config, s: State, p: nat)
    requires Inv(c, s) && Serial(c, s) && p in s.stages[c.constraint].entries && p in s.ops && s.ops[p].id.Some?
    ensures IsFirst(s.ops, s.reg, p) <==> !HeldBack(s, p)
  {
    assert RegisteredAt(c, s.ops[p], c.constraint);
    FirstMeans(c, s, p);
  }

  lemma MayStartMeans(c: Config, s: State, k: nat)
    requires Inv(c, s) && Serial(c, s) && k < |s.stages[c.constraint].entries|
    requires s.stages[c.constraint].entries[k] in s.ops
    ensures MayStart(c, s, k) <==> FreeOfOthers(c, s, s.stages[c.constraint].entries[k])
  {
    var p := s.stages[c.constraint].entries[k];
    FlowListsIncreasing(s.stages);
    ListedIsThere(c, s, c.constraint);
    TotalMeans(c, s);
    if s.ops[p].id.Some? {
      FirstOrNot(c, s, p);
    }
    MayStartBy(c, s, k, s.stages[c.constraint].entries);
  }

  lemma MayStartBy(c: Config, s: State, k: nat, e: seq<nat>)
    requires c.constraint < |s.stages| && e == s.stages[c.constraint].entries && k < |e| && Increasing(e)
    requires forall j :: 0 <= j < |e| ==> e[j] in s.ops
    requires UpperTotal(s.stages, c.constraint) - s.stages[c.constraint].unprocessed == 0 <==> NothingElse(c, s)
    requires s.ops[e[k]].id.Some? ==> (IsFirst(s.ops, s.reg, e[k]) <==> !HeldBack(s, e[k]))
    ensures MayStart(c, s, k) <==> FreeOfOthers(c, s, e[k])
  {
    PositionsBefore(e, k);
  }

  lemma SequentialMeans(c: Config, s: State, i: nat, k: nat)
    requires Base(c, s) && i < |c.defs| && k < |s.stages[i].entries| && c.defs[i].sequential
    requires StatusOf(s.ops, s.stages[i].entries[k], i) == Idle
    ensures CanPick(c, s, i, k, 1) <==> Free(c, s, i, s.stages[i].entries[k])
  {
    FlowListsIncreasing(s.stages);
    PositionsBefore(s.stages[i].entries, k);
    ListedIsThere(c, s, i);
    assert s.stages[i].threads == |JobsAt(s.workers, i)|;
  }

  /**
   * An operation may be started, alone, exactly when it waits at its stage and is free to go: the test
   * on counters, list positions and registration amounts to what the threads and operations really do.
   */
  lemma StartsExactly(c: Config, s: State, i: nat, k: nat)
    requires Inv(c, s) && Serial(c, s) && i < |c.defs| && k < |s.stages[i].entries|
    ensures s.stages[i].entries[k] in s.ops
    ensures CanPick(c, s, i, k, 1) <==>
      StatusOf(s.ops, s.stages[i].entries[k], i) == Idle && Free(c, s, i, s.stages[i].entries[k])
  {
    var p := s.stages[i].entries[k];
    assert p in s.stages[i].entries && LocatedAt(c, s.ops, i, p);
    assert s.stages[i].threads == |JobsAt(s.workers, i)|;
    if StatusOf(s.ops, p, i) == Idle {
      if c.defs[i].sequential {
        SequentialMeans(c, s, i, k);
      } else if i == c.constraint {
        MayStartMeans(c, s, k);
      }
    }
  }

  /* ---- what events do ---- */

  /** Starting a batch tags its operations and gives them to the thread; lists and other operations stay. */
  lemma PickDoes(c: Config, s: State, t: nat, i: nat, k: nat, len: nat, p: nat)
    requires WellShaped(c, s) && Enabled(c, s, Pick(t, i, k, len)) && p in s.ops
    ensures var s', batch := Next(c, s, Pick(t, i, k, len)), s.stages[i].entries[k..k + len];
      && p in s'.ops && s'.ops[p] == (if p in batch then s.ops[p].(processing := true) else s.ops[p])
      && t in s'.workers && s'.workers[t] == Job(i, batch)
      && (forall u :: u in s.workers ==> u in s'.workers && s'.workers[u] == s.workers[u])
      && (forall j :: 0 <= j < |s.stages| ==> s'.stages[j].entries == s.stages[j].entries)
  {
  }

  /** An acknowledged operation is gone or waits for the next stage; the thread is free and other operations stay. */
  lemma AckDoes(c: Config, s: State, t: nat, next: nat, remove: bool, p: nat)
    requires WellShaped(c, s) && Enabled(c, s, Ack(t, next, remove)) && p in s.ops
    ensures var s', batch := Next(c, s, Ack(t, next, remove)), s.workers[t].ops;
      && t !in s'.workers
      && (p !in batch ==> p in s'.ops && s'.ops[p] == s.ops[p])
      && (p in batch && remove ==> p !in s'.ops && p !in s'.reg && p !in s'.stages[s.workers[t].at].entries)
      && (p in batch && !remove ==> p in s'.ops && s'.ops[p] == s.ops[p].(processing := false, stage := next))
  {
  }

  /** A pushed operation is the youngest, with what it was pushed with, last in the order of the lists. */
  lemma PushDoes(c: Config, s: State, e: Event)
    requires Inv(c, s) && Enabled(c, s, e) && e.Push?
    ensures var s' := Next(c, s, e);
      && Flow(s'.stages) == Flow(s.stages) + [s.pushed] && s'.pushed == s.pushed + 1 && s.pushed in s'.ops
      && s'.ops[s.pushed].stage == e.stage && s'.ops[s.pushed].id == e.id && s'.ops[s.pushed].name == e.name
      && !s'.ops[s.pushed].processing && s'.workers == s.workers
      && forall p :: p in s.ops ==> p in s'.ops && s'.ops[p] == s.ops[p]
  {
    PushKeepsOrder(c, s, e);
    NotPushedYet(c, s);
  }

  /* ---- starts over a run ---- */

  lemma {:induction false} StartsGrow(c: Config, states: seq<State>, events: seq<Event>, m: nat, n: nat, i: nat)
    requires ValidConfig(c) && IsRun(c, states, events) && m <= n < |states| && i < |c.defs|
    ensures |states[m].starts| == |c.defs| == |states[n].starts| && states[m].starts[i] <= states[n].starts[i]
    decreases n
  {
    RunInv(c, states, events, n);
    if m < n {
      StartsGrow(c, states, events, m, n - 1, i);
      StartsStep(c, states[n - 1], events[n - 1], i);
    }
  }

  lemma StartsStep(c: Config, s: State, e: Event, i: nat)
    requires WellShaped(c, s) && Enabled(c, s, e) && i < |c.defs|
    ensures |Next(c, s, e).starts| == |c.defs|
    ensures Next(c, s, e).starts[i] ==
      if e.Pick? && e.i == i then s.starts[i] + s.stages[i].entries[e.k..e.k + e.len] else s.starts[i]
  {
  }

  /** In every run, of two operations that a sequential stage starts, the one started first was pushed first. */
  lemma PicksInPushOrder(c: Config, states: seq<State>, events: seq<Event>, m: nat, n: nat)
    requires ValidConfig(c) && IsRun(c, states, events) && m < n < |events|
    requires events[m].Pick? && events[n].Pick? && events[m].i == events[n].i
    requires events[m].i < |c.defs| && c.defs[events[m].i].sequential
    ensures Enabled(c, states[m], events[m]) && Enabled(c, states[n], events[n])
    ensures states[m].stages[events[m].i].entries[events[m].k] < states[n].stages[events[n].i].entries[events[n].k]
  {
    var i := events[m].i;
    StartsStep(c, states[m], events[m], i);
    StartsStep(c, states[n], events[n], i);
    StartsGrow(c, states, events, m + 1, n, i);
    StartsInPushOrder(c, states, events, n + 1, i);
    var first, later := states[m].starts[i], states[n + 1].starts[i];
    assert states[m + 1].starts[i][|first|] == states[m].stages[i].entries[events[m].k];
    assert later[|first|] == states[m + 1].starts[i][|first|];
    assert later[|states[n].starts[i]|] == states[n].stages[i].entries[events[n].k];
  }
}
