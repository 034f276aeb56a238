/**
 * The changelog, the reader, the pipeline and the commit index together, over runs with crashes:
 * a record that was stored as committed or cleared has been dealt with.
 */
module EndToEnd {
  import opened Common
  import opened Changelog
  import opened Acknowledgement
  import P = PipelineState
  import O = PipelineOrder
  import I = PipelineInvariant
  import T = PipelineTheorems
  import C = Compaction
  import D = CompactionTraces
  import R = RecordReplay

  /** `clr` is the sequential stage that acknowledges records; `log` is every record of the changelog. */
  datatype World = World(c: P.Config, clr: nat, log: map<nat, Rec>)

  ghost predicate ValidWorld(w: World) {
    && P.ValidConfig(w.c) && w.clr < |w.c.defs| && w.c.defs[w.clr].sequential
    && forall k :: k in w.log ==> Readable(w.log[k]) && w.log[k].index == k
  }

  /** The standard pipeline, which acknowledges records in its sequential clearing stage. */
  function StdWorld(maxBatch: nat, maxPending: nat, log: map<nat, Rec>): (w: World)
    ensures (forall k :: k in log ==> Readable(log[k]) && log[k].index == k) ==> ValidWorld(w)
    ensures P.DB_APPLY < w.clr && w.log == log
  {
    World(P.StdConfig(maxBatch, maxPending), P.CHGLOG_CLR, log)
  }

  /** Indices dealt with before the last crash: applied by an operation, or suppressed. */
  datatype Earlier = Earlier(applied: set<nat>, suppressed: set<nat>)

  function Dealt(e: Earlier): (r: set<nat>) { e.applied + e.suppressed }

  datatype Sys = Sys(
    pipe: P.State,
    items: map<nat, Item>,    // the records carried by operations pushed in this session
    queue: seq<Item>,
    seen: set<nat>,           // indices read in this session
    dropped: set<nat>,        // indices suppressed in this session
    lastRead: nat,
    nextRec: nat,
    commit: Commit,
    earlier: Earlier,
    steps: seq<C.Step>,       // what the reader did in this session
    order: seq<nat>)          // the operations it pushed, in push order

  datatype Event =
    | Read(k: nat, now: int)
    | Reopen
    | PushHead(name: Option<P.NameKey>)
    | Pipe(e: P.Event)
    | Callback(t: nat, commit: Commit)
    | FinalClear(ok: bool)
    | Crash(pipe: P.State)

  /** The operation has been applied to the database, or left the pipeline. */
  ghost predicate Done(w: World, s: Sys, p: nat) {
    p in s.pipe.ops ==> s.pipe.ops[p].stage >= w.clr
  }

  /** Record `k` was read and everything that stands for it is done. */
  ghost predicate Settled(w: World, s: Sys, k: nat) {
    && k in s.seen
    && (forall i :: 0 <= i < |s.queue| ==> k !in s.queue[i].covers)
    && (forall p :: p in s.items && k in s.items[p].covers ==> Done(w, s, p))
  }

  ghost predicate EverSettled(w: World, s: Sys, k: nat) {
    k in Dealt(s.earlier) || Settled(w, s, k)
  }

  ghost function PushOf(w: World, s: Sys, name: Option<P.NameKey>): (e: P.Event)
    requires s.queue != []
  {
    P.Push(w.c.constraint, Some(s.queue[0].rec.tfid), name, P.Known)
  }

  ghost predicate Enabled(w: World, s: Sys, e: Event) {
    match e
    case Read(k, now) =>
      // the changelog delivers the next record that has not been cleared
      && k in w.log && k >= s.nextRec && k > s.commit.server
      && forall j :: j in w.log && j >= s.nextRec && j > s.commit.server ==> k <= j
    case Reopen => true
    case PushHead(name) => s.queue != [] && P.Enabled(w.c, s.pipe, PushOf(w, s, name))
    case Pipe(e) => P.Enabled(w.c, s.pipe, e)
    case Callback(t, m) =>
      && t in s.pipe.workers && s.pipe.workers[t].at == w.clr && |s.pipe.workers[t].ops| == 1
      && s.pipe.workers[t].ops[0] in s.items
      && Acknowledges(s.commit, m, s.items[s.pipe.workers[t].ops[0]].rec.index)
    case FinalClear(ok) => true
    case Crash(pipe) => P.Init(w.c, pipe)
  }

  ghost function Next(w: World, s: Sys, e: Event): (r: Sys)
    requires ValidWorld(w) && Enabled(w, s, e) && P.WellShaped(w.c, s.pipe)
  {
    match e
    case Read(k, now) =>
      s.(queue := Process(s.queue, w.log[k], now), seen := s.seen + {k},
         dropped := s.dropped + Suppressed(s.queue, w.log[k]), lastRead := k, nextRec := k + 1,
         steps := s.steps + [C.Read(w.log[k], now)])
    case Reopen => s.(nextRec := s.lastRead + 1)
    case PushHead(name) =>
      s.(pipe := P.Next(w.c, s.pipe, PushOf(w, s, name)), items := s.items[s.pipe.pushed := s.queue[0]],
         queue := s.queue[1..], steps := s.steps + [C.PushFirst], order := s.order + [s.pipe.pushed])
    case Pipe(e) => s.(pipe := P.Next(w.c, s.pipe, e))
    case Callback(t, m) => s.(commit := m)
    case FinalClear(ok) => s.(commit := Cleared(s.commit, ok))
    case Crash(pipe) =>
      Sys(pipe, map[], [], {}, {}, 0, StartRecord(s.commit.durable),
          Commit(0, 0, 0, s.commit.durable, s.commit.server),
          Earlier(s.earlier.applied + (set k | k in s.seen && Settled(w, s, k) && CarriedBy(s.items, k)),
                  s.earlier.suppressed + (set k | k in s.seen && Settled(w, s, k) && k in s.dropped)),
          [], [])
  }

  ghost predicate Init(w: World, s: Sys) {
    && P.Init(w.c, s.pipe) && s.items == map[] && s.queue == [] && s.seen == {} && s.dropped == {}
    && s.lastRead == 0 && s.nextRec == 0 && s.commit == Commit(0, 0, 0, 0, 0) && s.earlier == Earlier({}, {})
    && s.steps == [] && s.order == []
  }

  ghost predicate IsRun(w: World, states: seq<Sys>, events: seq<Event>) {
    && ValidWorld(w) && |states| == |events| + 1 && Init(w, states[0])
    && forall i :: 0 <= i < |events| ==>
         && P.WellShaped(w.c, states[i].pipe) && Enabled(w, states[i], events[i])
         && states[i + 1] == Next(w, states[i], events[i])
  }

  /* ---- what holds in every state ---- */

  /** Acknowledging a record never acknowledges one that was read after it and waits behind it. */
  ghost predicate Ordered(s: Sys) {
    && AckSafe(s.queue)
    && (forall p, q, k :: p in s.items && q in s.items && p < q && k in s.items[q].covers ==> s.items[p].rec.index < k)
    && (forall p, i, k :: p in s.items && 0 <= i < |s.queue| && k in s.queue[i].covers ==> s.items[p].rec.index < k)
  }

  ghost predicate Bounded(s: Sys) {
    && UpTo(s.queue, s.lastRead) && NonDecreasing(s.queue)
    && (forall p :: p in s.items ==> p < s.pipe.pushed && s.items[p].rec.index <= s.lastRead && s.items[p].covers <= s.seen)
    && (forall i :: 0 <= i < |s.queue| ==> s.queue[i].covers <= s.seen)
    && (forall k :: k in s.seen ==> k <= s.lastRead)
    && (s.lastRead == 0 || s.lastRead < s.nextRec)
  }

  /** Below an operation that is being acknowledged, nothing is left to do. */
  ghost predicate ClearTurn(w: World, s: Sys) {
    forall t :: t in s.pipe.workers && s.pipe.workers[t].at == w.clr ==> TurnOf(w, s.pipe.ops, s.pipe.workers[t])
  }

  ghost predicate TurnOf(w: World, ops: map<nat, P.Op>, job: P.Job) {
    forall p, q :: p in job.ops && q in ops && q < p ==> ops[q].stage > w.clr
  }

  /** No index read is forgotten: it is suppressed, or something queued or pushed stands for it. */
  ghost predicate Conserved(s: Sys) {
    forall k :: k in s.seen ==> k in s.dropped || Covered(s.queue, k) || CarriedBy(s.items, k)
  }

  ghost predicate CarriedBy(items: map<nat, Item>, k: nat) {
    exists p :: p in items && k in items[p].covers
  }

  /** Queue and pushed operations are what the compacting reader makes of what was read, in order. */
  ghost predicate Traced(s: Sys) {
    && C.ValidSteps(s.steps) && C.After(s.steps).queue == s.queue && s.items.Keys == Elems(s.order)
    && |s.order| == |C.After(s.steps).past| && Increasing(s.order)
    && forall i :: 0 <= i < |s.order| ==> s.order[i] in s.items && s.items[s.order[i]] == C.After(s.steps).past[i]
  }

  /** Everything acknowledged has been dealt with, and reading has skipped nothing else. */
  ghost predicate Safe(w: World, s: Sys) {
    && (forall k :: k in w.log && (k <= s.commit.last || k <= s.commit.durable || k <= s.commit.server) ==> EverSettled(w, s, k))
    && (forall k :: k in w.log && k < s.nextRec ==> k in s.seen || k in Dealt(s.earlier))
  }

  ghost predicate Inv(w: World, s: Sys) {
    && ValidWorld(w) && T.Inv(w.c, s.pipe) && Ordered(s) && Bounded(s) && ClearTurn(w, s) && Conserved(s) && Safe(w, s)
    && Traced(s)
  }

  /** From `s` to `s'` nothing that is settled becomes unsettled. */
  ghost predicate KeepsSettled(w: World, s: Sys, s': Sys) {
    s'.earlier == s.earlier && forall k :: Settled(w, s, k) ==> Settled(w, s', k)
  }

  lemma SafeFrame(w: World, s: Sys, s': Sys)
    requires Safe(w, s) && KeepsSettled(w, s, s') && s'.commit == s.commit
    requires s'.nextRec == s.nextRec && s'.seen == s.seen
    ensures Safe(w, s')
  {
  }

  /* ---- reading ---- */

  lemma CoversAfter(q: seq<Item>, r: Rec, now: int, i: nat, k: nat)
    requires Readable(r) && i < |Process(q, r, now)| && k in Process(q, r, now)[i].covers
    ensures k == r.index || Covered(q, k)
  {
    ProcessCovers(q, r, now, k);
    assert Covered(Process(q, r, now), k);
  }

  lemma QueueAckSafe(q: seq<Item>, r: Rec, now: int, last: nat)
    requires Readable(r) && UpTo(q, last) && last < r.index && AckSafe(q)
    ensures AckSafe(Process(q, r, now))
  {
    var q' := Process(q, r, now);
    assert [] + q == q && [] + q' == q';
    ProcessAckSafe([], q, r, now, last);
  }

  lemma ReadOrdered(s: Sys, s': Sys, r: Rec, now: int)
    requires Ordered(s) && UpTo(s.queue, s.lastRead) && Readable(r) && s.lastRead < r.index
    requires forall p :: p in s.items ==> s.items[p].rec.index <= s.lastRead
    requires s'.queue == Process(s.queue, r, now) && s'.items == s.items
    ensures Ordered(s')
  {
    QueueAckSafe(s.queue, r, now, s.lastRead);
    forall p, i, k | p in s'.items && 0 <= i < |s'.queue| && k in s'.queue[i].covers ensures s'.items[p].rec.index < k {
      CoversAfter(s.queue, r, now, i, k);
    }
  }

  lemma ReadBounded(s: Sys, s': Sys, r: Rec, now: int)
    requires Bounded(s) && Readable(r) && s.lastRead < r.index
    requires s'.queue == Process(s.queue, r, now) && s'.items == s.items && s'.pipe == s.pipe
    requires s'.seen == s.seen + {r.index} && s'.lastRead == r.index && s'.nextRec == r.index + 1
    ensures Bounded(s')
  {
    ProcessUpTo(s.queue, r, now, s.lastRead);
    ProcessNonDecreasing(s.queue, r, now, s.lastRead);
    forall i, k | 0 <= i < |s'.queue| && k in s'.queue[i].covers ensures k in s'.seen {
      CoversAfter(s.queue, r, now, i, k);
    }
  }

  lemma ReadConserved(s: Sys, s': Sys, r: Rec, now: int)
    requires Conserved(s) && Readable(r)
    requires s'.queue == Process(s.queue, r, now) && s'.items == s.items
    requires s'.seen == s.seen + {r.index} && s'.dropped == s.dropped + Suppressed(s.queue, r)
    ensures Conserved(s')
  {
    forall k | k in s'.seen ensures k in s'.dropped || Covered(s'.queue, k) || CarriedBy(s'.items, k) {
      ProcessCovers(s.queue, r, now, k);
    }
  }

  /** A record that was read before is not taken up again. */
  lemma ReadKeepsSettled(w: World, s: Sys, s': Sys, r: Rec, now: int)
    requires Readable(r) && r.index !in s.seen
    requires s'.queue == Process(s.queue, r, now) && s'.items == s.items && s'.pipe == s.pipe
    requires s'.seen == s.seen + {r.index} && s'.earlier == s.earlier
    ensures KeepsSettled(w, s, s')
  {
    forall k | Settled(w, s, k) ensures Settled(w, s', k) {
      forall i | 0 <= i < |s'.queue| ensures k !in s'.queue[i].covers {
        if k in s'.queue[i].covers {
          CoversAfter(s.queue, r, now, i, k);
        }
      }
      forall p | p in s'.items && k in s'.items[p].covers ensures Done(w, s', p) {
        assert Done(w, s, p);
      }
    }
  }

  lemma AfterOne(steps: seq<C.Step>, x: C.Step)
    requires C.ValidSteps(steps) && (x.Read? ==> Readable(x.r))
    ensures C.ValidSteps(steps + [x]) && C.After(steps + [x]) == C.Next(C.After(steps), x)
  {
    assert (steps + [x])[..|steps|] == steps;
  }

  lemma ReadTraced(s: Sys, s': Sys, r: Rec, now: int)
    requires Traced(s) && Readable(r) && s'.queue == Process(s.queue, r, now)
    requires s'.steps == s.steps + [C.Read(r, now)] && s'.order == s.order && s'.items == s.items
    ensures Traced(s')
  {
    AfterOne(s.steps, C.Read(r, now));
  }

  lemma ReadKeepsInv(w: World, s: Sys, k: nat, now: int)
    requires Inv(w, s) && Enabled(w, s, Read(k, now))
    ensures Inv(w, Next(w, s, Read(k, now)))
  {
    var s' := Next(w, s, Read(k, now));
    ReadOrdered(s, s', w.log[k], now);
    ReadBounded(s, s', w.log[k], now);
    ReadConserved(s, s', w.log[k], now);
    ReadKeepsSettled(w, s, s', w.log[k], now);
    ReadTraced(s, s', w.log[k], now);
    forall j | j in w.log && j < s'.nextRec ensures j in s'.seen || j in Dealt(s'.earlier) {
      if j < k && j >= s.nextRec {
        assert EverSettled(w, s, j);
      }
    }
    forall t | t in s'.pipe.workers && s'.pipe.workers[t].at == w.clr ensures TurnOf(w, s'.pipe.ops, s'.pipe.workers[t]) {
      assert TurnOf(w, s.pipe.ops, s.pipe.workers[t]);
    }
  }

  /* ---- the pipeline moves on ---- */

  /** What a pipeline event means for the operations that are there already. */
  lemma PipeForward(w: World, s: P.State, e: P.Event)
    requires T.Inv(w.c, s) && P.Enabled(w.c, s, e)
    ensures var s' := P.Next(w.c, s, e);
      && s'.pushed >= s.pushed && (!e.Push? ==> s'.pushed == s.pushed)
      && (forall p :: p in s'.ops && p < s.pushed ==> p in s.ops && s'.ops[p].stage >= s.ops[p].stage)
  {
    if !e.Pick? {
      T.EventForward(w.c, s, e);
      if !e.Push? {
        SamePushed(w.c, s, e);
      }
    }
  }

  lemma SamePushed(c: P.Config, s: P.State, e: P.Event)
    requires P.WellShaped(c, s) && P.Enabled(c, s, e) && !e.Push?
    ensures P.Next(c, s, e).pushed == s.pushed
  {
  }

  /** A worker at the clearing stage was there before, or has just started. */
  lemma PipeTurn(w: World, s: Sys, s': Sys, e: P.Event)
    requires ValidWorld(w) && T.Inv(w.c, s.pipe) && P.Enabled(w.c, s.pipe, e) && ClearTurn(w, s)
    requires s'.pipe == P.Next(w.c, s.pipe, e)
    ensures ClearTurn(w, s')
  {
    PipeForward(w, s.pipe, e);
    forall t | t in s'.pipe.workers && s'.pipe.workers[t].at == w.clr ensures TurnOf(w, s'.pipe.ops, s'.pipe.workers[t]) {
      WorkerBefore(w.c, s.pipe, e, t);
      if e.Pick? && e.t == t {
        TurnStarted(w, s.pipe, e);
      } else {
        assert TurnOf(w, s.pipe.ops, s.pipe.workers[t]);
      }
    }
  }

  lemma TurnStarted(w: World, s: P.State, e: P.Event)
    requires ValidWorld(w) && I.Base(w.c, s) && e.Pick? && e.i == w.clr && P.CanPick(w.c, s, e.i, e.k, e.len)
    ensures TurnOf(w, P.DoPick(w.c, s, e.t, e.i, e.k, e.len).ops, P.Job(e.i, s.stages[e.i].entries[e.k..e.k + e.len]))
  {
    T.SequentialStartsInPushOrder(w.c, s, e.i, e.k, e.len);
    assert s.stages[e.i].entries[e.k..e.k + e.len] == [s.stages[e.i].entries[e.k]];
  }

  lemma WorkerBefore(c: P.Config, s: P.State, e: P.Event, t: nat)
    requires T.Inv(c, s) && P.Enabled(c, s, e) && t in P.Next(c, s, e).workers
    ensures !(e.Pick? && e.t == t) ==>
      t in s.workers && P.Next(c, s, e).workers[t] == s.workers[t] && forall p :: p in s.workers[t].ops ==> p < s.pushed
    ensures e.Pick? && e.t == t ==>
      P.Next(c, s, e).workers[t] == P.Job(e.i, s.stages[e.i].entries[e.k..e.k + e.len])
  {
    if !(e.Pick? && e.t == t) {
      assert I.JobOk(s, s.workers[t]);
    }
  }

  /** Operations only go forward; `s'` may carry more records than `s`. */
  ghost predicate Onward(s: Sys, s': Sys) {
    && s'.pipe.pushed >= s.pipe.pushed
    && (forall p :: p in s'.pipe.ops && p < s.pipe.pushed ==> p in s.pipe.ops && s'.pipe.ops[p].stage >= s.pipe.ops[p].stage)
    && (forall p :: p in s.items ==> p < s.pipe.pushed)
    && s'.seen == s.seen && s'.earlier == s.earlier
  }

  lemma PipeKeepsSettled(w: World, s: Sys, s': Sys)
    requires Onward(s, s') && s'.items == s.items && s'.queue == s.queue
    ensures KeepsSettled(w, s, s')
  {
    forall k | Settled(w, s, k) ensures Settled(w, s', k) {
      forall p | p in s'.items && k in s'.items[p].covers ensures Done(w, s', p) {
        assert Done(w, s, p);
      }
    }
  }

  lemma PipeKeepsInv(w: World, s: Sys, e: P.Event)
    requires Inv(w, s) && P.Enabled(w.c, s.pipe, e)
    ensures Inv(w, Next(w, s, Pipe(e)))
  {
    T.EventKeepsInv(w.c, s.pipe, e);
    PipeKeepsRest(w, s, Next(w, s, Pipe(e)), e);
  }

  lemma PipeKeepsRest(w: World, s: Sys, s': Sys, e: P.Event)
    requires Inv(w, s) && P.Enabled(w.c, s.pipe, e) && s' == s.(pipe := P.Next(w.c, s.pipe, e))
    ensures Ordered(s') && Bounded(s') && ClearTurn(w, s') && Conserved(s') && Safe(w, s') && Traced(s')
  {
    PipeForward(w, s.pipe, e);
    PipeTurn(w, s, s', e);
    PipeKeepsSettled(w, s, s');
    PipeFrame(s, s');
    SafeFrame(w, s, s');
  }

  /** What the pipeline alone does not touch. */
  lemma PipeFrame(s: Sys, s': Sys)
    requires Ordered(s) && Bounded(s) && Conserved(s) && s' == s.(pipe := s'.pipe) && s'.pipe.pushed >= s.pipe.pushed
    ensures Ordered(s') && Bounded(s') && Conserved(s')
  {
  }

  /* ---- pushing ---- */

  lemma PushKeepsSettled(w: World, s: Sys, s': Sys)
    requires Onward(s, s') && s.queue != [] && s'.queue == s.queue[1..]
    requires s'.items == s.items[s.pipe.pushed := s.queue[0]]
    ensures KeepsSettled(w, s, s')
  {
    forall k | Settled(w, s, k) ensures Settled(w, s', k) {
      forall p | p in s'.items && k in s'.items[p].covers ensures Done(w, s', p) {
        assert p != s.pipe.pushed;
        assert Done(w, s, p);
      }
    }
  }

  lemma PushOrdered(s: Sys, s': Sys)
    requires Ordered(s) && Bounded(s) && s.queue != [] && s'.queue == s.queue[1..]
    requires s'.items == s.items[s.pipe.pushed := s.queue[0]] && s'.pipe.pushed == s.pipe.pushed + 1
    requires s'.seen == s.seen && s'.lastRead == s.lastRead && s'.nextRec == s.nextRec
    ensures Ordered(s') && Bounded(s')
  {
    forall p, i, k | p in s'.items && 0 <= i < |s'.queue| && k in s'.queue[i].covers ensures s'.items[p].rec.index < k {
      assert s'.queue[i] == s.queue[i + 1];
    }
    forall p, q, k | p in s'.items && q in s'.items && p < q && k in s'.items[q].covers ensures s'.items[p].rec.index < k {
      if q == s.pipe.pushed {
        assert k in s.queue[0].covers;
      }
    }
  }

  lemma PushConserved(s: Sys, s': Sys)
    requires Conserved(s) && s.queue != [] && s'.queue == s.queue[1..] && s.pipe.pushed !in s.items
    requires s'.items == s.items[s.pipe.pushed := s.queue[0]] && s'.seen == s.seen && s'.dropped == s.dropped
    ensures Conserved(s')
  {
    forall k | k in s'.seen ensures k in s'.dropped || Covered(s'.queue, k) || CarriedBy(s'.items, k) {
      if Covered(s.queue, k) {
        var i :| 0 <= i < |s.queue| && k in s.queue[i].covers;
        if i == 0 {
          assert k in s'.items[s.pipe.pushed].covers;
        } else {
          assert k in s'.queue[i - 1].covers;
        }
      } else if CarriedBy(s.items, k) {
        var p :| p in s.items && k in s.items[p].covers;
        assert k in s'.items[p].covers;
      }
    }
  }

  lemma PushTraced(s: Sys, s': Sys)
    requires Traced(s) && s.queue != [] && s'.queue == s.queue[1..] && (forall p :: p in s.items ==> p < s.pipe.pushed)
    requires s'.items == s.items[s.pipe.pushed := s.queue[0]]
    requires s'.steps == s.steps + [C.PushFirst] && s'.order == s.order + [s.pipe.pushed]
    ensures Traced(s')
  {
    AfterOne(s.steps, C.PushFirst);
    assert forall i :: 0 <= i < |s.order| ==> s.order[i] in s.items;
  }

  lemma PushKeepsInv(w: World, s: Sys, name: Option<P.NameKey>)
    requires Inv(w, s) && Enabled(w, s, PushHead(name))
    ensures Inv(w, Next(w, s, PushHead(name)))
  {
    var s' := Next(w, s, PushHead(name));
    var e := PushOf(w, s, name);
    T.EventKeepsInv(w.c, s.pipe, e);
    PipeForward(w, s.pipe, e);
    PipeTurn(w, s, s', e);
    PushOrdered(s, s');
    PushConserved(s, s');
    PushTraced(s, s');
    PushKeepsSettled(w, s, s');
    SafeFrame(w, s, s');
  }

  /* ---- acknowledging ---- */

  /** When the clearing stage works on an operation, everything up to its index has been dealt with. */
  lemma AcknowledgedIsSettled(w: World, s: Sys, t: nat, k: nat)
    requires Inv(w, s) && t in s.pipe.workers && s.pipe.workers[t].at == w.clr && |s.pipe.workers[t].ops| == 1
    requires s.pipe.workers[t].ops[0] in s.items
    requires k in w.log && k <= s.items[s.pipe.workers[t].ops[0]].rec.index
    ensures EverSettled(w, s, k)
  {
    var p := s.pipe.workers[t].ops[0];
    assert k <= s.lastRead;
    if k !in Dealt(s.earlier) {
      assert k in s.seen;
      EarlierAreDone(w, s, t);
      forall q | q in s.items && k in s.items[q].covers ensures Done(w, s, q) {
        assert q <= p;
      }
    }
  }

  /** What the clearing stage works on, and everything pushed before it, is applied. */
  lemma EarlierAreDone(w: World, s: Sys, t: nat)
    requires ValidWorld(w) && I.Held(s.pipe) && I.Located(w.c, s.pipe) && ClearTurn(w, s)
    requires t in s.pipe.workers && s.pipe.workers[t].at == w.clr && |s.pipe.workers[t].ops| == 1
    ensures forall q :: q <= s.pipe.workers[t].ops[0] ==> Done(w, s, q)
  {
    var p := s.pipe.workers[t].ops[0];
    assert p in s.pipe.workers[t].ops;
    assert TurnOf(w, s.pipe.ops, s.pipe.workers[t]);
    assert I.JobOk(s.pipe, s.pipe.workers[t]);
    assert I.LocatedAt(w.c, s.pipe.ops, w.clr, p);
    forall q | q <= p ensures Done(w, s, q) {
      if q < p {
        assert q in s.pipe.ops ==> s.pipe.ops[q].stage > w.clr;
      }
    }
  }

  lemma CallbackKeepsInv(w: World, s: Sys, t: nat, m: Commit)
    requires Inv(w, s) && Enabled(w, s, Callback(t, m))
    ensures Inv(w, Next(w, s, Callback(t, m)))
  {
    var s' := s.(commit := m);
    var index := s.items[s.pipe.workers[t].ops[0]].rec.index;
    forall k | k in w.log && (k <= m.last || k <= m.durable || k <= m.server) ensures EverSettled(w, s', k) {
      if k <= index {
        AcknowledgedIsSettled(w, s, t, k);
      }
      assert EverSettled(w, s, k);
      SameSettled(w, s, s', k);
    }
    CommitFrame(w, s, s');
  }

  lemma SameSettled(w: World, s: Sys, s': Sys, k: nat)
    requires s' == s.(commit := s'.commit, nextRec := s'.nextRec)
    ensures EverSettled(w, s, k) <==> EverSettled(w, s', k)
  {
    assert forall p :: Done(w, s, p) <==> Done(w, s', p);
  }

  /** What does not depend on the commit index. */
  lemma CommitFrame(w: World, s: Sys, s': Sys)
    requires Inv(w, s) && s' == s.(commit := s'.commit, nextRec := s'.nextRec)
    requires s'.lastRead == 0 || s'.lastRead < s'.nextRec
    requires forall k :: k in w.log && k < s'.nextRec ==> k in s'.seen || k in Dealt(s'.earlier)
    requires forall k :: k in w.log && (k <= s'.commit.last || k <= s'.commit.durable || k <= s'.commit.server) ==> EverSettled(w, s', k)
    ensures Inv(w, s')
  {
  }

  lemma FinalClearKeepsInv(w: World, s: Sys, ok: bool)
    requires Inv(w, s)
    ensures Inv(w, Next(w, s, FinalClear(ok)))
  {
    var s' := Next(w, s, FinalClear(ok));
    forall k | k in w.log && (k <= s'.commit.last || k <= s'.commit.durable || k <= s'.commit.server) ensures EverSettled(w, s', k) {
      assert EverSettled(w, s, k);
      SameSettled(w, s, s', k);
    }
    CommitFrame(w, s, s');
  }

  lemma ReopenKeepsInv(w: World, s: Sys)
    requires Inv(w, s)
    ensures Inv(w, Next(w, s, Reopen))
  {
    var s' := Next(w, s, Reopen);
    forall k | k in w.log && (k <= s'.commit.last || k <= s'.commit.durable || k <= s'.commit.server) ensures EverSettled(w, s', k) {
      assert EverSettled(w, s, k);
      SameSettled(w, s, s', k);
    }
    CommitFrame(w, s, s');
  }

  /* ---- crashing ---- */

  lemma CrashKeepsInv(w: World, s: Sys, pipe: P.State)
    requires Inv(w, s) && P.Init(w.c, pipe)
    ensures Inv(w, Next(w, s, Crash(pipe)))
  {
    var s' := Next(w, s, Crash(pipe));
    T.InitInv(w.c, pipe);
    forall k | k in w.log && (k <= s'.commit.last || k <= s'.commit.durable || k <= s'.commit.server) ensures EverSettled(w, s', k) {
      assert EverSettled(w, s, k);
    }
    forall k | k in w.log && k < s'.nextRec ensures k in Dealt(s'.earlier) {
      assert EverSettled(w, s, k);
    }
  }

  lemma EventKeepsInv(w: World, s: Sys, e: Event)
    requires Inv(w, s) && Enabled(w, s, e)
    ensures Inv(w, Next(w, s, e))
  {
    match e
    case Read(k, now) => ReadKeepsInv(w, s, k, now);
    case Reopen => ReopenKeepsInv(w, s);
    case PushHead(name) => PushKeepsInv(w, s, name);
    case Pipe(e) => PipeKeepsInv(w, s, e);
    case Callback(t, m) => CallbackKeepsInv(w, s, t, m);
    case FinalClear(ok) => FinalClearKeepsInv(w, s, ok);
    case Crash(pipe) => CrashKeepsInv(w, s, pipe);
  }

  lemma InitInv(w: World, s: Sys)
    requires ValidWorld(w) && Init(w, s)
    ensures Inv(w, s)
  {
    T.InitInv(w.c, s.pipe);
  }

  lemma {:induction false} RunInv(w: World, states: seq<Sys>, events: seq<Event>, n: nat)
    requires IsRun(w, states, events) && n < |states|
    ensures Inv(w, states[n])
  {
    if n == 0 {
      InitInv(w, states[0]);
    } else {
      RunInv(w, states, events, n - 1);
      EventKeepsInv(w, states[n - 1], events[n - 1]);
    }
  }

  /* ---- the results ---- */

  /** Record `k` was applied by the operations that stand for it, or suppressed, and nothing of it is left to do. */
  ghost predicate DealtWith(w: World, s: Sys, k: nat) {
    || k in s.earlier.applied || k in s.earlier.suppressed
    || (Settled(w, s, k) && (k in s.dropped || CarriedBy(s.items, k)))
  }

  /**
   * Whenever an index is stored as committed or cleared, every record up to it was applied or
   * suppressed, before the last crash or since, and whatever stands for it is done.
   */
  lemma CrashSafe(w: World, states: seq<Sys>, events: seq<Event>, n: nat, k: nat)
    requires IsRun(w, states, events) && n < |states|
    requires k in w.log && (k <= states[n].commit.durable || k <= states[n].commit.server)
    ensures DealtWith(w, states[n], k)
  {
    RunInv(w, states, events, n);
    assert EverSettled(w, states[n], k);
  }

  /** Restarting loses nothing: a record that has not been dealt with is still in the changelog and is read again. */
  lemma NothingLost(w: World, states: seq<Sys>, events: seq<Event>, n: nat, k: nat)
    requires IsRun(w, states, events) && n < |events| && events[n].Crash? && k in w.log
    ensures DealtWith(w, states[n], k) || (k >= states[n + 1].nextRec && k > states[n + 1].commit.server)
  {
    RunInv(w, states, events, n);
  }

  /** No index is skipped or forgotten between two restarts. */
  lemma NothingForgotten(w: World, states: seq<Sys>, events: seq<Event>, n: nat, k: nat)
    requires IsRun(w, states, events) && n < |states| && k in w.log && k < states[n].nextRec
    ensures var s := states[n];
      k in Dealt(s.earlier) || k in s.dropped || Covered(s.queue, k) || CarriedBy(s.items, k)
  {
    RunInv(w, states, events, n);
  }

  /** Along the queue the indices never decrease, whatever was merged, cancelled or made up for a rename. */
  lemma QueueIndicesMonotone(w: World, states: seq<Sys>, events: seq<Event>, n: nat, i: nat, j: nat)
    requires IsRun(w, states, events) && n < |states| && i <= j < |states[n].queue|
    ensures states[n].queue[i].rec.index <= states[n].queue[j].rec.index <= states[n].lastRead
  {
    RunInv(w, states, events, n);
  }

  /**
   * What a session does to the database. Whatever the database holds when the session begins, entries
   * from before a crash included: replaying what was pushed, in push order, and then the queue gives the
   * database that replaying every record of the session gives, if the records read allowed what was left
   * out, entry by entry, as they do when they are plain.
   */
  lemma SessionMeaning(w: World, states: seq<Sys>, events: seq<Event>, n: nat, env: R.Env, db: R.Db)
    requires IsRun(w, states, events) && n < |states| && C.ValidSteps(states[n].steps) && D.Rooted(db)
    requires var full := C.After(states[n].steps).full;
      R.ValidTrace(env, full) && (D.AllRowsAllow(env, db, states[n].steps) || D.Plain(env, db, full))
    ensures var s := states[n]; var t := C.After(s.steps);
      && |s.order| == |t.past| && Increasing(s.order) && s.items.Keys == Elems(s.order)
      && (forall i :: 0 <= i < |s.order| ==> s.order[i] in s.items && s.items[s.order[i]] == t.past[i])
      && R.Replay(env, db, t.past + s.queue) == R.Replay(env, db, t.full)
  {
    RunInv(w, states, events, n);
    SessionMeaningOf(w, states[n], env, db);
  }

  lemma SessionMeaningOf(w: World, s: Sys, env: R.Env, db: R.Db)
    requires Inv(w, s) && D.Rooted(db)
    requires var full := C.After(s.steps).full;
      R.ValidTrace(env, full) && (D.AllRowsAllow(env, db, s.steps) || D.Plain(env, db, full))
    ensures var t := C.After(s.steps); R.Replay(env, db, t.past + s.queue) == R.Replay(env, db, t.full)
  {
    if !D.AllRowsAllow(env, db, s.steps) {
      D.PlainIsHarmless(env, db, s.steps);
    }
    D.HarmlessByRows(env, db, s.steps);
    C.CompactionPreservesMeaning(env, db, s.steps);
  }
}
