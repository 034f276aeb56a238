/**
 * The pipeline as the program runs it: stage lists, counters and flags updated in place under one
 * mutex per stage. Each method is shown to be a sequence of the atomic events of the state machine.
 */
module PipelineEngine {
  import opened Common
  import opened PipelineState
  import opened PipelineOrder
  import opened PipelineInvariant
  import opened PipelineExclusion
  import opened PipelineTheorems
  import opened PipelineFlush
  import ConstraintTable

  lemma InvIsSound(c: Config, s: State)
    requires Inv(c, s)
    ensures SoundLists(c, s)
  {
    BaseListsApart(c, s);
    forall p | p in s.ops ensures s.ops[p].stage < |c.defs| {
      var j := InSomeList(s, p);
      assert LocatedAt(c, s.ops, j, p);
    }
  }

  /** The end of a move: the operations taken out were spliced in further up. */
  lemma MovedUp(c: Config, s0: State, srcs: seq<nat>, s1: State, s: State, src: nat, k: nat, min: nat, d: nat)
    requires SoundLists(c, s0) && MovesTo(c, s0, srcs, s1) && SameBelow(c, s0, s1, src + 1)
    requires Spliced(c, s1, s, src, k, d) && d <= min < |c.defs| && k > 0
    requires k == ReadyLen(s0.stages[src].entries, s0.ops, src)
    requires forall p :: p in s0.stages[src].entries[..k] ==> p in s0.ops
    requires min == MinStage(s0.stages[src].entries[..k], s0.ops) && d == InsertStage(s1.stages, src + 1, min)
    ensures MovesTo(c, s0, srcs + [src], s) && SoundLists(c, s)
    ensures ReadyLen(s.stages[src].entries, s.ops, src) == 0
  {
    SplicedAfter(c, s0, s1, s, src, k, min, d);
    OneMore(c, s0, srcs, s1, src, s);
    MovesKeepSound(c, s0, srcs + [src], s);
  }

  /** The state in which a pushing thread goes on once it has its token. */
  ghost function WithToken(c: Config, s: State): (r: State)
    requires WellShaped(c, s) && (Limited(c) ==> s.free > 0)
    ensures WellShaped(c, r) && (Limited(c) ==> r.pushing > 0)
  {
    if Limited(c) then Next(c, s, TakeToken) else s
  }

  /** The constraint stage lets nothing in until an id is known, and has threads to spare. */
  predicate Blocked(c: Config, s: State, i: nat)
    requires i < |c.defs| && i < |s.stages|
  {
    && i == c.constraint && s.forceSeq && !c.defs[i].sequential
    && (c.defs[i].maxThreads == 0 || s.stages[i].threads < c.defs[i].maxThreads)
  }

  /** No stage from `l` up that is looked at has anything waiting. */
  ghost predicate NoneWaitingFrom(c: Config, s: State, l: nat) {
    |s.stages| == |c.defs| && forall i :: l <= i < |c.defs| ==> s.stages[i].unprocessed == 0 || Blocked(c, s, i)
  }

  ghost predicate NoneWaiting(c: Config, s: State) {
    NoneWaitingFrom(c, s, 0)
  }

  lemma OneStageMore(c: Config, s: State, l: nat)
    requires |s.stages| == |c.defs| && l < |c.defs|
    ensures NoneWaitingFrom(c, s, l) <==>
      NoneWaitingFrom(c, s, l + 1) && (s.stages[l].unprocessed == 0 || Blocked(c, s, l))
    ensures NothingFrom(c, s, l) <==> NothingFrom(c, s, l + 1) && NothingAt(c, s, l)
  {
  }

  ghost predicate NothingFrom(c: Config, s: State, l: nat) {
    forall j :: l <= j < |c.defs| ==> NothingAt(c, s, j)
  }

  /** What the scan has seen of the stages from `l` up. */
  ghost predicate Seen(c: Config, s: State, l: nat, empty: bool) {
    NothingFrom(c, s, l) && (empty <==> NoneWaitingFrom(c, s, l))
  }

  lemma SeenMore(c: Config, s: State, l: nat, empty: bool, none: bool)
    requires |s.stages| == |c.defs| && l < |c.defs| && Seen(c, s, l + 1, empty) && NothingAt(c, s, l)
    requires none <==> s.stages[l].unprocessed == 0 || Blocked(c, s, l)
    ensures Seen(c, s, l, empty && none)
  {
    OneStageMore(c, s, l);
  }

  /** Then every operation is being processed or past its stage, or waits at the blocked stage. */
  lemma NoneWaitingMeans(c: Config, s: State, j: nat, p: nat)
    requires Base(c, s) && NoneWaiting(c, s) && j < |s.stages| && p in s.stages[j].entries
    ensures p in s.ops && (s.ops[p].processing || s.ops[p].stage > j || (j == c.constraint && s.forceSeq))
  {
    assert LocatedAt(c, s.ops, j, p);
    assert CountersOf(s.stages[j], s.ops, j);
    assert p in Those(s.stages[j].entries, s.ops, j, StatusOf(s.ops, p, j));
  }

  /** Nothing can be started at stage `i`. */
  ghost predicate NothingAt(c: Config, s: State, i: nat) {
    forall k, len :: !CanPick(c, s, i, k, len)
  }

  lemma IdleCounted(c: Config, s: State, i: nat, k: nat, len: nat)
    requires Base(c, s)
    ensures CanPick(c, s, i, k, len) ==> s.stages[i].unprocessed > 0
  {
    if CanPick(c, s, i, k, len) {
      assert s.stages[i].entries[k] in Those(s.stages[i].entries, s.ops, i, Idle);
      assert CountersOf(s.stages[i], s.ops, i);
    }
  }

  lemma NoneIdle(c: Config, s: State, i: nat)
    requires Base(c, s) && i < |s.stages| && s.stages[i].unprocessed == 0
    ensures NothingAt(c, s, i)
  {
    forall k: nat, len: nat ensures CanPick(c, s, i, k, len) ==> s.stages[i].unprocessed > 0 {
      IdleCounted(c, s, i, k, len);
    }
  }

  /** An operation being processed keeps a thread of its stage busy. */
  lemma BusyHasThread(c: Config, s: State, i: nat, p: nat)
    requires Base(c, s) && i < |s.stages| && p in s.stages[i].entries && p in s.ops && s.ops[p].processing
    ensures s.stages[i].threads > 0
  {
    assert HeldBySome(s.workers, p);
    var t :| t in s.workers && p in s.workers[t].ops;
    assert JobOk(s, s.workers[t]);
    InOneList(s, p, i, s.workers[t].at);
    assert t in JobsAt(s.workers, i);
  }

  /** Nothing being processed at the constraint stage or above: what it lists is idle. */
  lemma AllIdle(c: Config, s: State, p: nat)
    requires Base(c, s) && p in s.stages[c.constraint].entries
    requires UpperTotal(s.stages, c.constraint) - s.stages[c.constraint].unprocessed == 0
    ensures p in s.ops && !s.ops[p].processing && s.ops[p].stage == c.constraint
  {
    var i := c.constraint;
    assert forall j :: 0 <= j < |s.stages| ==> CountersOf(s.stages[j], s.ops, j);
    UpperTotalZero(s.stages, i);
    assert LocatedAt(c, s.ops, i, p);
    assert p in Those(s.stages[i].entries, s.ops, i, StatusOf(s.ops, p, i));
  }

  /** Why the operation at position `k` of stage `i` cannot be started. */
  ghost predicate Passed(c: Config, s: State, i: nat, k: nat)
    requires i < |s.stages| && k < |s.stages[i].entries|
  {
    var p := s.stages[i].entries[k];
    p in s.ops && (s.ops[p].processing || s.ops[p].stage > i || (i == c.constraint && s.ops[p].id.Some? && !IsFirst(s.ops, s.reg, p)))
  }

  ghost predicate PassedUpTo(c: Config, s: State, i: nat, k: nat) {
    && i < |s.stages| && k <= |s.stages[i].entries|
    && forall j :: 0 <= j < k ==>
         Passed(c, s, i, j) && (i == c.constraint ==> s.ops[s.stages[i].entries[j]].id.Some?)
  }

  lemma AllPassed(c: Config, s: State, i: nat)
    requires i < |s.stages| && PassedUpTo(c, s, i, |s.stages[i].entries|)
    requires i < |c.defs| && !c.defs[i].sequential
    ensures NothingAt(c, s, i)
  {
    forall k: nat, len: nat ensures !CanPick(c, s, i, k, len) {
      if k < |s.stages[i].entries| {
        assert Passed(c, s, i, k);
      }
    }
  }

  lemma NoneThere(c: Config, s: State, i: nat)
    requires i < |s.stages| && forall j :: 0 <= j < |s.stages[i].entries| ==>
      s.stages[i].entries[j] in s.ops && s.ops[s.stages[i].entries[j]].stage != i
    ensures NothingAt(c, s, i)
  {
    forall k: nat, len: nat ensures !CanPick(c, s, i, k, len) {
      if k < |s.stages[i].entries| {
        assert s.ops[s.stages[i].entries[k]].stage != i;
      }
    }
  }

  /** Behind an operation without an id that must wait, nothing of the constraint stage can be started. */
  lemma StoppedAt(c: Config, s: State, k: nat)
    requires c.constraint < |c.defs| && !c.defs[c.constraint].sequential
    requires PassedUpTo(c, s, c.constraint, k) && k < |s.stages[c.constraint].entries|
    requires var p := s.stages[c.constraint].entries[k];
      p in s.ops && s.ops[p].id.None?
      && !(k == 0 && UpperTotal(s.stages, c.constraint) - s.stages[c.constraint].unprocessed == 0)
    ensures NothingAt(c, s, c.constraint)
  {
    forall l: nat, len: nat ensures !CanPick(c, s, c.constraint, l, len) {
      if l < k {
        assert Passed(c, s, c.constraint, l);
      }
    }
  }

  /** `s` is `s0` without the operations `gone`, `n` of them, that were listed at `at`. */
  ghost predicate Dropped(s0: State, s: State, at: nat, gone: set<nat>, n: nat) {
    && at < |s0.stages|
    && s.ops == s0.ops - gone && s.reg == Without(s0.reg, gone)
    && s.stages == s0.stages[at := s0.stages[at].(entries := Without(s0.stages[at].entries, gone),
                                                  processed := s0.stages[at].processed - n)]
    && s == s0.(stages := s.stages, ops := s.ops, reg := s.reg)
  }

  lemma DroppedMore(s0: State, s1: State, s2: State, at: nat, a: set<nat>, n: nat, b: set<nat>, m: nat)
    requires Dropped(s0, s1, at, a, n) && Dropped(s1, s2, at, b, m)
    ensures Dropped(s0, s2, at, a + b, n + m)
  {
    WithoutTwice(s0.reg, a, b);
    WithoutTwice(s0.stages[at].entries, a, b);
    assert s0.ops - (a + b) == s0.ops - a - b;
  }

  lemma DroppedNext(s0: State, s1: State, s2: State, at: nat, batch: seq<nat>, n: nat)
    requires n < |batch| && Dropped(s0, s1, at, Elems(batch[..n]), n) && Dropped(s1, s2, at, {batch[n]}, 1)
    ensures Dropped(s0, s2, at, Elems(batch[..n + 1]), n + 1)
  {
    DroppedMore(s0, s1, s2, at, Elems(batch[..n]), n, {batch[n]}, 1);
    assert Elems(batch[..n + 1]) == Elems(batch[..n]) + {batch[n]};
  }

  lemma DroppedNone(s: State, at: nat)
    requires at < |s.stages|
    ensures Dropped(s, s, at, {}, 0)
  {
    WithoutNothing(s.reg, {});
    WithoutNothing(s.stages[at].entries, {});
    assert s.ops - {} == s.ops;
  }

  /** `s'` is `s` after `n` tokens were given back. */
  ghost predicate Posted(s: State, s': State, n: nat) {
    s.releasing >= n && s' == s.(free := s.free + n, releasing := s.releasing - n)
  }

  lemma PostedKeepsInv(c: Config, s: State, s': State, n: nat)
    requires Inv(c, s) && Posted(s, s', n) && (n > 0 ==> Limited(c))
    ensures Inv(c, s')
  {
    OtherKeepsBase(c, s, s');
    TokenKeepsGuarded(c, s, s');
    ForwardKeepsTurn(c, s, s');
  }

  /** An acknowledgement, the moves and the tokens that follow it keep the invariant. */
  lemma AckedInv(c: Config, s: State, t: nat, next: nat, remove: bool, srcs: seq<nat>, mid: State, s': State)
    requires Inv(c, s) && Enabled(c, s, Ack(t, next, remove)) && WellShaped(c, s)
    requires MovesTo(c, DoAck(c, s, t, next, remove), srcs, mid)
    requires Posted(mid, s', if remove && Limited(c) then |s.workers[t].ops| else 0)
    ensures Inv(c, s')
  {
    EventKeepsInv(c, s, Ack(t, next, remove));
    MovesKeepInv(c, DoAck(c, s, t, next, remove), srcs, mid);
    PostedKeepsInv(c, mid, s', if remove && Limited(c) then |s.workers[t].ops| else 0);
  }

  /** An idle operation right behind a batch can join it. */
  lemma OneLonger(c: Config, s: State, i: nat, k: nat, len: nat)
    requires ValidConfig(c) && CanPick(c, s, i, k, len) && k + len < |s.stages[i].entries|
    requires c.defs[i].batchable && len < c.maxBatch
    requires var p := s.stages[i].entries[k + len]; p in s.ops && !s.ops[p].processing && s.ops[p].stage == i
    ensures CanPick(c, s, i, k, len + 1)
  {
  }

  datatype Verdict = Skip | Take | Stop

  class Engine {
    const c: Config
    const table: ConstraintTable.Manager
    var stages: seq<Stage>
    var ops: map<nat, Op>
    var forceSeq: bool
    var free: int
    var pushed: nat
    ghost var workers: map<nat, Job>
    ghost var pushing: nat
    ghost var releasing: nat
    ghost var starts: seq<seq<nat>>
    ghost var held: set<nat>          // stage mutexes of the running thread

    constructor (c: Config, table: ConstraintTable.Manager)
      requires ValidConfig(c) && table.Valid(map[]) && table.order == []
      ensures this.c == c && this.table == table && held == {}
      ensures Init(c, View()) && Valid()
    {
      this.c := c;
      this.table := table;
      stages := seq(|c.defs|, _ => Stage([], 0, 0, 0, 0));
      starts := seq(|c.defs|, _ => []);
      ops, workers, forceSeq := map[], map[], false;
      free, pushed, pushing, releasing := c.maxPending, 0, 0, 0;
      held := {};
      new;
      InitInv(c, View());
    }

    ghost function View(): (s: State)
      reads this, table
    {
      State(stages, ops, table.order, forceSeq, workers, pushed, free, pushing, releasing, starts)
    }

    ghost predicate Valid()
      reads this, table
    {
      Inv(c, View()) && table.Valid(ops)
    }

    ghost predicate Sound()
      reads this, table
    {
      && SoundLists(c, View())
      && table.Valid(ops) && (forall p :: p in table.order ==> ops[p].referenced)
    }

    lemma ValidIsSound()
      requires Valid()
      ensures Sound()
    {
      InvIsSound(c, View());
    }

    /* ---- mutexes: only ever taken in increasing order ---- */

    method Lock(i: nat)
      requires forall h :: h in held ==> h < i
      modifies this`held
      ensures held == old(held) + {i}
    {
      held := held + {i};
    }

    method Unlock(i: nat)
      requires i in held
      modifies this`held
      ensures held == old(held) - {i}
    {
      held := held - {i};
    }

    /** Release the mutexes from `from` to `upto`. */
    method UnlockRange(from: nat, upto: nat)
      requires forall h :: from <= h <= upto ==> h in held
      modifies this`held
      ensures forall h :: h in held <==> h in old(held) && !(from <= h <= upto)
    {
      var i := from;
      while i <= upto
        invariant i >= from
        invariant forall h :: h in held <==> h in old(held) && !(from <= h <= upto && h < i)
      {
        Unlock(i);
        i := i + 1;
      }
    }

    /* ---- moving finished operations ---- */

    /** Length of the finished prefix of a stage, and the lowest stage its operations go to. */
    method FinishedPrefix(src: nat) returns (count: nat, min: nat)
      requires src < |stages| && forall p :: p in stages[src].entries ==> p in ops && ops[p].stage < |c.defs|
      ensures count == ReadyLen(stages[src].entries, ops, src)
      ensures count > 0 ==> min == MinStage(stages[src].entries[..count], ops) && src < min < |c.defs|
    {
      var entries := stages[src].entries;
      count, min := 0, 0;
      if entries == [] || ops[entries[0]].processing || ops[entries[0]].stage <= src {
        return;
      }
      min := ops[entries[0]].stage;
      count := 1;
      while count < |entries|
        invariant 1 <= count <= |entries|
        invariant forall j :: 0 <= j < count ==> Ready(ops, src, entries[j]) && min <= ops[entries[j]].stage
        invariant exists j :: 0 <= j < count && min == ops[entries[j]].stage
      {
        var p := entries[count];
        if ops[p].processing || ops[p].stage <= src {
          break;
        }
        ghost var j :| 0 <= j < count && min == ops[entries[j]].stage;
        if ops[p].stage < min {
          min := ops[p].stage;
          j := count;
        }
        count := count + 1;
        assert 0 <= j < count && min == ops[entries[j]].stage;
      }
      ghost var j :| 0 <= j < count && min == ops[entries[j]].stage;
      assert entries[j] in entries[..count];
      assert Ready(ops, src, entries[j]);
      ReadyLenIs(entries, ops, src, count);
      MinStageIs(entries[..count], ops, min);
    }

    method RegisterTail(p: nat)
      requires table.Valid(ops) && (forall q :: q in table.order ==> ops[q].referenced)
      requires p in ops && !ops[p].referenced && ops[p].id.Some?
      modifies this`ops, table
      ensures ops == old(ops)[p := old(ops)[p].(referenced := true)]
      ensures table.order == old(table.order) + [p]
      ensures table.Valid(ops) && (forall q :: q in table.order ==> ops[q].referenced)
    {
      var _ := table.Register(p, ops, false);
      ghost var ops0 := ops;
      ops := ops[p := ops[p].(referenced := true)];
      table.ValidFrame(ops0, ops);
    }

    /** Register, in order, the operations of `rem` that have an id and are not registered. */
    method RegisterAll(rem: seq<nat>)
      requires table.Valid(ops) && (forall p :: p in table.order ==> ops[p].referenced)
      requires Distinct(rem) && forall p :: p in rem ==> p in ops
      modifies this`ops, table
      ensures ops == MarkReferenced(old(ops), ToRegister(rem, old(ops)))
      ensures table.order == old(table.order) + ToRegister(rem, old(ops))
      ensures table.Valid(ops) && (forall p :: p in table.order ==> ops[p].referenced)
    {
      var n := 0;
      assert rem[..0] == [];
      while n < |rem|
        invariant 0 <= n <= |rem|
        invariant ops == MarkReferenced(old(ops), ToRegister(rem[..n], old(ops)))
        invariant table.order == old(table.order) + ToRegister(rem[..n], old(ops))
        invariant table.Valid(ops) && (forall p :: p in table.order ==> ops[p].referenced)
      {
        var p := rem[n];
        ToRegisterStep(rem, n, old(ops));
        assert p !in rem[..n];
        MarkOneMore(old(ops), ToRegister(rem[..n], old(ops)), p);
        if !ops[p].referenced && ops[p].id.Some? {
          RegisterTail(p);
        }
        n := n + 1;
      }
      assert rem[..n] == rem;
    }

    /** How many of `rem` are to be processed at `insert`, and how many past it. */
    method CountInto(rem: seq<nat>, insert: nat) returns (here: nat, past: nat)
      requires forall p :: p in rem ==> p in ops && insert <= ops[p].stage
      ensures here == CountAt(rem, ops, insert) && past == |rem| - here
    {
      here, past := 0, 0;
      var n := 0;
      assert rem[..0] == [];
      while n < |rem|
        invariant 0 <= n <= |rem|
        invariant here == CountAt(rem[..n], ops, insert) && past == n - here
      {
        assert rem[..n + 1] == rem[..n] + [rem[n]];
        CountAtConcat(rem[..n], [rem[n]], ops, insert);
        if insert < ops[rem[n]].stage {
          past := past + 1;
        } else {
          here := here + 1;
        }
        n := n + 1;
      }
      assert rem[..n] == rem;
    }
  
    /** Lock stage `i` and flush it. */
    method LockAndFlush(i: nat) returns (ghost srcs: seq<nat>)
      requires Sound() && 0 < i < |c.defs| && forall h :: h in held ==> h < i
      modifies this`stages, this`ops, this`held, table
      ensures Sound() && held == old(held) + {i}
      ensures MovesTo(c, old(View()), srcs, View()) && forall a :: a in srcs ==> a >= i
      ensures forall j :: 0 <= j < i ==> stages[j] == old(stages)[j]
      ensures i + 1 < |c.defs| && stages[i].entries != [] && stages[i].entries[0] in ops ==>
        ops[stages[i].entries[0]].processing || ops[stages[i].entries[0]].stage <= i
      decreases |c.defs| - i, 6
    {
      Lock(i);
      srcs := [];
      NoMove(c, View());
      if stages[i].entries != [] {
        var count;
        count, srcs := MoveStageEntries(i);
        MovesKeepBelow(c, old(View()), srcs, View(), i);
      }
    }

    /**
     * Take the mutexes above `src` up to the stage to insert into, flushing each stage on the way.
     * The mutex of `src` is held throughout.
     */
    method LockUpTo(src: nat, min: nat) returns (insert: nat, ghost srcs: seq<nat>)
      requires Sound() && src < min < |c.defs|
      requires src in held && forall h :: h in held ==> h <= src
      modifies this`stages, this`ops, this`held, table
      ensures Sound()
      ensures MovesTo(c, old(View()), srcs, View()) && forall a :: a in srcs ==> a > src
      ensures src < insert <= min && insert == InsertStage(stages, src + 1, min)
      ensures insert < min ==> stages[insert].entries != []
      ensures insert < min && stages[insert].entries[0] in ops ==>
        ops[stages[insert].entries[0]].processing || ops[stages[insert].entries[0]].stage <= insert
      ensures forall h :: h in held <==> h in old(held) || src < h <= insert
      decreases |c.defs| - src, 1
    {
      insert := min;
      srcs := [];
      NoMove(c, View());
      var i := src + 1;
      while i <= min
        invariant src < i <= min + 1 && insert == min
        invariant Sound() && Flushed(c, old(View()), srcs, View(), src, i)
        invariant forall h :: h in held <==> h in old(held) || src < h < i
      {
        ghost var s1 := View();
        ghost var more := LockAndFlush(i);
        FlushedMore(c, old(View()), srcs, s1, src, i, more, View());
        srcs := srcs + more;
        if stages[i].entries != [] {
          insert := i;
          break;
        }
        i := i + 1;
      }
      InsertStageIs(stages, src + 1, min, insert);
    }

    /** Register, count and append the cut operations `rem` to stage `insert`. */
    method Splice(src: nat, rem: seq<nat>, insert: nat, ghost s1: State)
      requires table.Valid(ops) && (forall p :: p in table.order ==> ops[p].referenced)
      requires CanSplice(s1, View(), src, rem, insert)
      modifies this`stages, this`ops, table
      ensures Spliced(c, s1, View(), src, |rem|, insert)
      ensures table.Valid(ops) && (forall p :: p in table.order ==> ops[p].referenced)
    {
      ghost var ops0 := ops;
      if insert == c.constraint {
        RegisterAll(rem);
      }
      CountAtSame(rem, ops0, ops, insert);
      var here, past := CountInto(rem, insert);
      stages := stages[insert := stages[insert].(entries := stages[insert].entries + rem,
                                                 unprocessed := stages[insert].unprocessed + here,
                                                 processed := stages[insert].processed + past)];
    }

    /**
     * Move the finished prefix of a stage up, flushing the stages it may pass over first.
     * The mutex of the stage is held by the caller and still is on return.
     */
    method MoveStageEntries(src: nat) returns (count: nat, ghost srcs: seq<nat>)
      requires Sound() && src < |c.defs|
      requires src in held && forall h :: h in held ==> h <= src
      modifies this`stages, this`ops, this`held, table
      ensures Sound() && held == old(held)
      ensures MovesTo(c, old(View()), srcs, View()) && forall a :: a in srcs ==> a >= src
      ensures src + 1 < |c.defs| ==>
        count == ReadyLen(old(stages)[src].entries, old(ops), src) && ReadyLen(stages[src].entries, ops, src) == 0
      ensures src + 1 < |c.defs| && stages[src].entries != [] && stages[src].entries[0] in ops ==>
        ops[stages[src].entries[0]].processing || ops[stages[src].entries[0]].stage <= src
      decreases |c.defs| - src, 5
    {
      srcs := [];
      NoMove(c, View());
      if src + 1 >= |c.defs| {
        return 0, [];
      }
      var min;
      count, min := FinishedPrefix(src);
      if count > 0 {
        srcs := MoveUp(src, count, min);
      }
    }

    /** Take the finished prefix out of its list, then lock and flush what is above. */
    method CutAndLock(src: nat, count: nat, min: nat) returns (insert: nat, ghost srcs: seq<nat>, ghost s1: State)
      requires Sound() && src < min < |c.defs| && count <= |stages[src].entries|
      requires src in held && forall h :: h in held ==> h <= src
      modifies this`stages, this`ops, this`held, table
      ensures Sound() && OnItsWay(c, old(View()), srcs, s1, View(), src, count)
      ensures src < insert <= min && insert == InsertStage(stages, src + 1, min)
      ensures forall h :: h in held <==> h in old(held) || src < h <= insert
      decreases |c.defs| - src, 2
    {
      ghost var s0 := View();
      CutSound(c, s0, src, count);
      stages := stages[src := Cut(stages[src], count)];
      assert View() == WithStage(s0, src, Cut(s0.stages[src], count));
      insert, srcs := LockUpTo(src, min);
      Uncut(c, s0, src, count, srcs, View());
      s1 := WithStage(View(), src, s0.stages[src]);
    }

    /** Cut, lock, flush and splice; the mutexes above `src` are still held. */
    method CutAndSplice(src: nat, count: nat, min: nat) returns (insert: nat, ghost srcs: seq<nat>)
      requires Sound() && src < min < |c.defs|
      requires count == ReadyLen(stages[src].entries, ops, src) && count > 0
      requires min == MinStage(stages[src].entries[..count], ops)
      requires src in held && forall h :: h in held ==> h <= src
      modifies this`stages, this`ops, this`held, table
      ensures Sound() && src < insert
      ensures MovesTo(c, old(View()), srcs, View()) && forall a :: a in srcs ==> a >= src
      ensures ReadyLen(stages[src].entries, ops, src) == 0
      ensures forall h :: h in held <==> h in old(held) || src < h <= insert
      decreases |c.defs| - src, 3
    {
      ghost var s0 := View();
      var rem := stages[src].entries[..count];
      CutSound(c, s0, src, count);
      ghost var s1;
      insert, srcs, s1 := CutAndLock(src, count, min);
      OnItsWayFacts(c, s0, srcs, s1, View(), src, count, min);
      Splice(src, rem, insert, s1);
      MovedUp(c, s0, srcs, s1, View(), src, count, min, insert);
      srcs := srcs + [src];
    }

    method MoveUp(src: nat, count: nat, min: nat) returns (ghost srcs: seq<nat>)
      requires Sound() && src < min < |c.defs|
      requires count == ReadyLen(stages[src].entries, ops, src) && count > 0
      requires min == MinStage(stages[src].entries[..count], ops)
      requires src in held && forall h :: h in held ==> h <= src
      modifies this`stages, this`ops, this`held, table
      ensures Sound() && held == old(held)
      ensures MovesTo(c, old(View()), srcs, View()) && forall a :: a in srcs ==> a >= src
      ensures ReadyLen(stages[src].entries, ops, src) == 0
      decreases |c.defs| - src, 4
    {
      var insert;
      insert, srcs := CutAndSplice(src, count, min);
      UnlockRange(src + 1, insert);
    }

    /* ---- pushing ---- */

    /** Wait for a token: the call returns once the semaphore is positive. */
    method WaitToken()
      requires Valid() && Enabled(c, View(), TakeToken)
      modifies this`free, this`pushing
      ensures Valid() && View() == Next(c, old(View()), TakeToken)
    {
      ghost var s' := Next(c, View(), TakeToken);
      EventKeepsInv(c, View(), TakeToken);
      free := free - 1;
      pushing := pushing + 1;
      assert View() == s';
    }

    /** Take the mutexes from the first stage to the first non-empty one, at most `stage`. */
    method LockFrom0(stage: nat) returns (insert: nat)
      requires stage < |stages| && held == {}
      modifies this`held
      ensures insert <= stage && insert == InsertStage(stages, 0, stage)
      ensures forall h :: h in held <==> 0 <= h <= insert
    {
      insert := stage;
      var i := 0;
      while i <= stage
        invariant 0 <= i <= stage + 1 && insert == stage
        invariant forall j :: 0 <= j < i ==> stages[j].entries == []
        invariant forall h :: h in held <==> 0 <= h < i
      {
        Lock(i);
        if stages[i].entries != [] {
          insert := i;
          break;
        }
        i := i + 1;
      }
      InsertStageIs(stages, 0, stage, insert);
    }

    /** Register the new operation if it enters the constraint stage, and append it to stage `insert`. */
    method Insert(e: Event, insert: nat)
      requires e.Push? && e.stage < |c.defs| == |stages| && (Limited(c) ==> pushing > 0)
      requires insert == InsertStage(stages, 0, e.stage) && table.Valid(ops) && pushed !in ops
      modifies this`stages, this`ops, this`pushed, this`pushing, table
      ensures View() == DoPush(c, old(View()), e) && table.Valid(ops)
    {
      NewOp(pushed, Op(e.stage, e.id, e.name, false, insert == c.constraint && e.id.Some?, e.fid));
      Append(insert, pushed, insert < e.stage);
      pushed := pushed + 1;
      if Limited(c) {
        pushing := pushing - 1;
      }
    }

    /** Make an operation known, and register it when it is marked as registered. */
    method NewOp(p: nat, o: Op)
      requires table.Valid(ops) && p !in ops && (o.referenced ==> o.id.Some?)
      modifies this`ops, table
      ensures table.Valid(ops) && ops == old(ops)[p := o]
      ensures table.order == if o.referenced then old(table.order) + [p] else old(table.order)
    {
      ghost var ops0 := ops;
      ops := ops[p := o];
      table.ValidFrame(ops0, ops);
      if o.referenced {
        var _ := table.Register(p, ops, false);
      }
    }

    /** Append an operation to the list of a stage and count it there. */
    method Append(insert: nat, p: nat, past: bool)
      requires insert < |stages|
      modifies this`stages
      ensures var st := old(stages)[insert]; var done := if past then 1 else 0;
        stages == old(stages)[insert := st.(entries := st.entries + [p], unprocessed := st.unprocessed + 1 - done,
                                            processed := st.processed + done)]
    {
      var st := stages[insert];
      if past {
        stages := stages[insert := st.(entries := st.entries + [p], processed := st.processed + 1)];
      } else {
        stages := stages[insert := st.(entries := st.entries + [p], unprocessed := st.unprocessed + 1)];
      }
    }

    /** Wait for a token if operations are limited, then insert. */
    method Push(e: Event)
      requires Valid() && held == {} && e.Push? && (Limited(c) ==> free > 0) && Enabled(c, WithToken(c, View()), e)
      modifies this`stages, this`ops, this`pushed, this`pushing, this`free, this`held, table
      ensures Valid() && held == {} && View() == DoPush(c, WithToken(c, old(View())), e)
    {
      if Limited(c) {
        WaitToken();
      }
      PushOp(e);
    }

    /** Insert a new operation into the first non-empty stage up to its own. */
    method PushOp(e: Event)
      requires Valid() && held == {} && e.Push? && Enabled(c, View(), e)
      modifies this`stages, this`ops, this`pushed, this`pushing, this`held, table
      ensures Valid() && held == {} && View() == Next(c, old(View()), e)
    {
      ghost var s' := Next(c, View(), e);
      EventKeepsInv(c, View(), e);
      NotPushedYet(c, View());
      PushLocked(e);
      assert View() == s';
    }

    method PushLocked(e: Event)
      requires e.Push? && e.stage < |c.defs| == |stages| && (Limited(c) ==> pushing > 0)
      requires table.Valid(ops) && pushed !in ops && held == {}
      modifies this`stages, this`ops, this`pushed, this`pushing, this`held, table
      ensures View() == DoPush(c, old(View()), e) && table.Valid(ops) && held == {}
    {
      var insert := LockFrom0(e.stage);
      Insert(e, insert);
      UnlockRange(0, insert);
    }

    /* ---- finding work ---- */

    /** A stage without threads has nothing being processed. */
    ghost predicate IdleWithoutThreads(i: nat)
      requires i < |stages|
      reads this
    {
      && (forall p :: p in stages[i].entries ==> p in ops)
      && (stages[i].threads == 0 ==> forall p :: p in stages[i].entries ==> !ops[p].processing)
    }

    lemma ValidIsIdle(i: nat)
      requires Valid() && i < |stages|
      ensures IdleWithoutThreads(i)
    {
      ValidIsSound();
      forall p | p in stages[i].entries && ops[p].processing ensures stages[i].threads > 0 {
        BusyHasThread(c, View(), i, p);
      }
    }

    /** On a sequential stage, the first operation still to be processed, if no thread is there. */
    method SequentialPick(i: nat) returns (k: int)
      requires i < |stages| == |c.defs| && c.defs[i].sequential && IdleWithoutThreads(i)
      ensures k < 0 ==> NothingAt(c, View(), i)
      ensures k >= 0 ==> CanPick(c, View(), i, k, 1)
    {
      if stages[i].threads != 0 {
        return -1;
      }
      k := 0;
      while k < |stages[i].entries|
        invariant 0 <= k <= |stages[i].entries|
        invariant forall j :: 0 <= j < k ==> stages[i].entries[j] in ops && ops[stages[i].entries[j]].stage != i
      {
        var p := stages[i].entries[k];
        assert p in stages[i].entries;
        if ops[p].stage == i {
          // one being processed here would be an inconsistency, which the program reports
          assert !ops[p].processing;
          return;
        }
        k := k + 1;
      }
      NoneThere(c, View(), i);
      k := -1;
    }

    /** What the scan of one stage list relies on. */
    ghost predicate Scannable(i: nat)
      reads this, table
    {
      && table.Valid(ops) && i < |stages| == |c.defs|
      && (forall p :: p in stages[i].entries ==> LocatedAt(c, ops, i, p))
      && (i == c.constraint && UpperTotal(stages, i) - stages[i].unprocessed == 0 ==>
            forall p :: p in stages[i].entries ==> !ops[p].processing && ops[p].stage == i)
      && (i == c.constraint ==> forall p :: p in stages[i].entries && ops[p].id.Some? ==> ops[p].referenced)
    }

    lemma ValidIsScannable(i: nat)
      requires Valid() && i < |stages|
      ensures Scannable(i)
    {
      forall p | p in stages[i].entries ensures LocatedAt(c, ops, i, p) {
        assert LocatedAt(c, View().ops, i, p);
      }
      if i == c.constraint {
        forall p | p in stages[i].entries && ops[p].id.Some? ensures ops[p].referenced {
          assert RegisteredAt(c, View().ops[p], i);
        }
      }
      if i == c.constraint && UpperTotal(stages, i) - stages[i].unprocessed == 0 {
        forall p | p in stages[i].entries ensures !ops[p].processing && ops[p].stage == i {
          AllIdle(c, View(), p);
        }
      }
    }

    /** Whether the operation at position `k` of a parallel stage may start, is passed over, or stops the scan. */
    method Judge(i: nat, k: nat, tot: int) returns (v: Verdict)
      requires Scannable(i) && k < |stages[i].entries| && tot == UpperTotal(stages, i)
      ensures stages[i].entries[k] in ops
      ensures v.Skip? ==> Passed(c, View(), i, k) && (i == c.constraint ==> ops[stages[i].entries[k]].id.Some?)
      ensures v.Stop? ==>
        i == c.constraint && ops[stages[i].entries[k]].id.None? && !(k == 0 && tot - stages[i].unprocessed == 0)
      ensures v.Take? ==>
        && !ops[stages[i].entries[k]].processing && ops[stages[i].entries[k]].stage == i
        && (i == c.constraint ==>
              if ops[stages[i].entries[k]].id.Some? then IsFirst(ops, table.order, stages[i].entries[k])
              else k == 0 && tot - stages[i].unprocessed == 0)
    {
      var p := stages[i].entries[k];
      assert LocatedAt(c, ops, i, p);
      if ops[p].id.None? && i == c.constraint {
        return if k == 0 && tot - stages[i].unprocessed == 0 then Take else Stop;
      }
      if ops[p].processing || ops[p].stage > i {
        // an unregistered operation is never met here
        assert i == c.constraint ==> ops[p].referenced;
        return Skip;
      }
      if i == c.constraint {
        var first := table.IsFirstOp(p, ops);
        return if first then Take else Skip;
      }
      return Take;
    }

    /** On a parallel stage, the first operation that may be started. */
    method ParallelPick(i: nat, tot: int) returns (k: int)
      requires Scannable(i) && !c.defs[i].sequential && tot == UpperTotal(stages, i)
      ensures k < 0 ==> NothingAt(c, View(), i)
      ensures k >= 0 ==> CanPick(c, View(), i, k, 1)
    {
      if c.defs[i].maxThreads != 0 && stages[i].threads >= c.defs[i].maxThreads {
        return -1;
      }
      if i == c.constraint && forceSeq {
        return -1;
      }
      k := 0;
      while k < |stages[i].entries|
        invariant 0 <= k <= |stages[i].entries| && PassedUpTo(c, View(), i, k)
      {
        var v := Judge(i, k, tot);
        if v.Take? {
          return;
        }
        if v.Stop? {
          StoppedAt(c, View(), k);
          return -1;
        }
        k := k + 1;
      }
      AllPassed(c, View(), i);
      k := -1;
    }

    /** How many operations, from position `k` on, go into one batch; `accept` is the stage's own test. */
    method BatchLen(i: nat, k: nat, accept: (seq<nat>, nat) -> bool) returns (len: nat)
      requires ValidConfig(c) && CanPick(c, View(), i, k, 1) && forall p :: p in stages[i].entries ==> p in ops
      ensures CanPick(c, View(), i, k, len)
      ensures var entries := stages[i].entries;
        && (forall n :: k < n < k + len ==> accept(entries[k..n], entries[n]))
        && (c.defs[i].batchable && len < c.maxBatch && k + len < |entries| && entries[k + len] in ops ==>
              || ops[entries[k + len]].processing || ops[entries[k + len]].stage != i
              || !accept(entries[k..k + len], entries[k + len]))
    {
      var entries := stages[i].entries;
      len := 1;
      if c.maxBatch > 1 && c.defs[i].batchable {
        while k + len < |entries| && len < c.maxBatch
          invariant 1 <= len && k + len <= |entries| && len <= c.maxBatch
          invariant CanPick(c, View(), i, k, len)
          invariant forall n :: k < n < k + len ==> accept(entries[k..n], entries[n])
        {
          var p := entries[k + len];
          assert p in entries;
          if ops[p].processing || ops[p].stage != i || !accept(entries[k..k + len], p) {
            return;
          }
          OneLonger(c, View(), i, k, len);
          len := len + 1;
        }
      }
    }

    /** Tag the operations of a batch and update the counters of their stage, one at a time. */
    method Tag(i: nat, batch: seq<nat>)
      requires i < |stages| && forall p :: p in batch ==> p in ops
      modifies this`stages, this`ops
      ensures ops == MarkProcessing(old(ops), batch)
      ensures stages == old(stages)[i := old(stages)[i].(unprocessed := old(stages)[i].unprocessed - |batch|,
                                                         current := old(stages)[i].current + |batch|,
                                                         threads := old(stages)[i].threads + 1)]
    {
      stages := stages[i := stages[i].(threads := stages[i].threads + 1)];
      var n := 0;
      assert MarkProcessing(ops, batch[..0]) == ops;
      while n < |batch|
        invariant 0 <= n <= |batch|
        invariant ops == MarkProcessing(old(ops), batch[..n])
        invariant stages == old(stages)[i := old(stages)[i].(unprocessed := old(stages)[i].unprocessed - n,
                                                             current := old(stages)[i].current + n,
                                                             threads := old(stages)[i].threads + 1)]
      {
        var p := batch[n];
        assert batch[..n + 1] == batch[..n] + [p];
        ops := ops[p := ops[p].(processing := true)];
        stages := stages[i := stages[i].(unprocessed := stages[i].unprocessed - 1, current := stages[i].current + 1)];
        n := n + 1;
      }
      assert batch[..n] == batch;
    }

    /** Start a batch. */
    method Start(t: nat, i: nat, k: nat, len: nat) returns (batch: seq<nat>)
      requires |starts| == |c.defs| && table.Valid(ops) && CanPick(c, View(), i, k, len)
      modifies this`stages, this`ops, this`forceSeq, this`workers, this`starts
      ensures View() == DoPick(c, old(View()), t, i, k, len)
      ensures batch == old(stages)[i].entries[k..k + len] && table.Valid(ops)
    {
      batch := stages[i].entries[k..k + len];
      if i == c.constraint && ops[batch[0]].id.None? {
        forceSeq := true;
      }
      Tag(i, batch);
      workers := workers[t := Job(i, batch)];
      starts := starts[i := starts[i] + batch];
      table.ValidFrame(old(ops), ops);
    }

    /** What can be started at one stage. */
    method FindAt(i: nat, tot: int, accept: (seq<nat>, nat) -> bool) returns (len: nat, k: nat, none: bool)
      requires Valid() && i < |stages| && tot == UpperTotal(stages, i)
      ensures len == 0 ==> NothingAt(c, View(), i)
      ensures len > 0 ==> CanPick(c, View(), i, k, len)
      ensures none <==> stages[i].unprocessed == 0 || Blocked(c, View(), i)
    {
      len, k, none := 0, 0, true;
      if stages[i].unprocessed == 0 {
        NoneIdle(c, View(), i);
        return;
      }
      none := i == c.constraint && forceSeq && !c.defs[i].sequential
        && (c.defs[i].maxThreads == 0 || stages[i].threads < c.defs[i].maxThreads);
      var pos;
      if c.defs[i].sequential {
        ValidIsIdle(i);
        pos := SequentialPick(i);
      } else {
        ValidIsScannable(i);
        pos := ParallelPick(i, tot);
      }
      if pos >= 0 {
        k := pos;
        ValidIsSound();
        len := BatchLen(i, k, accept);
      }
    }

    /** Look at one stage under its mutex, which is kept if something can be started. */
    method LookAt(i: nat, above: int, accept: (seq<nat>, nat) -> bool) returns (len: nat, k: nat, none: bool, tot: int)
      requires Valid() && held == {} && i < |stages| && above == UpperTotal(stages, i + 1)
      modifies this`held
      ensures tot == UpperTotal(stages, i) && held == if len > 0 then {i} else {}
      ensures len == 0 ==> NothingAt(c, View(), i)
      ensures len > 0 ==> CanPick(c, View(), i, k, len)
      ensures none <==> stages[i].unprocessed == 0 || Blocked(c, View(), i)
    {
      ghost var s0 := View();
      Lock(i);
      assert View() == s0;
      tot := above + stages[i].current + stages[i].unprocessed + stages[i].processed;
      len, k, none := FindAt(i, tot, accept);
      if len == 0 {
        Unlock(i);
      }
      assert View() == s0;
    }

    /** Scan the stages from the last to the first, one mutex at a time; keep that of the stage found. */
    method Search(accept: (seq<nat>, nat) -> bool) returns (len: nat, i: nat, k: nat, empty: bool)
      requires Valid() && held == {}
      modifies this`held
      ensures len > 0 ==> CanPick(c, View(), i, k, len) && NothingFrom(c, View(), i + 1)
      ensures len == 0 ==> NothingFrom(c, View(), 0)
      ensures held == if len > 0 then {i} else {}
      ensures len == 0 ==> (empty <==> NoneWaiting(c, View()))
    {
      len, i, k, empty := 0, |stages|, 0, true;
      var tot := 0;
      ghost var s0 := View();
      while i > 0
        invariant 0 <= i <= |stages| == |c.defs| && tot == UpperTotal(stages, i)
        invariant held == {} && len == 0 && View() == s0 && Seen(c, s0, i, empty)
      {
        i := i - 1;
        var none;
        len, k, none, tot := LookAt(i, tot, accept);
        assert View() == s0;
        if len > 0 {
          return;
        }
        SeenMore(c, s0, i, empty, none);
        empty := empty && none;
      }
    }

    /**
     * Find and start work, unless asked to stop. What is started is allowed, and nothing above it was;
     * when nothing is started, nothing was allowed anywhere, and `empty` tells whether anything waits.
     */
    method NextWorkAvail(t: nat, accept: (seq<nat>, nat) -> bool, stop: bool)
      returns (found: bool, batch: seq<nat>, empty: bool, ghost i: nat, ghost k: nat, ghost len: nat)
      requires Valid() && held == {} && t !in workers
      modifies this`stages, this`ops, this`forceSeq, this`workers, this`starts, this`held
      ensures Valid() && held == {}
      ensures found ==> CanPick(c, old(View()), i, k, len) && View() == DoPick(c, old(View()), t, i, k, len)
      ensures found ==> batch == old(stages)[i].entries[k..k + len]
      ensures found ==> NothingFrom(c, old(View()), i + 1)
      ensures !found ==> View() == old(View())
      ensures !found && !stop ==> NothingFrom(c, View(), 0) && (empty <==> NoneWaiting(c, View()))
      ensures stop ==> !found
    {
      if stop {
        return false, [], false, 0, 0, 0;
      }
      found, batch, empty, i, k, len := FindAndStart(t, accept);
    }

    method FindAndStart(t: nat, accept: (seq<nat>, nat) -> bool)
      returns (found: bool, batch: seq<nat>, empty: bool, ghost i: nat, ghost k: nat, ghost len: nat)
      requires Valid() && held == {} && t !in workers
      modifies this`stages, this`ops, this`forceSeq, this`workers, this`starts, this`held
      ensures Valid() && held == {}
      ensures found ==> CanPick(c, old(View()), i, k, len) && View() == DoPick(c, old(View()), t, i, k, len)
      ensures found ==> batch == old(stages)[i].entries[k..k + len]
      ensures found ==> NothingFrom(c, old(View()), i + 1)
      ensures !found ==> View() == old(View()) && NothingFrom(c, View(), 0) && (empty <==> NoneWaiting(c, View()))
    {
      var n, l, pos;
      n, l, pos, empty := Search(accept);
      i, k, len := l, pos, n;
      found, batch := n > 0, [];
      if found {
        batch := StartAndUnlock(t, l, pos, n);
      }
    }

    method StartAndUnlock(t: nat, i: nat, k: nat, len: nat) returns (batch: seq<nat>)
      requires Valid() && held == {i} && t !in workers && CanPick(c, View(), i, k, len)
      modifies this`stages, this`ops, this`forceSeq, this`workers, this`starts, this`held
      ensures Valid() && held == {} && View() == DoPick(c, old(View()), t, i, k, len)
      ensures batch == old(stages)[i].entries[k..k + len]
    {
      ghost var s' := DoPick(c, View(), t, i, k, len);
      EventKeepsInv(c, View(), Pick(t, i, k, len));
      batch := Start(t, i, k, len);
      Unlock(i);
      assert View() == s';
    }

    /* ---- acknowledging ---- */

    /** Send the operations of a batch to stage `next`. */
    method Forward(batch: seq<nat>, next: nat)
      requires forall p :: p in batch ==> p in ops
      modifies this`ops
      ensures ops == MarkDone(old(ops), batch, next)
    {
      var n := 0;
      assert MarkDone(ops, batch[..0], next) == ops;
      while n < |batch|
        invariant 0 <= n <= |batch|
        invariant ops == MarkDone(old(ops), batch[..n], next)
      {
        assert batch[..n + 1] == batch[..n] + [batch[n]];
        ops := ops[batch[n] := ops[batch[n]].(processing := false, stage := next)];
        n := n + 1;
      }
      assert batch[..n] == batch;
    }

    ghost predicate TableInStep()
      reads this, table
    {
      table.Valid(ops) && forall p :: p in ops ==> (p in table.order <==> ops[p].referenced)
    }

    /** Unlink one operation from its stage and from the constraint manager. */
    method Drop(at: nat, p: nat)
      requires TableInStep() && at < |stages| && p in ops
      modifies this`stages, this`ops, table
      ensures TableInStep() && Dropped(old(View()), View(), at, {p}, 1)
    {
      stages := stages[at := stages[at].(entries := Without(stages[at].entries, {p}),
                                         processed := stages[at].processed - 1)];
      Forget(p);
    }

    method Forget(p: nat)
      requires TableInStep() && p in ops
      modifies this`ops, table
      ensures TableInStep() && ops == old(ops) - {p} && table.order == Without(old(table.order), {p})
    {
      if ops[p].referenced {
        table.Unregister(p, ops);
      } else {
        WithoutNothing(table.order, {p});
      }
      ghost var ops0 := ops;
      ops := ops - {p};
      table.ValidFrame(ops0, ops);
    }

    method DropNext(at: nat, batch: seq<nat>, n: nat, ghost s0: State)
      requires TableInStep() && at < |stages| && n < |batch| && batch[n] in ops
      requires Dropped(s0, View(), at, Elems(batch[..n]), n)
      modifies this`stages, this`ops, table
      ensures TableInStep() && Dropped(s0, View(), at, Elems(batch[..n + 1]), n + 1)
    {
      ghost var s1 := View();
      Drop(at, batch[n]);
      DroppedNext(s0, s1, View(), at, batch, n);
    }

    method Remove(at: nat, batch: seq<nat>)
      requires TableInStep() && at < |stages| && Distinct(batch) && forall p :: p in batch ==> p in ops
      modifies this`stages, this`ops, table
      ensures TableInStep() && Dropped(old(View()), View(), at, Elems(batch), |batch|)
    {
      var n := 0;
      DroppedNone(View(), at);
      assert Elems(batch[..0]) == {};
      while n < |batch|
        invariant 0 <= n <= |batch|
        invariant TableInStep() && Dropped(old(View()), View(), at, Elems(batch[..n]), n)
      {
        assert batch[n] !in batch[..n];
        DropNext(at, batch, n, old(View()));
        n := n + 1;
      }
      assert batch[..n] == batch;
    }

    /** The acknowledgement proper: counters, then each operation of the batch. */
    method Acknowledge(ghost t: nat, at: nat, batch: seq<nat>, next: nat, remove: bool)
      requires TableInStep() && t in workers && workers[t] == Job(at, batch) && at < |stages|
      requires Distinct(batch) && forall p :: p in batch ==> p in ops
      modifies this`stages, this`ops, this`workers, this`releasing, table
      ensures TableInStep() && View() == DoAck(c, old(View()), t, next, remove)
    {
      var st := stages[at];
      stages := stages[at := st.(processed := st.processed + |batch|, current := st.current - |batch|,
                                 threads := st.threads - 1)];
      ghost var ops0 := ops;
      if remove {
        Remove(at, batch);
      } else {
        Forward(batch, next);
        table.ValidFrame(ops0, ops);
      }
      workers := workers - {t};
      releasing := releasing + (if remove && Limited(c) then |batch| else 0);
    }

    /** Give the tokens of removed operations back, one at a time. */
    method PostTokens(count: nat)
      requires releasing >= count
      modifies this`free, this`releasing
      ensures Posted(old(View()), View(), count)
    {
      var n := 0;
      while n < count
        invariant 0 <= n <= count && Posted(old(View()), View(), n)
      {
        free := free + 1;
        releasing := releasing - 1;
        n := n + 1;
      }
    }

    /** What an enabled acknowledgement gives. */
    lemma AckReady(t: nat, next: nat, remove: bool)
      requires Valid() && Enabled(c, View(), Ack(t, next, remove))
      ensures TableInStep() && t in workers && workers[t].at < |stages| == |c.defs|
      ensures workers[t].ops != [] && Distinct(workers[t].ops)
      ensures forall p :: p in workers[t].ops ==> p in ops && ops[p].stage == workers[t].at
      ensures SoundLists(c, DoAck(c, View(), t, next, remove))
    {
      EventKeepsInv(c, View(), Ack(t, next, remove));
      JobStage(c, View(), t);
      InvIsSound(c, DoAck(c, View(), t, next, remove));
    }

    /** Acknowledge under the mutex of the stage, and move what has become movable. */
    method AckAndMove(ghost t: nat, at: nat, batch: seq<nat>, next: nat, remove: bool) returns (ghost srcs: seq<nat>)
      requires TableInStep() && t in workers && workers[t] == Job(at, batch) && at < |stages| == |c.defs|
      requires Distinct(batch) && forall p :: p in batch ==> p in ops
      requires held == {} && SoundLists(c, DoAck(c, View(), t, next, remove))
      modifies this`stages, this`ops, this`workers, this`releasing, this`held, table
      ensures table.Valid(ops) && held == {}
      ensures MovesTo(c, DoAck(c, old(View()), t, next, remove), srcs, View())
      ensures releasing == old(releasing) + (if remove && Limited(c) then |batch| else 0)
      ensures at + 1 < |c.defs| == |stages| && stages[at].entries != [] && stages[at].entries[0] in ops ==>
        ops[stages[at].entries[0]].processing || ops[stages[at].entries[0]].stage <= at
    {
      ghost var s' := DoAck(c, View(), t, next, remove);
      Lock(at);
      Acknowledge(t, at, batch, next, remove);
      assert View() == s';
      srcs := MoveAfterAck(at);
    }

    method MoveAfterAck(at: nat) returns (ghost srcs: seq<nat>)
      requires Sound() && held == {at} && at < |c.defs|
      modifies this`stages, this`ops, this`held, table
      ensures table.Valid(ops) && held == {} && MovesTo(c, old(View()), srcs, View())
      ensures at + 1 < |c.defs| == |stages| && stages[at].entries != [] && stages[at].entries[0] in ops ==>
        ops[stages[at].entries[0]].processing || ops[stages[at].entries[0]].stage <= at
    {
      var count;
      count, srcs := MoveStageEntries(at);
      Unlock(at);
    }

    /**
     * Acknowledge a batch: the operations go to stage `next` or leave the pipeline, finished
     * prefixes move up, and the tokens of removed operations are given back.
     */
    method AcknowledgeBatch(ghost t: nat, batch: seq<nat>, next: nat, remove: bool)
      returns (ghost srcs: seq<nat>, ghost mid: State)
      requires Valid() && held == {} && Enabled(c, View(), Ack(t, next, remove)) && workers[t].ops == batch
      modifies this`stages, this`ops, this`workers, this`releasing, this`free, this`held, table
      ensures Valid() && held == {}
      ensures MovesTo(c, DoAck(c, old(View()), t, next, remove), srcs, mid)
      ensures Posted(mid, View(), if remove && Limited(c) then |batch| else 0)
      ensures var at := old(workers)[t].at;
        at + 1 < |c.defs| == |stages| && stages[at].entries != [] && stages[at].entries[0] in ops ==>
          ops[stages[at].entries[0]].processing || ops[stages[at].entries[0]].stage <= at
    {
      AckReady(t, next, remove);
      assert batch[0] in workers[t].ops;
      srcs, mid := AckMoveGive(t, ops[batch[0]].stage, batch, next, remove);
      AckedInv(c, old(View()), t, next, remove, srcs, mid, View());
    }

    method AckMoveGive(ghost t: nat, at: nat, batch: seq<nat>, next: nat, remove: bool)
      returns (ghost srcs: seq<nat>, ghost mid: State)
      requires TableInStep() && t in workers && workers[t] == Job(at, batch) && at < |stages| == |c.defs|
      requires Distinct(batch) && forall p :: p in batch ==> p in ops
      requires held == {} && SoundLists(c, DoAck(c, View(), t, next, remove))
      modifies this`stages, this`ops, this`workers, this`releasing, this`free, this`held, table
      ensures table.Valid(ops) && held == {}
      ensures MovesTo(c, DoAck(c, old(View()), t, next, remove), srcs, mid)
      ensures Posted(mid, View(), if remove && Limited(c) then |batch| else 0)
      ensures at + 1 < |c.defs| == |stages| && stages[at].entries != [] && stages[at].entries[0] in ops ==>
        ops[stages[at].entries[0]].processing || ops[stages[at].entries[0]].stage <= at
    {
      srcs := AckAndMove(t, at, batch, next, remove);
      mid := View();
      if remove && Limited(c) {
        PostTokens(|batch|);
      }
    }

    /* ---- resolving an id ---- */

    /** The id found in the database, if any: the operation is registered before all others. */
    method ResolveId(ghost t: nat, p: nat, found: Option<Id>)
      requires Valid() && held == {} && Enabled(c, View(), Resolve(t, found)) && p == workers[t].ops[0]
      modifies this`ops, table
      ensures Valid() && View() == Next(c, old(View()), Resolve(t, found))
    {
      ghost var s' := Next(c, View(), Resolve(t, found));
      EventKeepsInv(c, View(), Resolve(t, found));
      assert FidOk(c, View().ops[p]);
      SetFound(p, found);
      assert View() == s';
    }

    method SetFound(p: nat, found: Option<Id>)
      requires table.Valid(ops) && p in ops && p !in table.order
      modifies this`ops, table
      ensures table.Valid(ops) && View() == DoResolve(old(View()), p, found)
    {
      ghost var ops0 := ops;
      if found.Some? {
        ops := ops[p := ops[p].(id := found, referenced := true, fid := MustUnblock)];
        table.ValidFrame(ops0, ops);
        var _ := table.Register(p, ops, true);
      } else {
        ops := ops[p := ops[p].(fid := MustUnblock)];
        table.ValidFrame(ops0, ops);
      }
    }

    /** Let other operations into the constraint stage again. */
    method UnblockStage(ghost t: nat, p: nat)
      requires Valid() && held == {} && Enabled(c, View(), Unblock(t)) && p == workers[t].ops[0]
      modifies this`ops, this`forceSeq, this`held
      ensures Valid() && held == {} && View() == Next(c, old(View()), Unblock(t))
    {
      ghost var s' := Next(c, View(), Unblock(t));
      EventKeepsInv(c, View(), Unblock(t));
      ClearBlock(p);
      assert View() == s';
    }

    method ClearBlock(p: nat)
      requires table.Valid(ops) && p in ops && held == {}
      modifies this`ops, this`forceSeq, this`held
      ensures table.Valid(ops) && held == {}
      ensures View() == old(View()).(forceSeq := false, ops := old(ops)[p := old(ops)[p].(fid := Known)])
    {
      ghost var ops0 := ops;
      Lock(c.constraint);
      forceSeq := false;
      ops := ops[p := ops[p].(fid := Known)];
      table.ValidFrame(ops0, ops);
      Unlock(c.constraint);
    }
  }
}
