/** Location, workers, counters and tokens: what every event keeps. */
module PipelineInvariant {
  import opened Common
  import opened PipelineState
  import opened PipelineOrder

  /** What operation `p` is for the list of stage `j`. */
  datatype Status = Absent | Idle | Busy | Past

  ghost function StatusOf(ops: map<nat, Op>, p: nat, j: nat): (st: Status) {
    if p !in ops then Absent
    else if ops[p].processing then Busy
    else if ops[p].stage == j then Idle
    else Past
  }

  ghost function Those(entries: seq<nat>, ops: map<nat, Op>, j: nat, st: Status): (r: set<nat>) {
    set p | p in entries && StatusOf(ops, p, j) == st
  }

  ghost function JobsAt(workers: map<nat, Job>, j: nat): (r: set<nat>) {
    set t | t in workers && workers[t].at == j
  }

  /** A listed operation is at its list's stage or past it, and never leaves while being processed. */
  ghost predicate Located(c: Config, s: State) {
    forall j, p :: 0 <= j < |s.stages| && p in s.stages[j].entries ==> LocatedAt(c, s.ops, j, p)
  }

  ghost predicate LocatedAt(c: Config, ops: map<nat, Op>, j: nat, p: nat) {
    && p in ops
    && j <= ops[p].stage < |c.defs|
    && (ops[p].processing ==> ops[p].stage == j)
  }

  ghost predicate JobOk(s: State, job: Job) {
    && job.at < |s.stages| && job.ops != [] && Distinct(job.ops)
    && forall p :: p in job.ops ==> p in s.stages[job.at].entries && StatusOf(s.ops, p, job.at) == Busy
  }

  ghost predicate HeldBySome(workers: map<nat, Job>, p: nat) {
    exists t :: t in workers && p in workers[t].ops
  }

  /** The operations being processed are exactly those held by the workers, each by one of them. */
  ghost predicate Held(s: State) {
    && (forall t :: t in s.workers ==> JobOk(s, s.workers[t]))
    && (forall t, u, p :: t in s.workers && u in s.workers && p in s.workers[t].ops && p in s.workers[u].ops ==> t == u)
    && (forall p :: p in s.ops && s.ops[p].processing ==> HeldBySome(s.workers, p))
  }

  ghost predicate CountersOf(st: Stage, ops: map<nat, Op>, j: nat) {
    && st.unprocessed == |Those(st.entries, ops, j, Idle)|
    && st.current == |Those(st.entries, ops, j, Busy)|
    && st.processed == |Those(st.entries, ops, j, Past)|
  }

  ghost predicate Counters(s: State) {
    && (forall j :: 0 <= j < |s.stages| ==> CountersOf(s.stages[j], s.ops, j))
    && (forall j :: 0 <= j < |s.stages| ==> s.stages[j].threads == |JobsAt(s.workers, j)|)
  }

  /** Tokens are conserved. */
  ghost predicate Tokens(c: Config, s: State) {
    Limited(c) ==> s.free >= 0 && s.free + s.pushing + |s.ops| + s.releasing == c.maxPending
  }

  ghost predicate Base(c: Config, s: State) {
    && ValidConfig(c) && WellShaped(c, s) && InOrder(s)
    && Located(c, s) && Held(s) && Counters(s) && Tokens(c, s)
  }

  lemma InSomeList(s: State, p: nat) returns (j: nat)
    requires InOrder(s) && p in s.ops
    ensures j < |s.stages| && p in s.stages[j].entries
  {
    FlowMember(s.stages, p);
    j :| 0 <= j < |s.stages| && p in s.stages[j].entries;
  }

  lemma InOneList(s: State, p: nat, j: nat, l: nat)
    requires InOrder(s) && j < |s.stages| && l < |s.stages|
    requires p in s.stages[j].entries && p in s.stages[l].entries
    ensures j == l
  {
    FlowIncreasing(s.stages);
  }

  /* ---- counting by status ---- */

  ghost predicate SameStatus(entries: seq<nat>, ops: map<nat, Op>, ops': map<nat, Op>, j: nat) {
    forall p :: p in entries ==> StatusOf(ops, p, j) == StatusOf(ops', p, j)
  }

  lemma ThoseSame(entries: seq<nat>, ops: map<nat, Op>, ops': map<nat, Op>, j: nat, st: Status)
    requires SameStatus(entries, ops, ops', j)
    ensures Those(entries, ops, j, st) == Those(entries, ops', j, st)
  {
  }

  lemma CountersFrame(st: Stage, st': Stage, ops: map<nat, Op>, ops': map<nat, Op>, j: nat)
    requires CountersOf(st, ops, j) && SameStatus(st.entries, ops, ops', j)
    requires st' == st.(threads := st'.threads)
    ensures CountersOf(st', ops', j)
  {
    ThoseSame(st.entries, ops, ops', j, Idle);
    ThoseSame(st.entries, ops, ops', j, Busy);
    ThoseSame(st.entries, ops, ops', j, Past);
  }

  lemma ThoseConcat(a: seq<nat>, b: seq<nat>, ops: map<nat, Op>, j: nat, st: Status)
    requires forall p :: p in a ==> p !in b
    ensures |Those(a + b, ops, j, st)| == |Those(a, ops, j, st)| + |Those(b, ops, j, st)|
  {
    assert Those(a + b, ops, j, st) == Those(a, ops, j, st) + Those(b, ops, j, st);
  }

  lemma ThoseAll(a: seq<nat>, ops: map<nat, Op>, j: nat, st: Status, st': Status)
    requires Distinct(a) && forall p :: p in a ==> StatusOf(ops, p, j) == st
    ensures |Those(a, ops, j, st')| == if st == st' then |a| else 0
  {
    if st == st' {
      assert Those(a, ops, j, st') == Elems(a);
      ElemsSize(a);
    } else {
      assert Those(a, ops, j, st') == {};
    }
  }

  /** Only the members of `batch`, all listed, change from status `from` to status `to`. */
  ghost predicate Flips(entries: seq<nat>, batch: seq<nat>, ops: map<nat, Op>, ops': map<nat, Op>, j: nat,
                        from: Status, to: Status) {
    && Distinct(batch) && from != to
    && (forall p :: p in batch ==> p in entries && StatusOf(ops, p, j) == from && StatusOf(ops', p, j) == to)
    && (forall p :: p in entries && p !in batch ==> StatusOf(ops, p, j) == StatusOf(ops', p, j))
  }

  lemma ThoseFlipSets(entries: seq<nat>, batch: seq<nat>, ops: map<nat, Op>, ops': map<nat, Op>, j: nat,
                      from: Status, to: Status)
    requires Flips(entries, batch, ops, ops', j, from, to)
    ensures Elems(batch) <= Those(entries, ops, j, from) && Elems(batch) !! Those(entries, ops, j, to)
    ensures Those(entries, ops', j, from) == Those(entries, ops, j, from) - Elems(batch)
    ensures Those(entries, ops', j, to) == Those(entries, ops, j, to) + Elems(batch)
  {
  }

  lemma ThoseFlip(entries: seq<nat>, batch: seq<nat>, ops: map<nat, Op>, ops': map<nat, Op>, j: nat,
                  from: Status, to: Status)
    requires Flips(entries, batch, ops, ops', j, from, to)
    ensures |Those(entries, ops', j, from)| == |Those(entries, ops, j, from)| - |batch|
    ensures |Those(entries, ops', j, to)| == |Those(entries, ops, j, to)| + |batch|
  {
    ElemsSize(batch);
    ThoseFlipSets(entries, batch, ops, ops', j, from, to);
    SizeMinus(Those(entries, ops, j, from), Elems(batch), Those(entries, ops', j, from));
    SizePlus(Those(entries, ops, j, to), Elems(batch), Those(entries, ops', j, to));
  }

  lemma ThoseUnflipped(entries: seq<nat>, batch: seq<nat>, ops: map<nat, Op>, ops': map<nat, Op>, j: nat,
                       from: Status, to: Status, st: Status)
    requires Flips(entries, batch, ops, ops', j, from, to) && st != from && st != to
    ensures Those(entries, ops', j, st) == Those(entries, ops, j, st)
  {
  }

  /** Deleting `batch`, whose members all have status `from`. */
  lemma ThoseDrop(entries: seq<nat>, batch: seq<nat>, ops: map<nat, Op>, ops': map<nat, Op>, j: nat,
                  from: Status, st: Status)
    requires Distinct(batch) && from != Absent && st != Absent
    requires forall p :: p in batch ==> p in entries && StatusOf(ops, p, j) == from
    requires forall p :: p in entries && p !in batch ==> StatusOf(ops, p, j) == StatusOf(ops', p, j)
    ensures |Those(Without(entries, Elems(batch)), ops', j, st)|
            == |Those(entries, ops, j, st)| - (if st == from then |batch| else 0)
  {
    ElemsSize(batch);
    var before, after := Those(entries, ops, j, st), Those(Without(entries, Elems(batch)), ops', j, st);
    if st == from {
      SizeMinus(before, Elems(batch), after);
    } else {
      assert before == after;
    }
  }

  /* ---- counters, event by event ---- */

  lemma CountersPush(st: Stage, st': Stage, ops: map<nat, Op>, p: nat, o: Op, j: nat)
    requires CountersOf(st, ops, j) && p !in ops && p !in st.entries && !o.processing
    requires st'.entries == st.entries + [p] && st'.current == st.current
    requires st'.unprocessed == st.unprocessed + (if o.stage == j then 1 else 0)
    requires st'.processed == st.processed + (if o.stage == j then 0 else 1)
    ensures CountersOf(st', ops[p := o], j)
  {
    var ops' := ops[p := o];
    assert SameStatus(st.entries, ops, ops', j);
    forall x: Status ensures
      |Those(st'.entries, ops', j, x)| == |Those(st.entries, ops, j, x)| + |Those([p], ops', j, x)|
    {
      ThoseSame(st.entries, ops, ops', j, x);
      ThoseConcat(st.entries, [p], ops', j, x);
    }
    var x := StatusOf(ops', p, j);
    ThoseAll([p], ops', j, x, Idle);
    ThoseAll([p], ops', j, x, Busy);
    ThoseAll([p], ops', j, x, Past);
  }

  lemma CountersStart(st: Stage, st': Stage, batch: seq<nat>, ops: map<nat, Op>, ops': map<nat, Op>, j: nat)
    requires CountersOf(st, ops, j) && st'.entries == st.entries
    requires Flips(st.entries, batch, ops, ops', j, Idle, Busy)
    requires st'.unprocessed == st.unprocessed - |batch|
    requires st'.current == st.current + |batch| && st'.processed == st.processed
    ensures CountersOf(st', ops', j)
  {
    ThoseFlip(st.entries, batch, ops, ops', j, Idle, Busy);
    ThoseUnflipped(st.entries, batch, ops, ops', j, Idle, Busy, Past);
  }

  lemma CountersFinish(st: Stage, st': Stage, batch: seq<nat>, ops: map<nat, Op>, ops': map<nat, Op>, j: nat)
    requires CountersOf(st, ops, j) && st'.entries == st.entries
    requires Flips(st.entries, batch, ops, ops', j, Busy, Past)
    requires st'.processed == st.processed + |batch|
    requires st'.current == st.current - |batch| && st'.unprocessed == st.unprocessed
    ensures CountersOf(st', ops', j)
  {
    ThoseFlip(st.entries, batch, ops, ops', j, Busy, Past);
    ThoseUnflipped(st.entries, batch, ops, ops', j, Busy, Past, Idle);
  }

  lemma CountersDrop(st: Stage, st': Stage, batch: seq<nat>, ops: map<nat, Op>, ops': map<nat, Op>, j: nat)
    requires CountersOf(st, ops, j) && st'.entries == Without(st.entries, Elems(batch))
    requires Distinct(batch)
    requires forall p :: p in batch ==> p in st.entries && StatusOf(ops, p, j) == Busy
    requires forall p :: p in st.entries && p !in batch ==> StatusOf(ops, p, j) == StatusOf(ops', p, j)
    requires st'.unprocessed == st.unprocessed && st'.processed == st.processed
    requires st'.current == st.current - |batch|
    ensures CountersOf(st', ops', j)
  {
    ThoseDrop(st.entries, batch, ops, ops', j, Busy, Idle);
    ThoseDrop(st.entries, batch, ops, ops', j, Busy, Busy);
    ThoseDrop(st.entries, batch, ops, ops', j, Busy, Past);
  }

  lemma CountersCut(st: Stage, st': Stage, k: nat, ops: map<nat, Op>, ops': map<nat, Op>, j: nat)
    requires CountersOf(st, ops, j) && Distinct(st.entries) && k <= |st.entries|
    requires SameStatus(st.entries, ops, ops', j)
    requires forall p :: p in st.entries[..k] ==> StatusOf(ops, p, j) == Past
    requires st'.entries == st.entries[k..] && st'.processed == st.processed - k
    requires st'.unprocessed == st.unprocessed && st'.current == st.current
    ensures CountersOf(st', ops', j)
  {
    var moved, rest := st.entries[..k], st.entries[k..];
    assert st.entries == moved + rest;
    forall x: Status ensures
      |Those(st.entries, ops', j, x)| == |Those(moved, ops', j, x)| + |Those(rest, ops', j, x)|
    {
      ThoseConcat(moved, rest, ops', j, x);
    }
    ThoseSame(st.entries, ops, ops', j, Idle);
    ThoseSame(st.entries, ops, ops', j, Busy);
    ThoseSame(st.entries, ops, ops', j, Past);
    ThoseAll(moved, ops', j, Past, Idle);
    ThoseAll(moved, ops', j, Past, Busy);
    ThoseAll(moved, ops', j, Past, Past);
  }

  lemma {:induction false} CountAtThose(moved: seq<nat>, ops: map<nat, Op>, ops': map<nat, Op>, d: nat)
    requires Distinct(moved)
    requires forall p :: p in moved ==> p in ops && StatusOf(ops', p, d) == if ops[p].stage == d then Idle else Past
    ensures CountAt(moved, ops, d) == |Those(moved, ops', d, Idle)|
    ensures |moved| - CountAt(moved, ops, d) == |Those(moved, ops', d, Past)|
    ensures |Those(moved, ops', d, Busy)| == 0
  {
    if moved == [] {
      assert Those(moved, ops', d, Idle) == {} && Those(moved, ops', d, Past) == {};
    } else {
      var rest := moved[1..];
      CountAtThose(rest, ops, ops', d);
      assert moved == [moved[0]] + rest && moved[0] !in rest;
      ThoseConcat([moved[0]], rest, ops', d, Idle);
      ThoseConcat([moved[0]], rest, ops', d, Past);
      var x := StatusOf(ops', moved[0], d);
      ThoseAll([moved[0]], ops', d, x, Idle);
      ThoseAll([moved[0]], ops', d, x, Past);
    }
    assert Those(moved, ops', d, Busy) == {};
  }

  lemma CountersAppend(st: Stage, st': Stage, moved: seq<nat>, ops: map<nat, Op>, ops': map<nat, Op>, d: nat)
    requires CountersOf(st, ops, d) && Distinct(moved) && SameStatus(st.entries, ops, ops', d)
    requires forall p :: p in st.entries ==> p !in moved
    requires forall p :: p in moved ==> p in ops && StatusOf(ops', p, d) == if ops[p].stage == d then Idle else Past
    requires st'.entries == st.entries + moved && st'.current == st.current
    requires st'.unprocessed == st.unprocessed + CountAt(moved, ops, d)
    requires st'.processed == st.processed + |moved| - CountAt(moved, ops, d)
    ensures CountersOf(st', ops', d)
  {
    CountAtThose(moved, ops, ops', d);
    forall x: Status ensures
      |Those(st'.entries, ops', d, x)| == |Those(st.entries, ops, d, x)| + |Those(moved, ops', d, x)|
    {
      ThoseSame(st.entries, ops, ops', d, x);
      ThoseConcat(st.entries, moved, ops', d, x);
    }
  }

  /* ---- pushing ---- */

  /** The lists that hold an operation do not hold the next push number. */
  lemma NotPushedYet(c: Config, s: State)
    requires InOrder(s) && Located(c, s)
    ensures s.pushed !in s.ops
    ensures forall j :: 0 <= j < |s.stages| ==> s.pushed !in s.stages[j].entries
  {
  }

  lemma PushCounters(c: Config, s: State, e: Event)
    requires Base(c, s) && e.Push? && Enabled(c, s, e)
    ensures Counters(DoPush(c, s, e))
  {
    var s' := DoPush(c, s, e);
    var d := InsertStage(s.stages, 0, e.stage);
    NotPushedYet(c, s);
    forall j | 0 <= j < |s'.stages|
      ensures CountersOf(s'.stages[j], s'.ops, j) && s'.stages[j].threads == |JobsAt(s'.workers, j)|
    {
      assert CountersOf(s.stages[j], s.ops, j);
      if j == d {
        CountersPush(s.stages[j], s'.stages[j], s.ops, s.pushed, s'.ops[s.pushed], j);
      } else {
        CountersFrame(s.stages[j], s'.stages[j], s.ops, s'.ops, j);
      }
    }
  }

  lemma PushHeld(c: Config, s: State, e: Event)
    requires Base(c, s) && e.Push? && Enabled(c, s, e)
    ensures Held(DoPush(c, s, e)) && Located(c, DoPush(c, s, e))
  {
    var s' := DoPush(c, s, e);
    NotPushedYet(c, s);
    forall t | t in s'.workers ensures JobOk(s', s'.workers[t]) {
      assert JobOk(s, s.workers[t]);
    }
    forall j, p | 0 <= j < |s'.stages| && p in s'.stages[j].entries ensures LocatedAt(c, s'.ops, j, p) {
      if p != s.pushed {
        assert LocatedAt(c, s.ops, j, p);
      }
    }
  }

  lemma PushKeepsBase(c: Config, s: State, e: Event)
    requires Base(c, s) && e.Push? && Enabled(c, s, e)
    ensures Base(c, Next(c, s, e))
  {
    PushKeepsOrder(c, s, e);
    PushCounters(c, s, e);
    PushHeld(c, s, e);
    NotPushedYet(c, s);
  }

  /* ---- picking ---- */

  /** No operation is in two lists, and every listed operation is known. */
  ghost predicate ListsApart(s: State) {
    && (forall j, l, p :: 0 <= j < |s.stages| && 0 <= l < |s.stages| && j != l && p in s.stages[j].entries ==>
          p !in s.stages[l].entries)
    && (forall j, p :: 0 <= j < |s.stages| && p in s.stages[j].entries ==> p in s.ops)
    && (forall j :: 0 <= j < |s.stages| ==> Distinct(s.stages[j].entries))
  }

  lemma BaseListsApart(c: Config, s: State)
    requires InOrder(s) && Located(c, s)
    ensures ListsApart(s)
  {
    FlowIncreasing(s.stages);
    forall j, p | 0 <= j < |s.stages| && p in s.stages[j].entries ensures p in s.ops {
      assert LocatedAt(c, s.ops, j, p);
    }
  }

  /** `batch` is a list of idle operations of stage `i`. */
  ghost predicate IdleBatch(s: State, i: nat, batch: seq<nat>) {
    && i < |s.stages| && batch != [] && Distinct(batch)
    && forall p :: p in batch ==> p in s.stages[i].entries && StatusOf(s.ops, p, i) == Idle
  }

  lemma BatchFacts(c: Config, s: State, i: nat, k: nat, len: nat)
    requires InOrder(s) && CanPick(c, s, i, k, len)
    ensures IdleBatch(s, i, s.stages[i].entries[k..k + len])
  {
    FlowIncreasing(s.stages);
  }

  /** `s'` is `s` after worker `t` started `batch`. */
  ghost predicate Started(s: State, s': State, t: nat, i: nat, batch: seq<nat>) {
    && i < |s.stages| && t !in s.workers
    && s'.stages == s.stages[i := s.stages[i].(unprocessed := s.stages[i].unprocessed - |batch|,
                                               current := s.stages[i].current + |batch|,
                                               threads := s.stages[i].threads + 1)]
    && s'.ops == MarkProcessing(s.ops, batch)
    && s'.workers == s.workers[t := Job(i, batch)]
    && s'.pushed == s.pushed && s'.free == s.free && s'.pushing == s.pushing && s'.releasing == s.releasing
  }

  lemma PickHeld(s: State, s': State, t: nat, i: nat, batch: seq<nat>)
    requires Held(s) && IdleBatch(s, i, batch) && Started(s, s', t, i, batch)
    ensures Held(s')
  {
    forall u | u in s'.workers ensures JobOk(s', s'.workers[u]) {
      if u != t {
        assert JobOk(s, s.workers[u]);
      }
    }
    forall u, p | u in s.workers && p in s.workers[u].ops ensures p !in batch {
      assert JobOk(s, s.workers[u]);
    }
    forall p | p in s'.ops && s'.ops[p].processing ensures HeldBySome(s'.workers, p) {
      if p in batch {
        assert p in s'.workers[t].ops;
      } else {
        assert HeldBySome(s.workers, p);
        var u :| u in s.workers && p in s.workers[u].ops;
        assert u in s'.workers && p in s'.workers[u].ops;
      }
    }
  }

  lemma PickCounters(s: State, s': State, t: nat, i: nat, batch: seq<nat>)
    requires Counters(s) && ListsApart(s) && IdleBatch(s, i, batch) && Started(s, s', t, i, batch)
    ensures Counters(s')
  {
    forall j | 0 <= j < |s'.stages| ensures CountersOf(s'.stages[j], s'.ops, j) {
      assert CountersOf(s.stages[j], s.ops, j);
      if j == i {
        CountersStart(s.stages[j], s'.stages[j], batch, s.ops, s'.ops, j);
      } else {
        CountersFrame(s.stages[j], s'.stages[j], s.ops, s'.ops, j);
      }
    }
    forall j | 0 <= j < |s'.stages| ensures s'.stages[j].threads == |JobsAt(s'.workers, j)| {
      JobAdded(s.workers, t, Job(i, batch), j);
    }
  }

  lemma JobAdded(workers: map<nat, Job>, t: nat, job: Job, j: nat)
    requires t !in workers
    ensures |JobsAt(workers[t := job], j)| == |JobsAt(workers, j)| + (if job.at == j then 1 else 0)
  {
    assert JobsAt(workers[t := job], j) == JobsAt(workers, j) + (if job.at == j then {t} else {});
  }

  lemma JobGone(workers: map<nat, Job>, t: nat, j: nat)
    requires t in workers
    ensures |JobsAt(workers - {t}, j)| == |JobsAt(workers, j)| - (if workers[t].at == j then 1 else 0)
  {
    assert JobsAt(workers - {t}, j) == JobsAt(workers, j) - (if workers[t].at == j then {t} else {});
  }

  lemma PickLocated(c: Config, s: State, s': State, t: nat, i: nat, batch: seq<nat>)
    requires Located(c, s) && ListsApart(s) && IdleBatch(s, i, batch) && Started(s, s', t, i, batch)
    ensures Located(c, s') && s'.ops.Keys == s.ops.Keys
  {
    forall j, p | 0 <= j < |s'.stages| && p in s'.stages[j].entries ensures LocatedAt(c, s'.ops, j, p) {
      assert LocatedAt(c, s.ops, j, p);
    }
  }

  lemma PickIsStarted(c: Config, s: State, t: nat, i: nat, k: nat, len: nat)
    requires WellShaped(c, s) && InOrder(s) && t !in s.workers && CanPick(c, s, i, k, len)
    ensures IdleBatch(s, i, s.stages[i].entries[k..k + len])
    ensures Started(s, DoPick(c, s, t, i, k, len), t, i, s.stages[i].entries[k..k + len])
  {
    BatchFacts(c, s, i, k, len);
  }

  lemma PickKeepsBase(c: Config, s: State, t: nat, i: nat, k: nat, len: nat)
    requires Base(c, s) && Enabled(c, s, Pick(t, i, k, len))
    ensures Base(c, Next(c, s, Pick(t, i, k, len)))
  {
    var s' := DoPick(c, s, t, i, k, len);
    var batch := s.stages[i].entries[k..k + len];
    PickIsStarted(c, s, t, i, k, len);
    StartedKeepsBase(c, s, s', t, i, batch);
  }

  lemma StartedKeepsBase(c: Config, s: State, s': State, t: nat, i: nat, batch: seq<nat>)
    requires Base(c, s) && IdleBatch(s, i, batch) && Started(s, s', t, i, batch) && |s'.starts| == |c.defs|
    ensures Base(c, s')
  {
    FlowSame(s.stages, s'.stages);
    BaseListsApart(c, s);
    PickHeld(s, s', t, i, batch);
    PickCounters(s, s', t, i, batch);
    PickLocated(c, s, s', t, i, batch);
  }

  /* ---- acknowledging ---- */

  /** `s'` is `s` after worker `t` finished its batch. */
  ghost predicate Finished(s: State, s': State, t: nat, next: nat, remove: bool) {
    && t in s.workers && s.workers[t].at < |s.stages|
    && var job := s.workers[t]; var st := s.stages[job.at]; var gone := Elems(job.ops);
    && s'.stages == s.stages[job.at := st.(entries := if remove then Without(st.entries, gone) else st.entries,
                                           current := st.current - |job.ops|,
                                           processed := st.processed + (if remove then 0 else |job.ops|),
                                           threads := st.threads - 1)]
    && s'.ops == (if remove then s.ops - gone else MarkDone(s.ops, job.ops, next))
    && s'.workers == s.workers - {t}
  }

  /** An acknowledgement changes the status of the batch only. */
  lemma AckStatus(s: State, s': State, t: nat, next: nat, remove: bool)
    requires Finished(s, s', t, next, remove) && JobOk(s, s.workers[t]) && s.workers[t].at != next
    ensures var job := s.workers[t];
      && (forall p, j :: p in s.ops && p !in job.ops ==> StatusOf(s.ops, p, j) == StatusOf(s'.ops, p, j))
      && (!remove ==> forall p :: p in job.ops ==> StatusOf(s'.ops, p, job.at) == Past)
  {
  }

  lemma AckCounters(s: State, s': State, t: nat, next: nat, remove: bool)
    requires Counters(s) && ListsApart(s) && Finished(s, s', t, next, remove)
    requires JobOk(s, s.workers[t]) && s.workers[t].at != next
    ensures Counters(s')
  {
    var job := s.workers[t];
    AckStatus(s, s', t, next, remove);
    forall j | 0 <= j < |s'.stages| ensures CountersOf(s'.stages[j], s'.ops, j) {
      assert CountersOf(s.stages[j], s.ops, j);
      if j != job.at {
        CountersFrame(s.stages[j], s'.stages[j], s.ops, s'.ops, j);
      } else if remove {
        CountersDrop(s.stages[j], s'.stages[j], job.ops, s.ops, s'.ops, j);
      } else {
        CountersFinish(s.stages[j], s'.stages[j], job.ops, s.ops, s'.ops, j);
      }
    }
    forall j | 0 <= j < |s'.stages| ensures s'.stages[j].threads == |JobsAt(s'.workers, j)| {
      JobGone(s.workers, t, j);
    }
  }

  lemma AckHeld(s: State, s': State, t: nat, next: nat, remove: bool)
    requires Held(s) && Finished(s, s', t, next, remove)
    ensures Held(s')
  {
    assert JobOk(s, s.workers[t]);
    forall u | u in s'.workers ensures JobOk(s', s'.workers[u]) {
      assert JobOk(s, s.workers[u]);
    }
    forall p | p in s'.ops && s'.ops[p].processing ensures HeldBySome(s'.workers, p) {
      assert HeldBySome(s.workers, p);
      var u :| u in s.workers && p in s.workers[u].ops;
      assert u in s'.workers && p in s'.workers[u].ops;
    }
  }

  lemma AckLocated(c: Config, s: State, s': State, t: nat, next: nat, remove: bool)
    requires Located(c, s) && ListsApart(s) && Finished(s, s', t, next, remove)
    requires JobOk(s, s.workers[t]) && (!remove ==> s.workers[t].at < next < |c.defs|)
    ensures Located(c, s')
  {
    forall j, p | 0 <= j < |s'.stages| && p in s'.stages[j].entries ensures LocatedAt(c, s'.ops, j, p) {
      assert LocatedAt(c, s.ops, j, p);
    }
  }

  lemma AckTokens(c: Config, s: State, t: nat, next: nat, remove: bool)
    requires WellShaped(c, s) && Tokens(c, s) && t in s.workers && JobOk(s, s.workers[t])
    ensures Tokens(c, DoAck(c, s, t, next, remove))
  {
    var s' := DoAck(c, s, t, next, remove);
    var job := s.workers[t];
    ElemsSize(job.ops);
    if remove {
      SizeMinus(s.ops.Keys, Elems(job.ops), s'.ops.Keys);
    } else {
      assert s'.ops.Keys == s.ops.Keys;
    }
  }

  lemma AckIsFinished(c: Config, s: State, t: nat, next: nat, remove: bool)
    requires t in s.workers && s.workers[t].at < |s.stages|
    ensures Finished(s, DoAck(c, s, t, next, remove), t, next, remove)
    ensures var s' := DoAck(c, s, t, next, remove);
      && s'.reg == (if remove then Without(s.reg, Elems(s.workers[t].ops)) else s.reg)
      && s'.forceSeq == s.forceSeq
  {
  }

  lemma FinishedKeeps(c: Config, s: State, s': State, t: nat, next: nat, remove: bool)
    requires Located(c, s) && Held(s) && Counters(s) && ListsApart(s) && Finished(s, s', t, next, remove)
    requires !remove ==> s.workers[t].at < next < |c.defs|
    ensures Located(c, s') && Held(s') && Counters(s')
  {
    assert JobOk(s, s.workers[t]);
    // the stage written into a removed operation is never looked at again
    var next' := if remove then s.workers[t].at + 1 else next;
    AckCounters(s, s', t, next', remove);
    AckHeld(s, s', t, next, remove);
    AckLocated(c, s, s', t, next, remove);
  }

  lemma AckKeepsBase(c: Config, s: State, t: nat, next: nat, remove: bool)
    requires Base(c, s) && Enabled(c, s, Ack(t, next, remove))
    ensures Base(c, Next(c, s, Ack(t, next, remove)))
  {
    assert JobOk(s, s.workers[t]);
    AckKeepsOrder(c, s, t, next, remove);
    BaseListsApart(c, s);
    AckIsFinished(c, s, t, next, remove);
    FinishedKeeps(c, s, DoAck(c, s, t, next, remove), t, next, remove);
    AckTokens(c, s, t, next, remove);
  }

  /* ---- moving ---- */

  /** `s'` is `s` after the first `k` operations of `src` went to `d`. */
  ghost predicate Moved(s: State, s': State, src: nat, d: nat, k: nat) {
    && src < d < |s.stages| && k <= |s.stages[src].entries|
    && var moved := s.stages[src].entries[..k]; var here := CountAt(moved, s.ops, d);
    && s'.stages == s.stages[src := s.stages[src].(entries := s.stages[src].entries[k..],
                                                   processed := s.stages[src].processed - k)]
                            [d := s.stages[d].(entries := s.stages[d].entries + moved,
                                               unprocessed := s.stages[d].unprocessed + here,
                                               processed := s.stages[d].processed + k - here)]
    && s'.workers == s.workers && s'.pushed == s.pushed
    && s'.free == s.free && s'.pushing == s.pushing && s'.releasing == s.releasing
    && s'.ops.Keys == s.ops.Keys
    && (forall p :: p in s.ops ==> s'.ops[p] == s.ops[p].(referenced := s'.ops[p].referenced))
    && (forall p :: p in moved ==> p in s.ops && !s.ops[p].processing && d <= s.ops[p].stage)
  }

  lemma MoveFacts(c: Config, s: State, src: nat)
    requires WellShaped(c, s) && Enabled(c, s, Move(src))
    ensures Moved(s, DoMove(c, s, src), src, MoveTarget(c, s, src), ReadyLen(s.stages[src].entries, s.ops, src))
  {
    MovedAreReady(c, s, src);
    assert DoMove(c, s, src).ops.Keys == s.ops.Keys;
  }

  lemma MovedAreReady(c: Config, s: State, src: nat)
    requires WellShaped(c, s) && Enabled(c, s, Move(src))
    ensures forall p :: p in s.stages[src].entries[..ReadyLen(s.stages[src].entries, s.ops, src)] ==>
      p in s.ops && !s.ops[p].processing && MoveTarget(c, s, src) <= s.ops[p].stage
  {
    var moved := s.stages[src].entries[..ReadyLen(s.stages[src].entries, s.ops, src)];
    assert forall p :: p in moved ==> Ready(s.ops, src, p);
  }

  lemma MoveCounters(s: State, s': State, src: nat, d: nat, k: nat)
    requires Counters(s) && ListsApart(s) && Moved(s, s', src, d, k)
    ensures Counters(s')
  {
    var moved := s.stages[src].entries[..k];
    assert s.stages[src].entries == moved + s.stages[src].entries[k..];
    forall j | 0 <= j < |s'.stages|
      ensures CountersOf(s'.stages[j], s'.ops, j) && s'.stages[j].threads == |JobsAt(s'.workers, j)|
    {
      assert CountersOf(s.stages[j], s.ops, j);
      assert SameStatus(s.stages[j].entries, s.ops, s'.ops, j);
      if j == src {
        CountersCut(s.stages[j], s'.stages[j], k, s.ops, s'.ops, j);
      } else if j == d {
        CountersAppend(s.stages[j], s'.stages[j], moved, s.ops, s'.ops, j);
      } else {
        CountersFrame(s.stages[j], s'.stages[j], s.ops, s'.ops, j);
      }
    }
  }

  lemma MoveLocated(c: Config, s: State, s': State, src: nat, d: nat, k: nat)
    requires Located(c, s) && Moved(s, s', src, d, k)
    ensures Located(c, s')
  {
    var moved := s.stages[src].entries[..k];
    assert s.stages[src].entries == moved + s.stages[src].entries[k..];
    forall j, p | 0 <= j < |s'.stages| && p in s'.stages[j].entries ensures LocatedAt(c, s'.ops, j, p) {
      if j == d && p in moved {
        assert LocatedAt(c, s.ops, src, p);
      } else {
        assert LocatedAt(c, s.ops, j, p);
      }
    }
  }

  lemma MoveHeld(s: State, s': State, src: nat, d: nat, k: nat)
    requires Held(s) && Moved(s, s', src, d, k)
    ensures Held(s')
  {
    var moved := s.stages[src].entries[..k];
    assert s.stages[src].entries == moved + s.stages[src].entries[k..];
    forall u | u in s'.workers ensures JobOk(s', s'.workers[u]) {
      assert JobOk(s, s.workers[u]);
    }
  }

  lemma MoveKeepsBase(c: Config, s: State, src: nat)
    requires Base(c, s) && Enabled(c, s, Move(src))
    ensures Base(c, Next(c, s, Move(src)))
  {
    var s' := Next(c, s, Move(src));
    var d := MoveTarget(c, s, src);
    var k := ReadyLen(s.stages[src].entries, s.ops, src);
    MoveFacts(c, s, src);
    MoveKeepsOrder(c, s, src);
    BaseListsApart(c, s);
    MoveCounters(s, s', src, d, k);
    MoveLocated(c, s, s', src, d, k);
    MoveHeld(s, s', src, d, k);
  }

  /* ---- the other events ---- */

  lemma OtherKeepsBase(c: Config, s: State, s': State)
    requires Base(c, s) && WellShaped(c, s') && Tokens(c, s')
    requires s'.stages == s.stages && s'.workers == s.workers && s'.pushed == s.pushed
    requires s'.ops.Keys == s.ops.Keys
    requires forall p :: p in s.ops ==>
      s'.ops[p].stage == s.ops[p].stage && s'.ops[p].processing == s.ops[p].processing
    ensures Base(c, s')
  {
    assert SameProgress(s, s');
    OtherCounters(s, s');
    OtherHeld(c, s, s');
  }

  /** Lists, workers, stages and processing flags are the same. */
  ghost predicate SameProgress(s: State, s': State) {
    && s'.stages == s.stages && s'.workers == s.workers && s'.ops.Keys == s.ops.Keys
    && forall p :: p in s.ops ==> s'.ops[p].stage == s.ops[p].stage && s'.ops[p].processing == s.ops[p].processing
  }

  lemma OtherCounters(s: State, s': State)
    requires Counters(s) && SameProgress(s, s')
    ensures Counters(s')
  {
    forall j | 0 <= j < |s'.stages| ensures CountersOf(s'.stages[j], s'.ops, j) {
      assert CountersOf(s.stages[j], s.ops, j);
      CountersFrame(s.stages[j], s'.stages[j], s.ops, s'.ops, j);
    }
  }

  lemma OtherHeld(c: Config, s: State, s': State)
    requires Held(s) && Located(c, s) && SameProgress(s, s')
    ensures Held(s') && Located(c, s')
  {
    forall j, p | 0 <= j < |s'.stages| && p in s'.stages[j].entries ensures LocatedAt(c, s'.ops, j, p) {
      assert LocatedAt(c, s.ops, j, p);
    }
    forall u | u in s'.workers ensures JobOk(s', s'.workers[u]) {
      assert JobOk(s, s.workers[u]);
    }
  }

  lemma EventKeepsBase(c: Config, s: State, e: Event)
    requires Base(c, s) && Enabled(c, s, e)
    ensures Base(c, Next(c, s, e))
  {
    match e
    case Push(_, _, _, _) => PushKeepsBase(c, s, e);
    case Pick(t, i, k, len) => PickKeepsBase(c, s, t, i, k, len);
    case Ack(t, next, remove) => AckKeepsBase(c, s, t, next, remove);
    case Move(src) => MoveKeepsBase(c, s, src);
    case _ => OtherEventKeepsBase(c, s, e);
  }

  /** Every event but Push, Pick, Ack and Move leaves lists, workers, stages and processing flags alone. */
  lemma OtherEventShape(c: Config, s: State, e: Event)
    requires WellShaped(c, s) && Enabled(c, s, e) && Tokens(c, s)
    requires e.TakeToken? || e.PostToken? || e.SetId? || e.Resolve? || e.Unblock?
    ensures var s' := Next(c, s, e);
      && s'.stages == s.stages && s'.workers == s.workers && s'.pushed == s.pushed && s'.starts == s.starts
      && s'.ops.Keys == s.ops.Keys && Tokens(c, s')
      && forall p :: p in s.ops ==>
           s'.ops[p].stage == s.ops[p].stage && s'.ops[p].processing == s.ops[p].processing
  {
    assert Next(c, s, e).ops.Keys == s.ops.Keys;
  }

  lemma OtherEventKeepsBase(c: Config, s: State, e: Event)
    requires Base(c, s) && Enabled(c, s, e)
    requires e.TakeToken? || e.PostToken? || e.SetId? || e.Resolve? || e.Unblock?
    ensures Base(c, Next(c, s, e))
  {
    OtherEventShape(c, s, e);
    OtherKeepsBase(c, s, Next(c, s, e));
  }

  lemma InitBase(c: Config, s: State)
    requires ValidConfig(c) && Init(c, s)
    ensures Base(c, s)
  {
    EmptyFlow(s.stages);
    forall j | 0 <= j < |s.stages|
      ensures CountersOf(s.stages[j], s.ops, j) && s.stages[j].threads == |JobsAt(s.workers, j)|
    {
      assert forall st :: Those([], s.ops, j, st) == {};
      assert JobsAt(s.workers, j) == {};
    }
  }

  lemma {:induction false} EmptyFlow(ss: seq<Stage>)
    requires forall i :: 0 <= i < |ss| ==> ss[i].entries == []
    ensures Flow(ss) == []
  {
    if ss != [] {
      EmptyFlow(ss[1..]);
    }
  }
}
