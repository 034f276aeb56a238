/**
 * The entry-processor pipeline as a state machine.
 *
 * An operation is named by its push number. One event is one critical section:
 * the stage mutexes it needs are all held while it happens. A worker thread holds
 * one batch at a time, from `Pick` to `Ack`.
 */
module PipelineState {
  import opened Common

  type Id = nat
  datatype NameKey = NameKey(parent: Id, name: string)

  /** Where an operation that must look its id up in the database stands. */
  datatype FidPhase = Known | MustResolve | MustUnblock

  datatype Op = Op(stage: nat, id: Option<Id>, name: Option<NameKey>,
                   processing: bool, referenced: bool, fid: FidPhase)

  datatype Stage = Stage(entries: seq<nat>, unprocessed: int, current: int, processed: int, threads: int)

  datatype StageDef = StageDef(sequential: bool, maxThreads: nat, batchable: bool)

  /** `constraint` is the one stage whose operations exclude each other by id and by parent/name. */
  datatype Config = Config(defs: seq<StageDef>, constraint: nat, maxBatch: nat, maxPending: nat)

  ghost predicate ValidConfig(c: Config) {
    && c.constraint < |c.defs|
    && !c.defs[c.constraint].sequential
    && !c.defs[c.constraint].batchable
    && forall i :: 0 <= i < |c.defs| ==> c.defs[i].sequential ==> !c.defs[i].batchable
  }

  /** The stage table of the standard pipeline, with changelog support. */
  const GET_FID := 0
  const GET_INFO_DB := 1
  const GET_INFO_FS := 2
  const PRE_APPLY := 3
  const DB_APPLY := 4
  const CHGLOG_CLR := 5
  const RM_OLD_ENTRIES := 6

  function StdConfig(maxBatch: nat, maxPending: nat): (c: Config)
    ensures ValidConfig(c) && |c.defs| == 7 && c.constraint == GET_INFO_DB && c.maxBatch == maxBatch && c.maxPending == maxPending
    ensures forall i :: 0 <= i < 7 ==>
      && (c.defs[i].sequential <==> i == CHGLOG_CLR || i == RM_OLD_ENTRIES) && (c.defs[i].batchable <==> i == DB_APPLY)
      && (c.defs[i].maxThreads > 0 ==> i == CHGLOG_CLR && c.defs[i].maxThreads == 1)
  {
    Config([StageDef(false, 0, false), StageDef(false, 0, false), StageDef(false, 0, false),
            StageDef(false, 0, false), StageDef(false, 0, true),
            StageDef(true, 1, false), StageDef(true, 0, false)],
           GET_INFO_DB, maxBatch, maxPending)
  }

  datatype Job = Job(at: nat, ops: seq<nat>)

  datatype State = State(
    stages: seq<Stage>,
    ops: map<nat, Op>,
    reg: seq<nat>,            // operations registered with the constraint manager, in its order
    forceSeq: bool,           // the constraint stage is blocked until an id is known
    workers: map<nat, Job>,
    pushed: nat,              // number of operations pushed so far
    free: int,                // value of the token semaphore
    pushing: nat,             // tokens taken by threads that have not inserted yet
    releasing: nat,           // tokens of removed operations, not posted yet
    starts: seq<seq<nat>>)    // for each stage, the operations started there so far

  datatype Event =
    | TakeToken
    | PostToken
    | Push(stage: nat, id: Option<Id>, name: Option<NameKey>, fid: FidPhase)
    | Pick(t: nat, i: nat, k: nat, len: nat)
    | SetId(t: nat, newId: Id)
    | Resolve(t: nat, found: Option<Id>)
    | Unblock(t: nat)
    | Ack(t: nat, next: nat, remove: bool)
    | Move(src: nat)

  /** All operations, from the last stage to the first. */
  function Flow(ss: seq<Stage>): (r: seq<nat>) {
    if ss == [] then [] else Flow(ss[1..]) + ss[0].entries
  }

  predicate Ready(ops: map<nat, Op>, src: nat, p: nat) {
    p in ops && !ops[p].processing && ops[p].stage > src
  }

  /** Length of the longest prefix of operations that are finished at `src`. */
  function ReadyLen(entries: seq<nat>, ops: map<nat, Op>, src: nat): (k: nat)
    ensures k <= |entries|
    ensures forall j :: 0 <= j < k ==> Ready(ops, src, entries[j])
    ensures k < |entries| ==> !Ready(ops, src, entries[k])
  {
    if entries == [] || !Ready(ops, src, entries[0]) then 0
    else
      var k' := ReadyLen(entries[1..], ops, src);
      assert forall j :: 0 < j < k' + 1 ==> entries[j] == entries[1..][j - 1];
      k' + 1
  }

  function MinStage(moved: seq<nat>, ops: map<nat, Op>): (m: nat)
    requires moved != []
    requires forall p :: p in moved ==> p in ops
    ensures forall p :: p in moved ==> m <= ops[p].stage
    ensures exists p :: p in moved && m == ops[p].stage
  {
    if |moved| == 1 then ops[moved[0]].stage
    else
      var m' := MinStage(moved[1..], ops);
      assert forall p :: p in moved ==> p == moved[0] || p in moved[1..];
      if ops[moved[0]].stage < m' then assert moved[0] in moved; ops[moved[0]].stage
      else m'
  }

  /** The first non-empty stage of `from..upto`, or `upto` when all are empty. */
  function InsertStage(ss: seq<Stage>, from: nat, upto: nat): (d: nat)
    requires from <= upto < |ss|
    ensures from <= d <= upto
    ensures forall j :: from <= j < d ==> ss[j].entries == []
    ensures d < upto ==> ss[d].entries != []
    decreases upto - from
  {
    if from == upto || ss[from].entries != [] then from else InsertStage(ss, from + 1, upto)
  }

  /** Is `p` the oldest registered operation on its id, and on its parent/name if it has one? */
  predicate IsFirst(ops: map<nat, Op>, reg: seq<nat>, p: nat) {
    && p in ops && p in reg
    && (forall q :: q in Before(reg, p) && q in ops ==> ops[q].id != ops[p].id)
    && (ops[p].name.Some? ==> forall q :: q in Before(reg, p) && q in ops ==> ops[q].name != ops[p].name)
  }

  /** The members of `s` that precede the first occurrence of `p`. */
  function Before(s: seq<nat>, p: nat): (r: seq<nat>)
    ensures |r| <= |s| && r == s[..|r|] && p !in r
    ensures p in s ==> |r| < |s| && s[|r|] == p
  {
    if s == [] || s[0] == p then [] else [s[0]] + Before(s[1..], p)
  }

  /** Sum of the three counters over the stages from `i` up. */
  function UpperTotal(ss: seq<Stage>, i: nat): (n: int)
    decreases |ss| - i
  {
    if i >= |ss| then 0
    else ss[i].current + ss[i].unprocessed + ss[i].processed + UpperTotal(ss, i + 1)
  }

  /** The operations of `moved` that get registered on entering the constraint stage, in order. */
  function ToRegister(moved: seq<nat>, ops: map<nat, Op>): (r: seq<nat>)
    ensures forall p :: p in r <==> p in moved && p in ops && !ops[p].referenced && ops[p].id.Some?
  {
    Only(moved, set p | p in ops && !ops[p].referenced && ops[p].id.Some?)
  }

  function MarkReferenced(ops: map<nat, Op>, who: seq<nat>): (r: map<nat, Op>) {
    map p | p in ops :: if p in who then ops[p].(referenced := true) else ops[p]
  }

  function MarkProcessing(ops: map<nat, Op>, who: seq<nat>): (r: map<nat, Op>) {
    map p | p in ops :: if p in who then ops[p].(processing := true) else ops[p]
  }

  function MarkDone(ops: map<nat, Op>, who: seq<nat>, next: nat): (r: map<nat, Op>) {
    map p | p in ops :: if p in who then ops[p].(processing := false, stage := next) else ops[p]
  }

  function Limited(c: Config): bool { c.maxPending > 0 }

  /** How many of `moved` still have to be processed at stage `d`. */
  function CountAt(moved: seq<nat>, ops: map<nat, Op>, d: nat): (n: nat)
    ensures n <= |moved|
  {
    if moved == [] then 0
    else (if moved[0] in ops && ops[moved[0]].stage == d then 1 else 0) + CountAt(moved[1..], ops, d)
  }

  ghost predicate Enabled(c: Config, s: State, e: Event) {
    match e
    case TakeToken => Limited(c) && s.free > 0
    case PostToken => Limited(c) && s.releasing > 0
    case Push(stage, id, name, fid) =>
      // callers push operations with an id at the constraint stage or below it
      && stage < |c.defs|
      && (Limited(c) ==> s.pushing > 0)
      && (id.Some? ==> stage <= c.constraint && fid.Known?)
      && (fid.MustResolve? ==> stage == c.constraint)
      && !fid.MustUnblock?
    case Pick(t, i, k, len) =>
      t !in s.workers && CanPick(c, s, i, k, len)
    case SetId(t, newId) =>
      && t in s.workers && s.workers[t].at < c.constraint && |s.workers[t].ops| == 1
      && s.workers[t].ops[0] in s.ops && s.ops[s.workers[t].ops[0]].id.None?
    case Resolve(t, found) =>
      && t in s.workers && s.workers[t].at == c.constraint && |s.workers[t].ops| == 1
      && s.workers[t].ops[0] in s.ops && s.ops[s.workers[t].ops[0]].fid.MustResolve?
    case Unblock(t) =>
      && t in s.workers && s.workers[t].at == c.constraint && |s.workers[t].ops| == 1
      && s.workers[t].ops[0] in s.ops && s.ops[s.workers[t].ops[0]].fid.MustUnblock?
    case Ack(t, next, remove) =>
      && t in s.workers
      && (!remove ==>
            && s.workers[t].at < next < |c.defs|
            && (s.workers[t].at < c.constraint ==> next <= c.constraint)
            && forall p :: p in s.workers[t].ops && p in s.ops ==>
                 && s.ops[p].fid.Known?
                 && (s.workers[t].at == c.constraint ==> s.ops[p].id.Some?))
    case Move(src) =>
      && src + 1 < |c.defs|
      && |s.stages| == |c.defs|
      && ReadyLen(s.stages[src].entries, s.ops, src) > 0
      && forall p :: p in s.ops ==> s.ops[p].stage < |c.defs|
  }

  /** May the `len` operations at position `k` of stage `i` be started now? */
  predicate CanPick(c: Config, s: State, i: nat, k: nat, len: nat) {
    && i < |c.defs| && |s.stages| == |c.defs|
    && 1 <= len && k + len <= |s.stages[i].entries|
    && var st := s.stages[i];
    && (forall j :: k <= j < k + len ==>
          st.entries[j] in s.ops && !s.ops[st.entries[j]].processing && s.ops[st.entries[j]].stage == i)
    && if c.defs[i].sequential then
         // one thread, and only the first operation still to be processed
         && st.threads == 0 && len == 1
         && forall j :: 0 <= j < k ==> st.entries[j] in s.ops ==> s.ops[st.entries[j]].stage != i
       else
         && (c.defs[i].maxThreads == 0 || st.threads < c.defs[i].maxThreads)
         && (len == 1 || (c.defs[i].batchable && len <= c.maxBatch))
         && (i == c.constraint ==> !s.forceSeq && MayStart(c, s, k))
  }

  /** The extra rule of the constraint stage for the operation at position `k` of its list. */
  predicate MayStart(c: Config, s: State, k: nat)
    requires c.constraint < |s.stages| && k < |s.stages[c.constraint].entries|
  {
    var st := s.stages[c.constraint];
    && (forall j :: 0 <= j < k ==> st.entries[j] in s.ops ==> s.ops[st.entries[j]].id.Some?)
    && st.entries[k] in s.ops
    && if s.ops[st.entries[k]].id.Some? then IsFirst(s.ops, s.reg, st.entries[k])
       else k == 0 && UpperTotal(s.stages, c.constraint) - st.unprocessed == 0
  }

  /** Cut the finished prefix of `src` and append it to the first non-empty stage on its way. */
  function DoMove(c: Config, s: State, src: nat): (r: State)
    requires src + 1 < |c.defs| == |s.stages|
    requires ReadyLen(s.stages[src].entries, s.ops, src) > 0
    requires forall p :: p in s.ops ==> s.ops[p].stage < |c.defs|
  {
    var st := s.stages[src];
    var k := ReadyLen(st.entries, s.ops, src);
    var moved := st.entries[..k];
    var d := MoveTarget(c, s, src);
    var regs := if d == c.constraint then ToRegister(moved, s.ops) else [];
    var here := CountAt(moved, s.ops, d);
    s.(stages := s.stages[src := st.(entries := st.entries[k..], processed := st.processed - k)]
                         [d := s.stages[d].(entries := s.stages[d].entries + moved,
                                            unprocessed := s.stages[d].unprocessed + here,
                                            processed := s.stages[d].processed + k - here)],
       ops := MarkReferenced(s.ops, regs),
       reg := s.reg + regs)
  }

  /** The stage the finished prefix of `src` goes to. */
  function MoveTarget(c: Config, s: State, src: nat): (d: nat)
    requires src + 1 < |c.defs| == |s.stages|
    requires ReadyLen(s.stages[src].entries, s.ops, src) > 0
    requires forall p :: p in s.ops ==> s.ops[p].stage < |c.defs|
    ensures src < d < |c.defs|
    ensures forall j :: src < j < d ==> s.stages[j].entries == []
  {
    var moved := s.stages[src].entries[..ReadyLen(s.stages[src].entries, s.ops, src)];
    assert forall p :: p in moved ==> Ready(s.ops, src, p);
    var m := MinStage(moved, s.ops);
    assert src < m < |c.defs|;
    InsertStage(s.stages, src + 1, m)
  }

  function DoPush(c: Config, s: State, e: Event): (r: State)
    requires e.Push? && e.stage < |c.defs| == |s.stages|
    requires Limited(c) ==> s.pushing > 0
  {
    var d := InsertStage(s.stages, 0, e.stage);
    var p := s.pushed;
    var registers := d == c.constraint && e.id.Some?;
    var done := if d < e.stage then 1 else 0;
    s.(stages := s.stages[d := s.stages[d].(entries := s.stages[d].entries + [p],
                                            unprocessed := s.stages[d].unprocessed + 1 - done,
                                            processed := s.stages[d].processed + done)],
       ops := s.ops[p := Op(e.stage, e.id, e.name, false, registers, e.fid)],
       reg := if registers then s.reg + [p] else s.reg,
       pushed := p + 1,
       pushing := if Limited(c) then s.pushing - 1 else s.pushing)
  }

  function DoPick(c: Config, s: State, t: nat, i: nat, k: nat, len: nat): (r: State)
    requires CanPick(c, s, i, k, len) && |s.starts| == |c.defs|
  {
    var st := s.stages[i];
    var batch := st.entries[k..k + len];
    assert st.entries[k] in s.ops;
    s.(stages := s.stages[i := st.(unprocessed := st.unprocessed - len,
                                   current := st.current + len, threads := st.threads + 1)],
       ops := MarkProcessing(s.ops, batch),
       forceSeq := s.forceSeq || (i == c.constraint && s.ops[st.entries[k]].id.None?),
       workers := s.workers[t := Job(i, batch)],
       starts := s.starts[i := s.starts[i] + batch])
  }

  function DoAck(c: Config, s: State, t: nat, next: nat, remove: bool): (r: State)
    requires t in s.workers && s.workers[t].at < |s.stages|
  {
    var job := s.workers[t];
    var st := s.stages[job.at];
    var n := |job.ops|;
    var gone := set p | p in job.ops;
    s.(stages := s.stages[job.at := st.(entries := if remove then Without(st.entries, gone) else st.entries,
                                        current := st.current - n,
                                        processed := st.processed + (if remove then 0 else n),
                                        threads := st.threads - 1)],
       ops := if remove then s.ops - gone else MarkDone(s.ops, job.ops, next),
       reg := if remove then Without(s.reg, gone) else s.reg,
       workers := s.workers - {t},
       releasing := s.releasing + (if remove && Limited(c) then n else 0))
  }

  function DoResolve(s: State, p: nat, found: Option<Id>): (r: State)
    requires p in s.ops
  {
    if found.Some? then
      s.(ops := s.ops[p := s.ops[p].(id := found, referenced := true, fid := MustUnblock)], reg := [p] + s.reg)
    else
      s.(ops := s.ops[p := s.ops[p].(fid := MustUnblock)])
  }

  ghost function Next(c: Config, s: State, e: Event): (r: State)
    requires WellShaped(c, s) && Enabled(c, s, e)
  {
    match e
    case TakeToken => s.(free := s.free - 1, pushing := s.pushing + 1)
    case PostToken => s.(free := s.free + 1, releasing := s.releasing - 1)
    case Push(_, _, _, _) => DoPush(c, s, e)
    case Pick(t, i, k, len) => DoPick(c, s, t, i, k, len)
    case SetId(t, newId) =>
      var p := s.workers[t].ops[0];
      s.(ops := s.ops[p := s.ops[p].(id := Some(newId))])
    case Resolve(t, found) => DoResolve(s, s.workers[t].ops[0], found)
    case Unblock(t) =>
      var p := s.workers[t].ops[0];
      s.(forceSeq := false, ops := s.ops[p := s.ops[p].(fid := Known)])
    case Ack(t, next, remove) => DoAck(c, s, t, next, remove)
    case Move(src) => DoMove(c, s, src)
  }

  /** What every event needs to be well defined. */
  ghost predicate WellShaped(c: Config, s: State) {
    && |s.stages| == |c.defs| && |s.starts| == |c.defs|
    && forall t :: t in s.workers ==> s.workers[t].at < |c.defs|
  }

  ghost predicate Init(c: Config, s: State) {
    && |s.stages| == |c.defs| && |s.starts| == |c.defs|
    && (forall i :: 0 <= i < |s.stages| ==> s.stages[i] == Stage([], 0, 0, 0, 0))
    && (forall i :: 0 <= i < |s.starts| ==> s.starts[i] == [])
    && s.ops == map[] && s.reg == [] && !s.forceSeq && s.workers == map[]
    && s.pushed == 0 && s.free == c.maxPending && s.pushing == 0 && s.releasing == 0
  }

  /** A run is the list of states it goes through and the events between them. */
  ghost predicate IsRun(c: Config, states: seq<State>, events: seq<Event>) {
    && |states| == |events| + 1
    && Init(c, states[0])
    && forall i :: 0 <= i < |events| ==>
         && WellShaped(c, states[i]) && Enabled(c, states[i], events[i])
         && states[i + 1] == Next(c, states[i], events[i])
  }
}
