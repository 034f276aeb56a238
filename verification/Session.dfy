/**
 * The database itself, written by many threads: between two crashes it is what replaying the records in
 * the order in which they were pushed gives and, once everything is applied, what replaying every
 * record that was read gives.
 */
module Session {
  import opened Common
  import opened Changelog
  import opened RecordReplay
  import opened ParallelReplay
  import P = PipelineState
  import I = PipelineInvariant
  import X = PipelineExclusion
  import T = PipelineTheorems
  import S = PipelineSerial
  import C = Compaction
  import D = CompactionTraces
  import E = EndToEnd
  import W = RowSerial

  /** `apply` is the stage that writes to the database; `env` is what the file system answers. */
  datatype World = World(e: E.World, apply: nat, env: Env)

  /** What an operation has read of the row of its entry. */
  datatype Seen = Seen(attrs: Option<Attrs>, links: Option<int>)

  /**
   * `snaps` is what the operations have read, and `applied` what was applied in this session, in that
   * order, to `base`, which the session found.
   */
  datatype Sys = Sys(e: E.Sys, snaps: map<nat, Seen>, applied: seq<nat>, db: Db, base: Db)

  datatype Event = Step(e: E.Event) | Look(t: nat, p: nat) | Apply(t: nat, p: nat)

  function RowSeen(db: Db, f: Fid): (r: Seen) {
    Seen(Get(db.entries, f), Get(db.links, f))
  }

  /** What is to be written, decided from what was read. */
  function EditFrom(env: Env, seen: Seen, x: Rec): (e: Edit) {
    EditOf(env, seen.attrs, seen.links, x)
  }

  function NameOf(x: Rec): (n: Option<P.NameKey>) {
    if x.name != "" then Some(P.NameKey(x.pfid, x.name)) else None
  }

  ghost function Recs(items: map<nat, Item>): (r: map<nat, Rec>) {
    map p | p in items :: items[p].rec
  }

  ghost predicate ValidWorld(w: World) {
    E.ValidWorld(w.e) && w.e.c.constraint < w.apply < |w.e.c.defs|
  }

  /** The standard pipeline reads rows in one stage and writes them in a later one. */
  function StdWorld(maxBatch: nat, maxPending: nat, log: map<nat, Rec>, env: Env): (w: World)
    ensures (forall k :: k in log ==> Readable(log[k]) && log[k].index == k) ==> ValidWorld(w)
  {
    World(E.StdWorld(maxBatch, maxPending, log), P.DB_APPLY, env)
  }

  /** The row is read at the constraint stage. */
  ghost predicate MayLook(w: World, s: Sys, t: nat, p: nat) {
    && t in s.e.pipe.workers && p in s.e.pipe.workers[t].ops && p in s.e.items && p !in s.applied
    && s.e.pipe.workers[t].at == w.e.c.constraint
  }

  /** A thread at the writing stage applies what it holds; an earlier one may find that there is nothing to do. */
  ghost predicate MayApply(w: World, s: Sys, t: nat, p: nat) {
    && t in s.e.pipe.workers && p in s.e.pipe.workers[t].ops && p in s.e.items && p in s.snaps && p !in s.applied
    && var at, seen := s.e.pipe.workers[t].at, s.snaps[p];
       || at == w.apply
       || (at >= w.e.c.constraint && EditFrom(w.env, seen, s.e.items[p].rec) == Edit(seen.attrs, seen.links, Leave))
  }

  ghost predicate Enabled(w: World, s: Sys, e: Event) {
    match e
    case Step(e) => E.Enabled(w.e, s.e, e) && (e.PushHead? ==> e.name == NameOf(s.e.queue[0].rec))
    case Look(t, p) => MayLook(w, s, t, p)
    case Apply(t, p) => MayApply(w, s, t, p)
  }

  /** The edit was decided from what the operation read earlier, and is made in the database of now. */
  ghost function AfterApply(env: Env, s: Sys, p: nat): (r: Sys)
    requires p in s.e.items && p in s.snaps
  {
    var x := s.e.items[p].rec;
    s.(applied := s.applied + [p], db := Perform(s.db, x.tfid, EditFrom(env, s.snaps[p], x)))
  }

  ghost function Next(w: World, s: Sys, e: Event): (r: Sys)
    requires ValidWorld(w) && Enabled(w, s, e) && P.WellShaped(w.e.c, s.e.pipe)
  {
    match e
    case Step(e) =>
      var n := E.Next(w.e, s.e, e);
      if e.Crash? then Sys(n, map[], [], s.db, s.db) else s.(e := n)
    case Look(t, p) => s.(snaps := s.snaps[p := RowSeen(s.db, s.e.items[p].rec.tfid)])
    case Apply(t, p) => AfterApply(w.env, s, p)
  }

  ghost predicate Init(w: World, s: Sys) {
    E.Init(w.e, s.e) && s.snaps == map[] && s.applied == [] && s.db == s.base && D.Rooted(s.db)
  }

  ghost predicate Leads(w: World, s: Sys, e: Event, s': Sys) {
    ValidWorld(w) && P.WellShaped(w.e.c, s.e.pipe) && Enabled(w, s, e) && s' == Next(w, s, e)
  }

  ghost predicate IsRun(w: World, states: seq<Sys>, events: seq<Event>) {
    && ValidWorld(w) && |states| == |events| + 1 && Init(w, states[0])
    && forall i {:trigger events[i]} :: 0 <= i < |events| ==> Leads(w, states[i], events[i], states[i + 1])
  }

  /* ---- what holds in every state ---- */

  /** Different entries and, as far as they were known when registered, different names. */
  ghost predicate Elsewhere(x: Rec, y: Rec) {
    x.tfid != y.tfid && (NameOf(y).Some? ==> NameOf(x) != NameOf(y))
  }

  ghost predicate CarriedAs(o: P.Op, x: Rec) {
    o.id == Some(x.tfid) && o.name == NameOf(x)
  }

  /** An operation has the id and the name of its record. */
  ghost predicate Carried(items: map<nat, Item>, ops: map<nat, P.Op>) {
    forall p :: p in items && p in ops ==> CarriedAs(ops[p], items[p].rec)
  }

  /** What was pushed before something that is applied, and is still there, is about something else. */
  ghost predicate Waited(items: map<nat, Item>, ops: map<nat, P.Op>, applied: seq<nat>) {
    forall p, i :: p in items && p in ops && 0 <= i < |applied| && applied[i] in items && p < applied[i] ==>
      Elsewhere(items[p].rec, items[applied[i]].rec)
  }

  /** Records that were applied against push order are about different things. */
  ghost predicate InTurn(items: map<nat, Item>, applied: seq<nat>) {
    forall i, j :: 0 <= i < j < |applied| && applied[i] in items && applied[j] in items && applied[j] < applied[i] ==>
      Elsewhere(items[applied[j]].rec, items[applied[i]].rec)
  }

  ghost predicate Known(items: map<nat, Item>, applied: seq<nat>) {
    Distinct(applied) && forall i :: 0 <= i < |applied| ==> applied[i] in items
  }

  /** What an operation has read and not used yet is still so. */
  ghost predicate Current(w: World, s: Sys) {
    forall p :: p in s.snaps && p in s.e.items && p in s.e.pipe.ops && p !in s.applied ==> CurrentAt(w, s, p)
  }

  ghost predicate CurrentAt(w: World, s: Sys, p: nat) {
    && p in s.snaps && p in s.e.items && p in s.e.pipe.ops
    && X.Active(w.e.c, s.e.pipe.ops[p]) && s.snaps[p] == RowSeen(s.db, s.e.items[p].rec.tfid)
  }

  ghost predicate Written(env: Env, s: Sys) {
    && Known(s.e.items, s.applied) && D.Rooted(s.base) && D.Rooted(s.db)
    && s.db == InThisOrder(env, s.base, Recs(s.e.items), s.applied)
  }

  ghost predicate Ordered(s: Sys) {
    && Carried(s.e.items, s.e.pipe.ops) && Waited(s.e.items, s.e.pipe.ops, s.applied) && InTurn(s.e.items, s.applied)
  }

  ghost predicate Inv(w: World, s: Sys) {
    && ValidWorld(w) && E.Inv(w.e, s.e) && S.Serial(w.e.c, s.e.pipe) && Ordered(s) && Written(w.env, s)
    && Current(w, s) && forall p :: p in s.snaps ==> p in s.e.items
  }

  /* ---- applying ---- */

  lemma HeldIsActive(w: World, s: Sys, t: nat, p: nat)
    requires Inv(w, s) && t in s.e.pipe.workers && p in s.e.pipe.workers[t].ops && p in s.e.items
    requires s.e.pipe.workers[t].at >= w.e.c.constraint
    ensures p in s.e.pipe.ops && X.Active(w.e.c, s.e.pipe.ops[p])
  {
    X.JobStage(w.e.c, s.e.pipe, t);
    assert CarriedAs(s.e.pipe.ops[p], s.e.items[p].rec);
  }

  lemma AppliedWaited(w: World, s: Sys, q: nat, p: nat)
    requires Inv(w, s) && q in s.e.items && q in s.e.pipe.ops && X.Active(w.e.c, s.e.pipe.ops[q])
    requires p in s.e.items && p in s.e.pipe.ops && p < q
    ensures Elsewhere(s.e.items[p].rec, s.e.items[q].rec)
  {
    assert CarriedAs(s.e.pipe.ops[p], s.e.items[p].rec) && CarriedAs(s.e.pipe.ops[q], s.e.items[q].rec);
    S.EarlierIsElsewhere(w.e.c, s.e.pipe, p, q);
  }

  lemma ApplyKeepsOrdered(w: World, s: Sys, t: nat, q: nat)
    requires Inv(w, s) && MayApply(w, s, t, q)
    ensures Ordered(AfterApply(w.env, s, q))
  {
    HeldIsActive(w, s, t, q);
    forall p | p in s.e.items && p in s.e.pipe.ops && p < q ensures Elsewhere(s.e.items[p].rec, s.e.items[q].rec) {
      AppliedWaited(w, s, q, p);
    }
    ApplyFrame(s.e.items, s.e.pipe.ops, s.applied, q);
  }

  lemma ApplyFrame(items: map<nat, Item>, ops: map<nat, P.Op>, applied: seq<nat>, q: nat)
    requires Waited(items, ops, applied) && InTurn(items, applied) && q in items && q in ops
    requires forall p :: p in items && p in ops && p < q ==> Elsewhere(items[p].rec, items[q].rec)
    ensures Waited(items, ops, applied + [q]) && InTurn(items, applied + [q])
  {
    var after := applied + [q];
    assert after[|applied|] == q && forall i :: 0 <= i < |applied| ==> after[i] == applied[i];
  }

  /** Deciding from what was read and writing later is the effect of the record on the database of now. */
  lemma AppliesAtOnce(w: World, s: Sys, t: nat, p: nat)
    requires Inv(w, s) && MayApply(w, s, t, p)
    ensures AfterApply(w.env, s, p).db == Effect(w.env, s.db, s.e.items[p].rec)
  {
    HeldIsActive(w, s, t, p);
    assert CurrentAt(w, s, p);
    EffectEdits(w.env, s.db, s.e.items[p].rec);
  }

  lemma ApplyKeepsWritten(env: Env, s: Sys, q: nat)
    requires Written(env, s) && q in s.e.items && q in s.snaps && q !in s.applied
    requires AfterApply(env, s, q).db == Effect(env, s.db, s.e.items[q].rec)
    ensures Written(env, AfterApply(env, s, q))
  {
    D.EffectRooted(env, s.db, s.e.items[q].rec);
    assert (s.applied + [q])[..|s.applied|] == s.applied;
  }

  lemma EditLeavesRow(db: Db, g: Fid, e: Edit, f: Fid)
    requires f != g
    ensures RowSeen(Perform(db, g, e), f) == RowSeen(db, f)
  {
  }

  lemma ApplyKeepsCurrent(w: World, s: Sys, t: nat, q: nat)
    requires Inv(w, s) && MayApply(w, s, t, q)
    ensures Current(w, AfterApply(w.env, s, q))
  {
    var s' := AfterApply(w.env, s, q);
    HeldIsActive(w, s, t, q);
    assert q in s'.applied && forall p :: p in s.applied ==> p in s'.applied;
    forall p | p in s'.snaps && p in s'.e.items && p in s'.e.pipe.ops && p !in s'.applied ensures CurrentAt(w, s', p) {
      assert CurrentAt(w, s, p);
      OnOtherEntries(w, s, p, q);
      ApplyLeaves(w, s, p, q);
    }
  }

  lemma ApplyLeaves(w: World, s: Sys, p: nat, q: nat)
    requires CurrentAt(w, s, p) && q in s.e.items && q in s.snaps && s.e.items[p].rec.tfid != s.e.items[q].rec.tfid
    ensures CurrentAt(w, AfterApply(w.env, s, q), p)
  {
    EditLeavesRow(s.db, s.e.items[q].rec.tfid, EditFrom(w.env, s.snaps[q], s.e.items[q].rec), s.e.items[p].rec.tfid);
  }

  lemma OnOtherEntries(w: World, s: Sys, p: nat, q: nat)
    requires Inv(w, s) && p in s.e.items && q in s.e.items && p in s.e.pipe.ops && q in s.e.pipe.ops && p != q
    requires X.Active(w.e.c, s.e.pipe.ops[p]) && X.Active(w.e.c, s.e.pipe.ops[q])
    ensures s.e.items[p].rec.tfid != s.e.items[q].rec.tfid
  {
    assert CarriedAs(s.e.pipe.ops[p], s.e.items[p].rec) && CarriedAs(s.e.pipe.ops[q], s.e.items[q].rec);
    T.ActiveApart(w.e.c, s.e.pipe, p, q);
  }

  lemma LookKeepsCurrent(w: World, s: Sys, t: nat, q: nat)
    requires Inv(w, s) && MayLook(w, s, t, q)
    ensures Current(w, s.(snaps := s.snaps[q := RowSeen(s.db, s.e.items[q].rec.tfid)]))
  {
    HeldIsActive(w, s, t, q);
    var s' := s.(snaps := s.snaps[q := RowSeen(s.db, s.e.items[q].rec.tfid)]);
    forall p | p in s'.snaps && p in s'.e.items && p in s'.e.pipe.ops && p !in s'.applied ensures CurrentAt(w, s', p) {
      assert p != q ==> CurrentAt(w, s, p);
    }
  }

  /* ---- the other events ---- */

  /** Ids that are there, and names, stay. */
  lemma CarriedKept(c: P.Config, s: P.State, e: P.Event, p: nat)
    requires T.Inv(c, s) && P.Enabled(c, s, e) && p in s.ops && s.ops[p].id.Some? && p in P.Next(c, s, e).ops
    ensures P.Next(c, s, e).ops[p].id == s.ops[p].id && P.Next(c, s, e).ops[p].name == s.ops[p].name
  {
    match e
    case Move(src) => I.MoveFacts(c, s, src);
    case Push(_, _, _, _) => I.NotPushedYet(c, s);
    case Resolve(t, found) => FoundOnlyOnce(c, s, t, found, p);
    case _ => OthersCarry(c, s, e, p);
  }

  lemma FoundOnlyOnce(c: P.Config, s: P.State, t: nat, found: Option<P.Id>, p: nat)
    requires X.Blocking(c, s) && P.WellShaped(c, s) && P.Enabled(c, s, P.Resolve(t, found)) && p in s.ops && s.ops[p].id.Some?
    ensures p in P.Next(c, s, P.Resolve(t, found)).ops && P.Next(c, s, P.Resolve(t, found)).ops[p] == s.ops[p]
  {
    assert X.FidOk(c, s.ops[s.workers[t].ops[0]]);
  }

  lemma OthersCarry(c: P.Config, s: P.State, e: P.Event, p: nat)
    requires P.WellShaped(c, s) && P.Enabled(c, s, e) && p in s.ops && s.ops[p].id.Some? && p in P.Next(c, s, e).ops
    requires !e.Move? && !e.Push? && !e.Resolve?
    ensures P.Next(c, s, e).ops[p].id == s.ops[p].id && P.Next(c, s, e).ops[p].name == s.ops[p].name
  {
  }

  lemma PipeKeepsOrdered(w: World, s: Sys, s': Sys, e: P.Event)
    requires Inv(w, s) && P.Enabled(w.e.c, s.e.pipe, e) && s'.e.pipe == P.Next(w.e.c, s.e.pipe, e)
    requires s'.e.items == s.e.items && s'.applied == s.applied
    ensures Ordered(s')
  {
    E.PipeForward(w.e, s.e.pipe, e);
    forall p | p in s'.e.items && p in s'.e.pipe.ops ensures CarriedAs(s'.e.pipe.ops[p], s'.e.items[p].rec) {
      assert p in s.e.pipe.ops && CarriedAs(s.e.pipe.ops[p], s.e.items[p].rec);
      CarriedKept(w.e.c, s.e.pipe, e, p);
    }
  }

  lemma PushKeepsOrdered(w: World, s: Sys, s': Sys, name: Option<P.NameKey>)
    requires Inv(w, s) && Enabled(w, s, Step(E.PushHead(name)))
    requires s'.e.pipe == P.Next(w.e.c, s.e.pipe, E.PushOf(w.e, s.e, name))
    requires s'.e.items == s.e.items[s.e.pipe.pushed := s.e.queue[0]] && s'.applied == s.applied
    ensures Ordered(s')
  {
    var e := E.PushOf(w.e, s.e, name);
    E.PipeForward(w.e, s.e.pipe, e);
    forall p | p in s'.e.items && p in s'.e.pipe.ops ensures CarriedAs(s'.e.pipe.ops[p], s'.e.items[p].rec) {
      if p != s.e.pipe.pushed {
        assert p in s.e.pipe.ops && CarriedAs(s.e.pipe.ops[p], s.e.items[p].rec);
        CarriedKept(w.e.c, s.e.pipe, e, p);
      }
    }
    PushFrame(s.e.items, s.e.pipe.ops, s'.e.items, s'.e.pipe.ops, s.applied, s.e.pipe.pushed);
  }

  lemma PushFrame(items: map<nat, Item>, ops: map<nat, P.Op>, items': map<nat, Item>, ops': map<nat, P.Op>, applied: seq<nat>, k: nat)
    requires Waited(items, ops, applied) && InTurn(items, applied) && Known(items, applied)
    requires (forall p :: p in items ==> p < k) && k in items' && items' == items[k := items'[k]]
    requires forall p :: p in ops' && p < k ==> p in ops
    ensures Waited(items', ops', applied) && InTurn(items', applied)
  {
  }

  /** More operations were pushed; what was applied is the same. */
  lemma {:induction false} SameRecords(env: Env, db: Db, recs: map<nat, Rec>, recs': map<nat, Rec>, order: seq<nat>)
    requires forall p :: p in order ==> p in recs && p in recs' && recs[p] == recs'[p]
    ensures InThisOrder(env, db, recs, order) == InThisOrder(env, db, recs', order)
  {
    if order != [] {
      SameRecords(env, db, recs, recs', order[..|order| - 1]);
    }
  }

  lemma PushKeepsWritten(env: Env, s: Sys, s': Sys, k: nat)
    requires Written(env, s) && k !in s.e.items && k in s'.e.items && s'.e.items == s.e.items[k := s'.e.items[k]]
    requires s'.applied == s.applied && s'.db == s.db && s'.base == s.base
    ensures Written(env, s')
  {
    SameRecords(env, s.base, Recs(s.e.items), Recs(s'.e.items), s.applied);
  }

  /** Whatever the pipeline does, an operation that has read its row keeps the entry to itself. */
  lemma PipeKeepsCurrent(w: World, s: Sys, s': Sys, e: P.Event)
    requires Inv(w, s) && P.Enabled(w.e.c, s.e.pipe, e) && s'.e.pipe == P.Next(w.e.c, s.e.pipe, e)
    requires s'.snaps == s.snaps && s'.applied == s.applied && s'.db == s.db
    requires forall p :: p in s.e.items ==> p in s'.e.items && s'.e.items[p] == s.e.items[p]
    ensures Current(w, s')
  {
    E.PipeForward(w.e, s.e.pipe, e);
    forall p | p in s'.snaps && p in s'.e.items && p in s'.e.pipe.ops && p !in s'.applied ensures CurrentAt(w, s', p) {
      assert p in s.e.items && p < s.e.pipe.pushed;
      assert CurrentAt(w, s, p);
      W.ActiveKept(w.e.c, s.e.pipe, e, p);
    }
  }

  lemma CurrentFrame(w: World, s: Sys, s': Sys)
    requires Current(w, s) && s'.e.pipe == s.e.pipe && s'.e.items == s.e.items
    requires s'.snaps == s.snaps && s'.applied == s.applied && s'.db == s.db
    ensures Current(w, s')
  {
    forall p | p in s'.snaps && p in s'.e.items && p in s'.e.pipe.ops && p !in s'.applied ensures CurrentAt(w, s', p) {
      assert CurrentAt(w, s, p);
    }
  }

  /** Reading, reopening and acknowledging touch neither the pipeline nor what it carries. */
  lemma ReaderKeepsCurrent(w: World, s: Sys, e: E.Event)
    requires Inv(w, s) && Enabled(w, s, Step(e)) && !e.PushHead? && !e.Pipe? && !e.Crash?
    ensures Current(w, Next(w, s, Step(e)))
  {
    CurrentFrame(w, s, Next(w, s, Step(e)));
  }

  lemma PushKeepsCurrent(w: World, s: Sys, name: Option<P.NameKey>)
    requires Inv(w, s) && Enabled(w, s, Step(E.PushHead(name)))
    ensures Current(w, Next(w, s, Step(E.PushHead(name))))
  {
    PipeKeepsCurrent(w, s, Next(w, s, Step(E.PushHead(name))), E.PushOf(w.e, s.e, name));
  }

  lemma StepKeepsCurrent(w: World, s: Sys, e: E.Event)
    requires Inv(w, s) && Enabled(w, s, Step(e))
    ensures Current(w, Next(w, s, Step(e)))
  {
    match e
    case PushHead(name) => PushKeepsCurrent(w, s, name);
    case Pipe(p) => PipeKeepsCurrent(w, s, Next(w, s, Step(e)), p);
    case Crash(pipe) =>
    case _ => ReaderKeepsCurrent(w, s, e);
  }

  lemma StepKeepsSerial(w: World, s: Sys, e: E.Event)
    requires Inv(w, s) && E.Enabled(w.e, s.e, e)
    ensures S.Serial(w.e.c, E.Next(w.e, s.e, e).pipe)
  {
    match e
    case PushHead(name) => S.EventKeepsSerial(w.e.c, s.e.pipe, E.PushOf(w.e, s.e, name));
    case Pipe(e) => S.EventKeepsSerial(w.e.c, s.e.pipe, e);
    case _ =>
  }

  lemma StepKeepsRest(w: World, s: Sys, e: E.Event)
    requires Inv(w, s) && Enabled(w, s, Step(e))
    ensures Ordered(Next(w, s, Step(e))) && Written(w.env, Next(w, s, Step(e)))
  {
    var s' := Next(w, s, Step(e));
    match e
    case PushHead(name) =>
      PushKeepsOrdered(w, s, s', name);
      PushKeepsWritten(w.env, s, s', s.e.pipe.pushed);
    case Pipe(e) =>
      PipeKeepsOrdered(w, s, s', e);
    case _ =>
  }

  lemma EventKeepsInv(w: World, s: Sys, e: Event, s': Sys)
    requires Inv(w, s) && Leads(w, s, e, s')
    ensures Inv(w, s')
  {
    match e
    case Step(e) =>
      E.EventKeepsInv(w.e, s.e, e);
      StepKeepsSerial(w, s, e);
      StepKeepsRest(w, s, e);
      StepKeepsCurrent(w, s, e);
    case Look(t, p) =>
      LookKeepsCurrent(w, s, t, p);
    case Apply(t, p) =>
      AppliesAtOnce(w, s, t, p);
      ApplyKeepsOrdered(w, s, t, p);
      ApplyKeepsWritten(w.env, s, p);
      ApplyKeepsCurrent(w, s, t, p);
  }

  lemma InitInv(w: World, s: Sys)
    requires ValidWorld(w) && Init(w, s)
    ensures Inv(w, s)
  {
    E.InitInv(w.e, s.e);
  }

  lemma RunStep(w: World, states: seq<Sys>, events: seq<Event>, n: nat)
    requires IsRun(w, states, events) && 0 < n < |states| && Inv(w, states[n - 1])
    ensures Inv(w, states[n])
  {
    assert Leads(w, states[n - 1], events[n - 1], states[n]);
    EventKeepsInv(w, states[n - 1], events[n - 1], states[n]);
  }

  lemma {:induction false} RunInv(w: World, states: seq<Sys>, events: seq<Event>, n: nat)
    requires IsRun(w, states, events) && n < |states|
    ensures Inv(w, states[n])
  {
    if n == 0 {
      InitInv(w, states[0]);
    } else {
      RunInv(w, states, events, n - 1);
      RunStep(w, states, events, n);
    }
  }

  /* ---- the results ---- */

  /**
   * In every run, what is applied against push order is about another entry and another name: records
   * on one entry reach the database in push order.
   */
  lemma AppliedInPushOrder(w: World, states: seq<Sys>, events: seq<Event>, n: nat, i: nat, j: nat)
    requires IsRun(w, states, events) && n < |states| && i < j < |states[n].applied|
    ensures var s := states[n]; var p, q := s.applied[i], s.applied[j];
      && p in s.e.items && q in s.e.items
      && (s.e.items[p].rec.tfid == s.e.items[q].rec.tfid ==> p < q)
      && (s.e.items[p].rec.name != "" && NameOf(s.e.items[p].rec) == NameOf(s.e.items[q].rec) ==> p < q)
  {
    RunInv(w, states, events, n);
    TurnMeans(states[n].e.items, states[n].applied, i, j);
  }

  lemma TurnMeans(items: map<nat, Item>, applied: seq<nat>, i: nat, j: nat)
    requires Known(items, applied) && InTurn(items, applied) && i < j < |applied|
    ensures var p, q := applied[i], applied[j];
      && p in items && q in items
      && (items[p].rec.tfid == items[q].rec.tfid ==> p < q)
      && (items[p].rec.name != "" && NameOf(items[p].rec) == NameOf(items[q].rec) ==> p < q)
  {
  }

  /** No record gives an entry a name that has to be looked up for another entry. */
  ghost predicate NamesClear(env: Env, items: map<nat, Item>) {
    forall p, q :: p in items && q in items && items[p].rec.tfid != items[q].rec.tfid && items[p].rec.name == "" ==>
      Gives(env, items[p].rec) !! Gives(env, items[q].rec)
  }

  lemma ElsewhereIsApart(env: Env, items: map<nat, Item>, p: nat, q: nat)
    requires p in items && q in items && NamesClear(env, items) && Elsewhere(items[p].rec, items[q].rec)
    ensures Apart(env, items[p].rec, items[q].rec)
  {
    var x, y := items[p].rec, items[q].rec;
    if x.name != "" && y.name != "" {
      assert Key(x.pfid, x.name) != Key(y.pfid, y.name);
    }
  }

  /** The database that the threads have written is the one that applying the same records in push order gives. */
  lemma ParallelIsSerial(w: World, states: seq<Sys>, events: seq<Event>, n: nat)
    requires IsRun(w, states, events) && n < |states| && NamesClear(w.env, states[n].e.items)
    ensures var s := states[n];
      s.db == InPushOrder(w.env, s.base, Restricted(Recs(s.e.items), s.applied), s.e.pipe.pushed)
  {
    RunInv(w, states, events, n);
    AnyOrder(w, states[n]);
  }

  lemma AnyOrder(w: World, s: Sys)
    requires Inv(w, s) && NamesClear(w.env, s.e.items)
    ensures s.db == InPushOrder(w.env, s.base, Restricted(Recs(s.e.items), s.applied), s.e.pipe.pushed)
  {
    var items, recs, applied := s.e.items, Recs(s.e.items), s.applied;
    forall i, j | 0 <= i < j < |applied| && applied[j] < applied[i] && applied[i] in recs && applied[j] in recs
      ensures Apart(w.env, recs[applied[j]], recs[applied[i]])
    {
      ElsewhereIsApart(w.env, items, applied[j], applied[i]);
    }
    OrderDoesNotMatter(w.env, s.base, recs, applied, s.e.pipe.pushed);
  }

  /**
   * The whole way from the changelog to the database. When the queue is empty and everything pushed is
   * applied, the threads have written, however they were scheduled and whatever was merged or cancelled,
   * what replaying every record of the session, one after the other, would have written.
   */
  lemma SessionIsReplay(w: World, states: seq<Sys>, events: seq<Event>, n: nat)
    requires IsRun(w, states, events) && n < |states| && NamesClear(w.env, states[n].e.items)
    requires states[n].e.queue == [] && forall p :: p in states[n].e.items ==> p in states[n].applied
    requires C.ValidSteps(states[n].e.steps)
    requires var full := C.After(states[n].e.steps).full;
      && ValidTrace(w.env, full)
      && (D.AllRowsAllow(w.env, states[n].base, states[n].e.steps) || D.Plain(w.env, states[n].base, full))
    ensures states[n].db == Replay(w.env, states[n].base, C.After(states[n].e.steps).full)
  {
    RunInv(w, states, events, n);
    DrainedIsReplay(w, states[n]);
    E.SessionMeaningOf(w.e, states[n].e, w.env, states[n].base);
    assert C.After(states[n].e.steps).past + [] == C.After(states[n].e.steps).past;
  }

  lemma DrainedIsReplay(w: World, s: Sys)
    requires Inv(w, s) && NamesClear(w.env, s.e.items) && forall p :: p in s.e.items ==> p in s.applied
    ensures C.ValidSteps(s.e.steps) && s.db == Replay(w.env, s.base, C.After(s.e.steps).past)
  {
    AnyOrder(w, s);
    RestrictedToAll(Recs(s.e.items), s.applied);
    PushedReplay(w, s);
  }

  lemma RestrictedToAll(recs: map<nat, Rec>, order: seq<nat>)
    requires forall p :: p in recs ==> p in order
    ensures Restricted(recs, order) == recs
  {
  }

  lemma PushedReplay(w: World, s: Sys)
    requires Inv(w, s)
    ensures C.ValidSteps(s.e.steps)
    ensures InPushOrder(w.env, s.base, Recs(s.e.items), s.e.pipe.pushed) == Replay(w.env, s.base, C.After(s.e.steps).past)
  {
    var past := C.After(s.e.steps).past;
    assert Numbered(Recs(s.e.items), s.e.order, past);
    assert Below(s.e.order, s.e.pipe.pushed);
    PushOrderIsReplay(w.env, s.base, Recs(s.e.items), s.e.order, past, s.e.pipe.pushed);
  }
}
