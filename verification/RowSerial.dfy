/**
 * Reading a row at one stage and writing it at a later one, by many threads, behaves as if every
 * operation read and wrote its row at once.
 */
module RowSerial {
  import opened Common
  import opened RowUpdate
  import P = PipelineState
  import I = PipelineInvariant
  import X = PipelineExclusion
  import T = PipelineTheorems

  datatype Action =
    | Upsert(origin: Origin, stripeOk: bool, classAlways: bool, readonly: set<Attr>, fs: Row, need: set<Attr>)
    | Unlink(last: bool)      // the record says whether the last name goes away
    | Rmdir
    | Rename                  // the old name goes away
    | NoChange

  /** `apply` is the stage that writes to the database. */
  datatype World = World(c: P.Config, apply: nat)

  /** `snaps` holds what each operation read of its row, `written` the operations that have written theirs. */
  datatype Sys = Sys(pipe: P.State, db: map<P.Id, Row>, snaps: map<nat, Option<Row>>, written: set<nat>)

  datatype Event =
    | Pipe(e: P.Event)
    | Read(t: nat)
    | Write(t: nat, p: nat, action: Action, out: Row)

  function Restrict(row: Row, need: set<Attr>): (r: Row) {
    map a | a in row && a in need :: row[a]
  }

  /** What the row becomes when the operation is computed from, and applied to, the same row. */
  function AtOnce(action: Action, row: Option<Row>): (r: Option<Row>) {
    match action
    case Upsert(origin, stripeOk, classAlways, readonly, fs, need) =>
      if row.None? then Some(Links(origin, fs, map[]) - readonly)
      else Some(Overlay(row.value, FullUpdate(origin, stripeOk, classAlways, readonly, fs, Restrict(row.value, need))))
    case Unlink(last) => Unlinked(last, row, row)
    case Rmdir => if row.Some? then None else row
    case Rename => Decremented(row)
    case NoChange => row
  }

  /**
   * An unlink of an unknown entry is ignored. Otherwise the row goes away if the record says so or, failing
   * that, if the row that was seen counts one link only; else one link is taken off.
   */
  function Unlinked(last: bool, seen: Option<Row>, row: Option<Row>): (r: Option<Row>) {
    if seen.None? then row
    else if last || (Nlink in seen.value && seen.value[Nlink] <= 1) then None
    else Decremented(row)
  }

  function Decremented(row: Option<Row>): (r: Option<Row>) {
    if row.Some? && Nlink in row.value && row.value[Nlink] > 0 then Some(row.value[Nlink := row.value[Nlink] - 1]) else row
  }

  /** What the program writes: `out` was computed from the snapshot, and is applied to the row of now. */
  function Written(action: Action, snap: Option<Row>, out: Row, row: Option<Row>): (r: Option<Row>) {
    match action
    case Upsert(_, _, _, _, _, _) =>
      if snap.None? then (if row.None? then Some(out) else row)         // an insertion fails on an existing row
      else (if row.None? then None else Some(Overlay(row.value, out)))  // an update of no row
    case Unlink(last) => Unlinked(last, snap, row)       // chosen from the snapshot
    case Rmdir => if snap.Some? then None else row
    case Rename => Decremented(row)
    case NoChange => row
  }

  /** `out` is what the stage before leaves to be written, given the snapshot. */
  ghost predicate Prepared(action: Action, snap: Option<Row>, out: Row) {
    action.Upsert? ==>
      if snap.None? then out == Links(action.origin, action.fs, map[]) - action.readonly
      else Trims(out, action.origin, action.stripeOk, action.classAlways, action.readonly, action.fs,
                 Restrict(snap.value, action.need))
  }

  ghost predicate ValidWorld(w: World) {
    P.ValidConfig(w.c) && w.c.constraint < w.apply < |w.c.defs|
  }

  /** The standard pipeline writes in a stage after the one that reads. */
  function StdWorld(maxBatch: nat, maxPending: nat): (w: World)
    ensures ValidWorld(w)
  {
    World(P.StdConfig(maxBatch, maxPending), P.DB_APPLY)
  }

  ghost predicate Enabled(w: World, s: Sys, e: Event) {
    match e
    case Pipe(e) => P.Enabled(w.c, s.pipe, e)
    case Read(t) =>
      && t in s.pipe.workers && s.pipe.workers[t].at == w.c.constraint && |s.pipe.workers[t].ops| == 1
      && s.pipe.workers[t].ops[0] in s.pipe.ops && s.pipe.ops[s.pipe.workers[t].ops[0]].id.Some?
      && s.pipe.workers[t].ops[0] !in s.written
    case Write(t, p, action, out) =>
      && t in s.pipe.workers && s.pipe.workers[t].at == w.apply && p in s.pipe.workers[t].ops
      && p in s.pipe.ops && s.pipe.ops[p].id.Some?
      && p in s.snaps && p !in s.written && Prepared(action, s.snaps[p], out)
  }

  ghost function Next(w: World, s: Sys, e: Event): (r: Sys)
    requires ValidWorld(w) && P.WellShaped(w.c, s.pipe) && Enabled(w, s, e)
  {
    match e
    case Pipe(e) => s.(pipe := P.Next(w.c, s.pipe, e))
    case Read(t) =>
      var p := s.pipe.workers[t].ops[0];
      s.(snaps := s.snaps[p := Get(s.db, s.pipe.ops[p].id.value)])
    case Write(t, p, action, out) =>
      var id := s.pipe.ops[p].id.value;
      s.(db := Put(s.db, id, Written(action, s.snaps[p], out, Get(s.db, id))), written := s.written + {p})
  }

  ghost predicate Init(w: World, s: Sys) {
    P.Init(w.c, s.pipe) && s.snaps == map[] && s.written == {}
  }

  ghost predicate IsRun(w: World, states: seq<Sys>, events: seq<Event>) {
    && ValidWorld(w) && |states| == |events| + 1 && Init(w, states[0])
    && forall i :: 0 <= i < |events| ==>
         && P.WellShaped(w.c, states[i].pipe) && Enabled(w, states[i], events[i])
         && states[i + 1] == Next(w, states[i], events[i])
  }

  /** The operation has read its row, has not written it, and the row is still what it read. */
  ghost predicate Current(w: World, s: Sys, p: nat) {
    && p in s.pipe.ops && X.Active(w.c, s.pipe.ops[p]) && p in s.snaps
    && s.snaps[p] == Get(s.db, s.pipe.ops[p].id.value)
  }

  ghost predicate Inv(w: World, s: Sys) {
    && ValidWorld(w) && T.Inv(w.c, s.pipe)
    && (forall p :: p in s.snaps ==> p < s.pipe.pushed)
    && (forall p :: p in s.snaps && p in s.pipe.ops && p !in s.written ==> Current(w, s, p))
  }

  /** Once past the exclusion test an operation stays past it, under the same id. */
  lemma ActiveKept(c: P.Config, s: P.State, e: P.Event, p: nat)
    requires T.Inv(c, s) && P.Enabled(c, s, e)
    requires p in s.ops && X.Active(c, s.ops[p]) && p in P.Next(c, s, e).ops
    ensures X.Active(c, P.Next(c, s, e).ops[p]) && P.Next(c, s, e).ops[p].id == s.ops[p].id
  {
    match e
    case Ack(t, next, remove) => AckKeepsActive(c, s, t, next, remove, p);
    case Move(src) => I.MoveFacts(c, s, src);
    case SetId(t, newId) => IdKeepsActive(c, s, e, t, p);
    case Resolve(t, found) => IdKeepsActive(c, s, e, t, p);
    case Push(_, _, _, _) => I.NotPushedYet(c, s);
    case _ =>
  }

  lemma AckKeepsActive(c: P.Config, s: P.State, t: nat, next: nat, remove: bool, p: nat)
    requires P.WellShaped(c, s) && I.Held(s) && I.Located(c, s) && P.Enabled(c, s, P.Ack(t, next, remove))
    requires p in s.ops && X.Active(c, s.ops[p]) && p in P.DoAck(c, s, t, next, remove).ops
    ensures X.Active(c, P.DoAck(c, s, t, next, remove).ops[p]) && P.DoAck(c, s, t, next, remove).ops[p].id == s.ops[p].id
  {
    X.JobStage(c, s, t);
  }

  /** Ids are only given to operations that are not active. */
  lemma IdKeepsActive(c: P.Config, s: P.State, e: P.Event, t: nat, p: nat)
    requires P.WellShaped(c, s) && I.Held(s) && I.Located(c, s) && X.Blocking(c, s) && P.Enabled(c, s, e)
    requires (e.SetId? || e.Resolve?) && e.t == t && p in s.ops && X.Active(c, s.ops[p])
    ensures p in P.Next(c, s, e).ops && P.Next(c, s, e).ops[p] == s.ops[p]
  {
    X.JobStage(c, s, t);
    assert X.FidOk(c, s.ops[s.workers[t].ops[0]]);
  }

  /** What was there before an event was there earlier under the same number. */
  lemma OpsBefore(c: P.Config, s: P.State, e: P.Event, p: nat)
    requires T.Inv(c, s) && P.Enabled(c, s, e) && p in P.Next(c, s, e).ops && p < s.pushed
    ensures p in s.ops
  {
    if !e.Pick? {
      T.EventForward(c, s, e);
    }
  }

  lemma PushedGrows(c: P.Config, s: P.State, e: P.Event)
    requires T.Inv(c, s) && P.Enabled(c, s, e)
    ensures P.Next(c, s, e).pushed >= s.pushed
  {
  }

  lemma PipeKeepsInv(w: World, s: Sys, e: P.Event)
    requires Inv(w, s) && P.Enabled(w.c, s.pipe, e)
    ensures Inv(w, Next(w, s, Pipe(e)))
  {
    var s' := Next(w, s, Pipe(e));
    T.EventKeepsInv(w.c, s.pipe, e);
    PushedGrows(w.c, s.pipe, e);
    forall p | p in s'.snaps && p in s'.pipe.ops && p !in s'.written ensures Current(w, s', p) {
      OpsBefore(w.c, s.pipe, e, p);
      assert Current(w, s, p);
      ActiveKept(w.c, s.pipe, e, p);
    }
  }

  lemma ReaderIsActive(c: P.Config, s: P.State, t: nat, p: nat)
    requires T.Inv(c, s) && t in s.workers && s.workers[t].at == c.constraint && p in s.workers[t].ops
    requires p in s.ops && s.ops[p].id.Some?
    ensures X.Active(c, s.ops[p]) && p < s.pushed
  {
    X.JobStage(c, s, t);
    assert I.JobOk(s, s.workers[t]);
  }

  lemma ReadKeepsInv(w: World, s: Sys, t: nat)
    requires Inv(w, s) && Enabled(w, s, Read(t))
    ensures Inv(w, Next(w, s, Read(t)))
  {
    var s' := Next(w, s, Read(t));
    var p := s.pipe.workers[t].ops[0];
    ReaderIsActive(w.c, s.pipe, t, p);
    forall q | q in s'.snaps && q in s'.pipe.ops && q !in s'.written ensures Current(w, s', q) {
      if q != p {
        assert Current(w, s, q);
      }
    }
  }

  /** A worker of the writing stage holds active operations only. */
  lemma WriterIsActive(w: World, s: P.State, t: nat, p: nat)
    requires ValidWorld(w) && T.Inv(w.c, s) && t in s.workers && s.workers[t].at == w.apply && p in s.workers[t].ops
    requires p in s.ops && s.ops[p].id.Some?
    ensures X.Active(w.c, s.ops[p])
  {
    X.JobStage(w.c, s, t);
  }

  lemma WriteKeepsInv(w: World, s: Sys, t: nat, p: nat, action: Action, out: Row)
    requires Inv(w, s) && Enabled(w, s, Write(t, p, action, out))
    ensures Inv(w, Next(w, s, Write(t, p, action, out)))
  {
    var s' := Next(w, s, Write(t, p, action, out));
    WriterIsActive(w, s.pipe, t, p);
    forall q | q in s'.snaps && q in s'.pipe.ops && q !in s'.written ensures Current(w, s', q) {
      assert Current(w, s, q);
      T.ActiveApart(w.c, s.pipe, p, q);
    }
  }

  lemma EventKeepsInv(w: World, s: Sys, e: Event)
    requires Inv(w, s) && Enabled(w, s, e)
    ensures Inv(w, Next(w, s, e))
  {
    match e
    case Pipe(e) => PipeKeepsInv(w, s, e);
    case Read(t) => ReadKeepsInv(w, s, t);
    case Write(t, p, action, out) => WriteKeepsInv(w, s, t, p, action, out);
  }

  lemma {:induction false} RunInv(w: World, states: seq<Sys>, events: seq<Event>, n: nat)
    requires IsRun(w, states, events) && n < |states|
    ensures Inv(w, states[n])
  {
    if n == 0 {
      T.InitInv(w.c, states[0].pipe);
    } else {
      RunInv(w, states, events, n - 1);
      EventKeepsInv(w, states[n - 1], events[n - 1]);
    }
  }

  /** What the program writes from a snapshot that is still current. */
  lemma WrittenAtOnce(action: Action, out: Row, row: Option<Row>)
    requires Prepared(action, row, out)
    ensures Written(action, row, out, row) == AtOnce(action, row)
  {
    if action.Upsert? && row.Some? {
      assert Agrees(Restrict(row.value, action.need), row.value);
    }
  }

  /* ---- the results ---- */

  /** When an operation writes, the row is the one it read, however many threads wrote in between. */
  lemma SnapshotIsCurrent(w: World, states: seq<Sys>, events: seq<Event>, n: nat)
    requires IsRun(w, states, events) && n < |events| && events[n].Write?
    ensures var s := states[n]; var p := events[n].p;
      p in s.snaps && p in s.pipe.ops && s.pipe.ops[p].id.Some?
      && s.snaps[p] == Get(s.db, s.pipe.ops[p].id.value)
  {
    RunInv(w, states, events, n);
    assert Current(w, states[n], events[n].p);
  }

  /** Every write does to its row what reading and writing it at once would do, and to no other row anything. */
  lemma WritesAreAtomic(w: World, states: seq<Sys>, events: seq<Event>, n: nat, id: P.Id)
    requires IsRun(w, states, events) && n < |events| && events[n].Write?
    ensures events[n].p in states[n].pipe.ops
    ensures Get(states[n + 1].db, id) ==
      if states[n].pipe.ops[events[n].p].id == Some(id) then AtOnce(events[n].action, Get(states[n].db, id))
      else Get(states[n].db, id)
  {
    SnapshotIsCurrent(w, states, events, n);
    var own := states[n].pipe.ops[events[n].p].id.value;
    WrittenAtOnce(events[n].action, events[n].out, Get(states[n].db, own));
  }

  /** A file is removed by an unlink exactly when the row of that moment counts one link, or the record says it was the last. */
  lemma UnlinksSeeTheRow(w: World, states: seq<Sys>, events: seq<Event>, n: nat, id: P.Id)
    requires IsRun(w, states, events) && n < |events| && events[n].Write? && events[n].action.Unlink?
    requires events[n].p in states[n].pipe.ops && states[n].pipe.ops[events[n].p].id == Some(id)
    requires id in states[n].db
    ensures id !in states[n + 1].db <==>
      events[n].action.last || (Nlink in states[n].db[id] && states[n].db[id][Nlink] <= 1)
  {
    WritesAreAtomic(w, states, events, n, id);
    assert Get(states[n].db, id) == Some(states[n].db[id]);
  }

  /** No hard link is ever lost from the count: the new value is one more than the value of that moment. */
  lemma HardlinksAddUp(w: World, states: seq<Sys>, events: seq<Event>, n: nat, id: P.Id)
    requires IsRun(w, states, events) && n < |events| && events[n].Write?
    requires events[n].action.Upsert? && events[n].action.origin == HardlinkRecord
    requires Nlink in events[n].action.need && Nlink !in events[n].action.readonly
    requires events[n].p in states[n].pipe.ops && states[n].pipe.ops[events[n].p].id == Some(id)
    requires id in states[n].db && Nlink in states[n].db[id]
    ensures id in states[n + 1].db && Nlink in states[n + 1].db[id]
    ensures states[n + 1].db[id][Nlink] == states[n].db[id][Nlink] + 1
  {
    WritesAreAtomic(w, states, events, n, id);
    assert Get(states[n].db, id) == Some(states[n].db[id]);
  }

  /** A removed directory leaves no row, and a created file has one link, on insertion and on update. */
  lemma RemovedAndCreated(w: World, states: seq<Sys>, events: seq<Event>, n: nat, id: P.Id)
    requires IsRun(w, states, events) && n < |events| && events[n].Write?
    requires events[n].p in states[n].pipe.ops && states[n].pipe.ops[events[n].p].id == Some(id)
    ensures events[n].action.Rmdir? ==> id !in states[n + 1].db
    ensures events[n].action.NoChange? ==> Get(states[n + 1].db, id) == Get(states[n].db, id)
    ensures events[n].action.Upsert? && events[n].action.origin == CreateRecord && Nlink !in events[n].action.readonly ==>
      id in states[n + 1].db && Get(states[n + 1].db[id], Nlink) == Some(1)
  {
    WritesAreAtomic(w, states, events, n, id);
    var row := Get(states[n].db, id);
    if events[n].action.Upsert? && row.Some? {
      var a := events[n].action;
      WrittenExactly(a.origin, a.stripeOk, a.classAlways, a.readonly, a.fs, Restrict(row.value, a.need), Nlink);
    }
  }

  /** A name that goes away, but for the last one, takes one link off a row that counts links, and nothing else. */
  lemma LinksTakenOff(w: World, states: seq<Sys>, events: seq<Event>, n: nat, id: P.Id)
    requires IsRun(w, states, events) && n < |events| && events[n].Write?
    requires events[n].p in states[n].pipe.ops && states[n].pipe.ops[events[n].p].id == Some(id)
    requires id in states[n].db && Nlink in states[n].db[id]
    requires (events[n].action.Unlink? && !events[n].action.last && states[n].db[id][Nlink] > 1)
      || (events[n].action.Rename? && states[n].db[id][Nlink] > 0)
    ensures id in states[n + 1].db && states[n + 1].db[id] == states[n].db[id][Nlink := states[n].db[id][Nlink] - 1]
  {
    WritesAreAtomic(w, states, events, n, id);
    assert Get(states[n].db, id) == Some(states[n].db[id]);
  }
}
