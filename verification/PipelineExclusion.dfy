/** Per-id and per-name exclusion past the constraint stage. */
module PipelineExclusion {
  import opened Common
  import opened PipelineState
  import opened PipelineOrder
  import opened PipelineInvariant

  /** The operation is being processed at the constraint stage, or is past it. */
  ghost predicate Active(c: Config, o: Op) {
    o.id.Some? && (o.stage > c.constraint || (o.stage == c.constraint && o.processing))
  }

  ghost predicate RegisteredAt(c: Config, o: Op, j: nat) {
    && (j < c.constraint ==> !o.referenced && (o.id.Some? ==> o.stage <= c.constraint))
    && (j >= c.constraint && o.id.Some? ==> o.referenced)
  }

  /** The constraint manager knows exactly the operations with an id that reached the constraint stage. */
  ghost predicate Registered(c: Config, s: State) {
    && Distinct(s.reg)
    && (forall p :: p in s.reg <==> p in s.ops && s.ops[p].referenced)
    && (forall p :: p in s.ops && s.ops[p].referenced ==> s.ops[p].id.Some?)
    && (forall j, p :: 0 <= j < |s.stages| && p in s.stages[j].entries && p in s.ops ==> RegisteredAt(c, s.ops[p], j))
  }

  /** An active operation is the oldest registered one on its id and on its name. */
  ghost predicate Exclusive(c: Config, s: State) {
    forall p :: p in s.ops && Active(c, s.ops[p]) ==> IsFirst(s.ops, s.reg, p)
  }

  /** `p` heads the blocked constraint stage and nothing else is active. */
  ghost predicate Alone(c: Config, s: State, p: nat) {
    && s.forceSeq
    && c.constraint < |s.stages| && s.stages[c.constraint].entries != [] && s.stages[c.constraint].entries[0] == p
    && forall q :: q in s.ops && q != p ==> !Active(c, s.ops[q])
  }

  ghost predicate FidOk(c: Config, o: Op) {
    && (!o.fid.Known? ==> o.stage == c.constraint)
    && (o.fid.MustResolve? ==> o.id.None? && !o.referenced)
    && (o.fid.MustUnblock? ==> o.processing)
  }

  /** An operation that is looking its id up has the constraint stage for itself. */
  ghost predicate Blocking(c: Config, s: State) {
    && (forall p :: p in s.ops ==> FidOk(c, s.ops[p]))
    && (forall p :: p in s.ops && !s.ops[p].fid.Known? && s.ops[p].processing ==> Alone(c, s, p))
  }

  ghost predicate Guarded(c: Config, s: State) {
    Registered(c, s) && Exclusive(c, s) && Blocking(c, s)
  }

  /* ---- facts about the registration order ---- */

  lemma {:induction false} BeforeAppend(s: seq<nat>, more: seq<nat>, p: nat)
    requires p in s
    ensures Before(s + more, p) == Before(s, p)
  {
    if s[0] != p {
      assert (s + more)[1..] == s[1..] + more;
      BeforeAppend(s[1..], more, p);
    }
  }

  lemma FirstAppend(ops: map<nat, Op>, reg: seq<nat>, more: seq<nat>, p: nat)
    requires IsFirst(ops, reg, p)
    ensures IsFirst(ops, reg + more, p)
  {
    BeforeAppend(reg, more, p);
  }

  /** Being first depends on ids and names of the registered operations only. */
  lemma FirstFrame(ops: map<nat, Op>, ops': map<nat, Op>, reg: seq<nat>, p: nat)
    requires IsFirst(ops, reg, p) && forall q :: q in reg ==> q in ops
    requires forall q :: q in reg && q in ops' ==> ops'[q].id == ops[q].id && ops'[q].name == ops[q].name
    requires p in ops'
    ensures IsFirst(ops', reg, p)
  {
  }

  lemma {:induction false} BeforeWithout(s: seq<nat>, gone: set<nat>, p: nat, q: nat)
    requires p in s && p !in gone && q in Before(Without(s, gone), p)
    ensures q in Before(s, p)
  {
    assert s == [s[0]] + s[1..];
    var rest := Without(s[1..], gone);
    if s[0] in gone {
      assert Without(s, gone) == rest;
      BeforeWithout(s[1..], gone, p, q);
      BeforeCons(s[0], s[1..], p);
    } else {
      assert Without(s, gone) == [s[0]] + rest;
      assert s[0] != p;
      BeforeCons(s[0], rest, p);
      BeforeCons(s[0], s[1..], p);
      if q != s[0] {
        BeforeWithout(s[1..], gone, p, q);
      }
    }
  }

  lemma BeforeCons(x: nat, s: seq<nat>, p: nat)
    requires x != p
    ensures Before([x] + s, p) == [x] + Before(s, p)
  {
    assert ([x] + s)[1..] == s;
  }

  lemma FirstWithout(ops: map<nat, Op>, reg: seq<nat>, gone: set<nat>, p: nat)
    requires IsFirst(ops, reg, p) && p !in gone
    ensures IsFirst(ops - gone, Without(reg, gone), p)
  {
    forall q | q in Before(Without(reg, gone), p) ensures q in Before(reg, p) {
      BeforeWithout(reg, gone, p, q);
    }
  }

  /* ---- pushing ---- */

  lemma PushKeepsGuarded(c: Config, s: State, e: Event)
    requires Base(c, s) && Guarded(c, s) && e.Push? && Enabled(c, s, e)
    ensures Guarded(c, DoPush(c, s, e))
  {
    NotPushedYet(c, s);
    PushRegistered(c, s, e);
    var s' := DoPush(c, s, e);
    forall p | p in s'.ops && Active(c, s'.ops[p]) ensures IsFirst(s'.ops, s'.reg, p) {
      assert p != s.pushed;
      FirstFrame(s.ops, s'.ops, s.reg, p);
      FirstAppend(s'.ops, s.reg, [s.pushed], p);
    }
    forall p | p in s'.ops && !s'.ops[p].fid.Known? && s'.ops[p].processing ensures Alone(c, s', p) {
      assert Alone(c, s, p);
    }
  }

  lemma PushRegistered(c: Config, s: State, e: Event)
    requires WellShaped(c, s) && Registered(c, s) && e.Push? && Enabled(c, s, e)
    requires s.pushed !in s.ops && forall j :: 0 <= j < |s.stages| ==> s.pushed !in s.stages[j].entries
    ensures Registered(c, DoPush(c, s, e))
  {
    var s' := DoPush(c, s, e);
    forall j, p | 0 <= j < |s'.stages| && p in s'.stages[j].entries && p in s'.ops ensures RegisteredAt(c, s'.ops[p], j) {
      if p != s.pushed {
        assert RegisteredAt(c, s.ops[p], j);
      }
    }
  }

  /* ---- moving ---- */

  lemma MoveRegistered(c: Config, s: State, s': State, src: nat, d: nat, k: nat)
    requires Moved(s, s', src, d, k) && Registered(c, s) && ListsApart(s)
    requires var regs := if d == c.constraint then ToRegister(s.stages[src].entries[..k], s.ops) else [];
      s'.reg == s.reg + regs && s'.ops == MarkReferenced(s.ops, regs)
    ensures Registered(c, s')
  {
    var moved := s.stages[src].entries[..k];
    var regs := if d == c.constraint then ToRegister(moved, s.ops) else [];
    assert s.stages[src].entries == moved + s.stages[src].entries[k..];
    OnlyDistinct(moved, set p | p in s.ops && !s.ops[p].referenced && s.ops[p].id.Some?);
    RegAppended(s.reg, s.ops, s'.reg, s'.ops, regs);
    forall j, p | 0 <= j < |s'.stages| && p in s'.stages[j].entries && p in s'.ops ensures RegisteredAt(c, s'.ops[p], j) {
      var l := if j == d && p in moved then src else j;
      assert RegisteredAt(c, s.ops[p], l);
      assert l != src ==> p !in moved;
      assert j == src ==> p !in moved by {
        assert Distinct(s.stages[src].entries);
      }
    }
  }

  lemma RegAppended(reg: seq<nat>, ops: map<nat, Op>, reg': seq<nat>, ops': map<nat, Op>, regs: seq<nat>)
    requires Distinct(reg) && Distinct(regs)
    requires forall p :: p in reg <==> p in ops && ops[p].referenced
    requires forall p :: p in ops && ops[p].referenced ==> ops[p].id.Some?
    requires forall p :: p in regs ==> p in ops && !ops[p].referenced && ops[p].id.Some?
    requires reg' == reg + regs && ops' == MarkReferenced(ops, regs)
    ensures Distinct(reg')
    ensures forall p :: p in reg' <==> p in ops' && ops'[p].referenced
    ensures forall p :: p in ops' && ops'[p].referenced ==> ops'[p].id.Some?
  {
    DistinctConcat(reg, regs);
  }

  lemma MoveExclusive(c: Config, s: State, s': State, regs: seq<nat>)
    requires Exclusive(c, s) && Registered(c, s)
    requires s'.reg == s.reg + regs && s'.ops == MarkReferenced(s.ops, regs)
    ensures Exclusive(c, s')
  {
    forall p | p in s'.ops && Active(c, s'.ops[p]) ensures IsFirst(s'.ops, s'.reg, p) {
      assert Active(c, s.ops[p]);
      FirstFrame(s.ops, s'.ops, s.reg, p);
      FirstAppend(s'.ops, s.reg, regs, p);
    }
  }

  lemma MoveBlocking(c: Config, s: State, s': State, src: nat, d: nat, k: nat)
    requires Moved(s, s', src, d, k) && Blocking(c, s) && k > 0 && Registered(c, s) && s'.forceSeq == s.forceSeq
    requires var regs := if d == c.constraint then ToRegister(s.stages[src].entries[..k], s.ops) else [];
      s'.ops == MarkReferenced(s.ops, regs)
    ensures Blocking(c, s')
  {
    forall p | p in s'.ops && !s'.ops[p].fid.Known? && s'.ops[p].processing ensures Alone(c, s', p) {
      assert Alone(c, s, p);
      assert src != c.constraint by {
        assert s.stages[src].entries[0] in s.stages[src].entries[..k];
      }
      forall q | q in s'.ops && q != p ensures !Active(c, s'.ops[q]) {
        assert !Active(c, s.ops[q]);
      }
    }
  }

  lemma MoveKeepsGuarded(c: Config, s: State, src: nat)
    requires Base(c, s) && Guarded(c, s) && Enabled(c, s, Move(src))
    ensures Guarded(c, DoMove(c, s, src))
  {
    var s' := DoMove(c, s, src);
    var d := MoveTarget(c, s, src);
    var k := ReadyLen(s.stages[src].entries, s.ops, src);
    var regs := if d == c.constraint then ToRegister(s.stages[src].entries[..k], s.ops) else [];
    MoveFacts(c, s, src);
    BaseListsApart(c, s);
    MoveRegistered(c, s, s', src, d, k);
    MoveExclusive(c, s, s', regs);
    MoveBlocking(c, s, s', src, d, k);
  }

  /* ---- picking ---- */

  /** Starting operations changes neither ids, nor names, nor registration. */
  lemma PickRegistered(c: Config, s: State, s': State, t: nat, i: nat, batch: seq<nat>)
    requires Started(s, s', t, i, batch) && Registered(c, s) && s'.reg == s.reg
    ensures Registered(c, s')
  {
    forall j, p | 0 <= j < |s'.stages| && p in s'.stages[j].entries && p in s'.ops ensures RegisteredAt(c, s'.ops[p], j) {
      assert RegisteredAt(c, s.ops[p], j);
    }
  }

  lemma PickExclusive(c: Config, s: State, s': State, t: nat, i: nat, batch: seq<nat>)
    requires Started(s, s', t, i, batch) && IdleBatch(s, i, batch) && Registered(c, s) && Exclusive(c, s)
    requires s'.reg == s.reg
    requires i == c.constraint ==> forall p :: p in batch && s.ops[p].id.Some? ==> IsFirst(s.ops, s.reg, p)
    ensures Exclusive(c, s')
  {
    forall p | p in s'.ops && Active(c, s'.ops[p]) ensures IsFirst(s'.ops, s'.reg, p) {
      if p in batch && i == c.constraint {
        assert IsFirst(s.ops, s.reg, p);
      } else {
        assert Active(c, s.ops[p]);
      }
      FirstFrame(s.ops, s'.ops, s.reg, p);
    }
  }

  lemma {:induction false} UpperTotalZero(ss: seq<Stage>, i: nat)
    requires i < |ss| && UpperTotal(ss, i) == ss[i].unprocessed
    requires forall j :: 0 <= j < |ss| ==> ss[j].current >= 0 && ss[j].unprocessed >= 0 && ss[j].processed >= 0
    ensures ss[i].current == 0 && ss[i].processed == 0
    ensures forall j :: i < j < |ss| ==> ss[j].current == 0 && ss[j].unprocessed == 0 && ss[j].processed == 0
  {
    UpperTotalNonNeg(ss, i + 1);
  }

  lemma {:induction false} UpperTotalNonNeg(ss: seq<Stage>, i: nat)
    requires forall j :: 0 <= j < |ss| ==> ss[j].current >= 0 && ss[j].unprocessed >= 0 && ss[j].processed >= 0
    ensures UpperTotal(ss, i) >= 0
    ensures UpperTotal(ss, i) == 0 ==>
      forall j :: i <= j < |ss| ==> ss[j].current == 0 && ss[j].unprocessed == 0 && ss[j].processed == 0
    decreases |ss| - i
  {
    if i < |ss| {
      UpperTotalNonNeg(ss, i + 1);
    }
  }

  /** When the counters of the upper stages add up to the idle operations of the constraint stage,
      nothing is active. */
  lemma NothingActive(c: Config, s: State)
    requires Base(c, s) && Registered(c, s)
    requires UpperTotal(s.stages, c.constraint) - s.stages[c.constraint].unprocessed == 0
    ensures forall q :: q in s.ops ==> !Active(c, s.ops[q])
  {
    assert forall j :: 0 <= j < |s.stages| ==> CountersOf(s.stages[j], s.ops, j);
    UpperTotalZero(s.stages, c.constraint);
    forall q | q in s.ops ensures !Active(c, s.ops[q]) {
      var j := InSomeList(s, q);
      assert LocatedAt(c, s.ops, j, q) && RegisteredAt(c, s.ops[q], j);
      var st := StatusOf(s.ops, q, j);
      assert q in Those(s.stages[j].entries, s.ops, j, st);
      assert CountersOf(s.stages[j], s.ops, j);
    }
  }

  lemma PickBlocking(c: Config, s: State, s': State, t: nat, i: nat, batch: seq<nat>)
    requires Started(s, s', t, i, batch) && IdleBatch(s, i, batch) && Blocking(c, s)
    requires c.constraint < |s.stages|
    requires s.forceSeq ==> s'.forceSeq
    requires i == c.constraint ==> !s.forceSeq && |batch| == 1
    requires batch[0] in s.ops && s.stages[i].entries != []
    requires i == c.constraint && s.ops[batch[0]].id.None? ==>
      && s'.forceSeq && s.stages[i].entries[0] == batch[0]
      && forall q :: q in s.ops ==> !Active(c, s.ops[q])
    ensures Blocking(c, s')
  {
    assert forall p :: p in s.ops ==> s'.ops[p] == s.ops[p].(processing := s'.ops[p].processing);
    forall p | p in s'.ops && !s'.ops[p].fid.Known? && s'.ops[p].processing ensures Alone(c, s', p) {
      assert FidOk(c, s.ops[p]);
      if p in batch {
        assert s.ops[p].fid.MustResolve?;
        assert p == batch[0];
      } else {
        assert Alone(c, s, p);
        forall q | q in s'.ops && q != p ensures !Active(c, s'.ops[q]) {
          assert !Active(c, s.ops[q]);
        }
      }
    }
    forall p | p in s'.ops ensures FidOk(c, s'.ops[p]) {
      assert FidOk(c, s.ops[p]);
    }
  }

  lemma PickKeepsGuarded(c: Config, s: State, t: nat, i: nat, k: nat, len: nat)
    requires Base(c, s) && Guarded(c, s) && Enabled(c, s, Pick(t, i, k, len))
    ensures Guarded(c, DoPick(c, s, t, i, k, len))
  {
    var s' := DoPick(c, s, t, i, k, len);
    var batch := s.stages[i].entries[k..k + len];
    PickIsStarted(c, s, t, i, k, len);
    PickRegistered(c, s, s', t, i, batch);
    PickRules(c, s, t, i, k, len);
    PickExclusive(c, s, s', t, i, batch);
    PickBlocking(c, s, s', t, i, batch);
  }

  /** What the rules of the constraint stage give for the operation that is started there. */
  lemma PickRules(c: Config, s: State, t: nat, i: nat, k: nat, len: nat)
    requires Base(c, s) && Guarded(c, s) && CanPick(c, s, i, k, len)
    ensures i == c.constraint ==>
      var p := s.stages[i].entries[k]; var batch := s.stages[i].entries[k..k + len];
      && batch == [p] && p in s.ops && !s.forceSeq
      && (s.ops[p].id.Some? ==> IsFirst(s.ops, s.reg, p))
      && (s.ops[p].id.None? ==>
            && DoPick(c, s, t, i, k, len).forceSeq && s.stages[i].entries[0] == p
            && forall q :: q in s.ops ==> !Active(c, s.ops[q]))
  {
    if i == c.constraint && s.ops[s.stages[i].entries[k]].id.None? {
      NothingActive(c, s);
    }
  }

  /* ---- acknowledging ---- */

  lemma AckRegistered(c: Config, s: State, s': State, t: nat, next: nat, remove: bool)
    requires Finished(s, s', t, next, remove) && Registered(c, s)
    requires s'.reg == (if remove then Without(s.reg, Elems(s.workers[t].ops)) else s.reg)
    requires JobOk(s, s.workers[t]) && ListsApart(s)
    requires !remove && s.workers[t].at < c.constraint ==> next <= c.constraint
    ensures Registered(c, s')
  {
    WithoutDistinct(s.reg, Elems(s.workers[t].ops));
    forall j, p | 0 <= j < |s'.stages| && p in s'.stages[j].entries && p in s'.ops ensures RegisteredAt(c, s'.ops[p], j) {
      assert RegisteredAt(c, s.ops[p], j);
    }
  }

  lemma AckExclusive(c: Config, s: State, s': State, t: nat, next: nat, remove: bool)
    requires Finished(s, s', t, next, remove) && Exclusive(c, s) && Registered(c, s)
    requires s'.reg == (if remove then Without(s.reg, Elems(s.workers[t].ops)) else s.reg)
    requires JobOk(s, s.workers[t])
    requires forall p :: p in s.workers[t].ops ==> s.ops[p].stage == s.workers[t].at
    requires !remove && s.workers[t].at < c.constraint ==> next <= c.constraint
    ensures Exclusive(c, s')
  {
    forall p | p in s'.ops && Active(c, s'.ops[p]) ensures IsFirst(s'.ops, s'.reg, p) {
      assert Active(c, s.ops[p]);
      if remove {
        FirstWithout(s.ops, s.reg, Elems(s.workers[t].ops), p);
      } else {
        FirstFrame(s.ops, s'.ops, s.reg, p);
      }
    }
  }

  lemma AckBlocking(c: Config, s: State, s': State, t: nat, next: nat, remove: bool)
    requires Finished(s, s', t, next, remove) && Blocking(c, s) && JobOk(s, s.workers[t])
    requires s'.forceSeq == s.forceSeq
    requires forall p :: p in s.workers[t].ops ==> s.ops[p].stage == s.workers[t].at
    requires !remove ==> && (s.workers[t].at < c.constraint ==> next <= c.constraint)
                         && forall p :: p in s.workers[t].ops ==> s.ops[p].fid.Known?
    ensures Blocking(c, s')
  {
    var gone := Elems(s.workers[t].ops);
    forall p | p in s'.ops ensures FidOk(c, s'.ops[p]) {
      assert FidOk(c, s.ops[p]);
    }
    forall p | p in s'.ops && !s'.ops[p].fid.Known? && s'.ops[p].processing ensures Alone(c, s', p) {
      assert Alone(c, s, p);
      assert p !in gone;
      var e := s.stages[c.constraint].entries;
      assert Without(e, gone) == [p] + Without(e[1..], gone);
      forall q | q in s'.ops && q != p ensures !Active(c, s'.ops[q]) {
        assert !Active(c, s.ops[q]);
      }
    }
  }

  lemma AckKeepsGuarded(c: Config, s: State, t: nat, next: nat, remove: bool)
    requires Base(c, s) && Guarded(c, s) && Enabled(c, s, Ack(t, next, remove))
    ensures Guarded(c, DoAck(c, s, t, next, remove))
  {
    var s' := DoAck(c, s, t, next, remove);
    JobStage(c, s, t);
    BaseListsApart(c, s);
    AckIsFinished(c, s, t, next, remove);
    FinishedKeepsGuarded(c, s, s', t, next, remove);
  }

  lemma FinishedKeepsGuarded(c: Config, s: State, s': State, t: nat, next: nat, remove: bool)
    requires Guarded(c, s) && ListsApart(s) && Finished(s, s', t, next, remove) && JobOk(s, s.workers[t])
    requires s'.reg == (if remove then Without(s.reg, Elems(s.workers[t].ops)) else s.reg)
    requires s'.forceSeq == s.forceSeq
    requires forall p :: p in s.workers[t].ops ==> s.ops[p].stage == s.workers[t].at
    requires !remove ==> && (s.workers[t].at < c.constraint ==> next <= c.constraint)
                         && forall p :: p in s.workers[t].ops ==> s.ops[p].fid.Known?
    ensures Guarded(c, s')
  {
    AckRegistered(c, s, s', t, next, remove);
    AckExclusive(c, s, s', t, next, remove);
    AckBlocking(c, s, s', t, next, remove);
  }

  lemma JobStage(c: Config, s: State, t: nat)
    requires Held(s) && Located(c, s) && t in s.workers
    ensures JobOk(s, s.workers[t])
    ensures forall p :: p in s.workers[t].ops ==> p in s.ops && s.ops[p].stage == s.workers[t].at
  {
    assert JobOk(s, s.workers[t]);
    forall p | p in s.workers[t].ops ensures p in s.ops && s.ops[p].stage == s.workers[t].at {
      assert LocatedAt(c, s.ops, s.workers[t].at, p);
    }
  }

  /* ---- identifiers ---- */

  lemma SetIdKeepsGuarded(c: Config, s: State, e: Event)
    requires Base(c, s) && Guarded(c, s) && e.SetId? && Enabled(c, s, e)
    ensures Guarded(c, Next(c, s, e))
  {
    var s' := Next(c, s, e);
    var p := s.workers[e.t].ops[0];
    JobStage(c, s, e.t);
    assert p in s.stages[s.workers[e.t].at].entries;
    assert RegisteredAt(c, s.ops[p], s.workers[e.t].at);
    BaseListsApart(c, s);
    SetIdFrame(c, s, s', p, s'.ops[p]);
  }

  /** Giving an id to an unregistered operation below the constraint stage. */
  lemma SetIdFrame(c: Config, s: State, s': State, p: nat, o: Op)
    requires Guarded(c, s) && p in s.ops && !s.ops[p].referenced && s.ops[p].stage < c.constraint && ListsApart(s)
    requires s' == s.(ops := s.ops[p := o]) && o == s.ops[p].(id := o.id)
    requires forall j :: 0 <= j < |s.stages| && p in s.stages[j].entries ==> j < c.constraint
    ensures Guarded(c, s')
  {
    forall j, q | 0 <= j < |s'.stages| && q in s'.stages[j].entries && q in s'.ops ensures RegisteredAt(c, s'.ops[q], j) {
      assert RegisteredAt(c, s.ops[q], j);
    }
    forall q | q in s'.ops && Active(c, s'.ops[q]) ensures IsFirst(s'.ops, s'.reg, q) {
      assert q != p;
      FirstFrame(s.ops, s'.ops, s.reg, q);
    }
    forall q | q in s'.ops ensures FidOk(c, s'.ops[q]) {
      assert FidOk(c, s.ops[q]);
    }
    forall q | q in s'.ops && !s'.ops[q].fid.Known? && s'.ops[q].processing ensures Alone(c, s', q) {
      assert Alone(c, s, q);
    }
  }

  lemma ResolveKeepsGuarded(c: Config, s: State, e: Event)
    requires Base(c, s) && Guarded(c, s) && e.Resolve? && Enabled(c, s, e)
    ensures Guarded(c, Next(c, s, e))
  {
    var p := s.workers[e.t].ops[0];
    JobStage(c, s, e.t);
    assert p in s.stages[c.constraint].entries;
    BaseListsApart(c, s);
    ResolveFrame(c, s, DoResolve(s, p, e.found), p, e.found);
  }

  lemma ResolveFrame(c: Config, s: State, s': State, p: nat, found: Option<Id>)
    requires Guarded(c, s) && p in s.ops && ListsApart(s) && s' == DoResolve(s, p, found)
    requires s.ops[p].fid.MustResolve? && s.ops[p].processing
    requires c.constraint < |s.stages| && p in s.stages[c.constraint].entries
    ensures Guarded(c, s')
  {
    assert FidOk(c, s.ops[p]) && Alone(c, s, p);
    assert p !in s.reg;
    forall j, q | 0 <= j < |s'.stages| && q in s'.stages[j].entries && q in s'.ops ensures RegisteredAt(c, s'.ops[q], j) {
      assert RegisteredAt(c, s.ops[q], j);
    }
    forall q | q in s'.ops && Active(c, s'.ops[q]) ensures IsFirst(s'.ops, s'.reg, q) {
      assert q == p;
      assert Before([p] + s.reg, p) == [];
    }
    forall q | q in s'.ops ensures FidOk(c, s'.ops[q]) {
      assert FidOk(c, s.ops[q]);
    }
    forall q | q in s'.ops && !s'.ops[q].fid.Known? && s'.ops[q].processing ensures Alone(c, s', q) {
      assert Alone(c, s, q);
    }
  }

  lemma UnblockKeepsGuarded(c: Config, s: State, s': State, p: nat)
    requires Guarded(c, s) && p in s.ops && s.ops[p].fid.MustUnblock?
    requires s' == s.(forceSeq := false, ops := s.ops[p := s.ops[p].(fid := Known)])
    ensures Guarded(c, s')
  {
    assert FidOk(c, s.ops[p]) && Alone(c, s, p);
    forall j, q | 0 <= j < |s'.stages| && q in s'.stages[j].entries && q in s'.ops ensures RegisteredAt(c, s'.ops[q], j) {
      assert RegisteredAt(c, s.ops[q], j);
    }
    forall q | q in s'.ops && Active(c, s'.ops[q]) ensures IsFirst(s'.ops, s'.reg, q) {
      assert Active(c, s.ops[q]);
      FirstFrame(s.ops, s'.ops, s.reg, q);
    }
    forall q | q in s.ops && !s.ops[q].fid.Known? && s.ops[q].processing ensures q == p {
      assert Alone(c, s, q);
    }
    forall q | q in s'.ops ensures FidOk(c, s'.ops[q]) {
      assert FidOk(c, s.ops[q]);
    }
  }

  /* ---- every event ---- */

  lemma EventKeepsGuarded(c: Config, s: State, e: Event)
    requires Base(c, s) && Guarded(c, s) && Enabled(c, s, e)
    ensures Guarded(c, Next(c, s, e))
  {
    match e
    case Push(_, _, _, _) => PushKeepsGuarded(c, s, e);
    case Pick(t, i, k, len) => PickKeepsGuarded(c, s, t, i, k, len);
    case Ack(t, next, remove) => AckKeepsGuarded(c, s, t, next, remove);
    case Move(src) => MoveKeepsGuarded(c, s, src);
    case SetId(_, _) => SetIdKeepsGuarded(c, s, e);
    case Resolve(_, _) => ResolveKeepsGuarded(c, s, e);
    case Unblock(t) => UnblockKeepsGuarded(c, s, Next(c, s, e), s.workers[t].ops[0]);
    case _ => TokenKeepsGuarded(c, s, Next(c, s, e));
  }

  lemma TokenKeepsGuarded(c: Config, s: State, s': State)
    requires Guarded(c, s)
    requires s' == s.(free := s'.free, pushing := s'.pushing, releasing := s'.releasing)
    ensures Guarded(c, s')
  {
    forall q | q in s'.ops && !s'.ops[q].fid.Known? && s'.ops[q].processing ensures Alone(c, s', q) {
      assert Alone(c, s, q);
    }
  }
}
