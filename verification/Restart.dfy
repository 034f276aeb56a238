/** Which records are read again after a crash, and what the history of earlier sessions records. */
module Restart {
  import opened Common
  import opened Changelog
  import opened Acknowledgement
  import P = PipelineState
  import opened EndToEnd

  /** From the crash at `m` to the state `n` there is no other crash. */
  ghost predicate OneSession(events: seq<Event>, m: nat, n: nat) {
    m < n <= |events| && events[m].Crash? && forall i :: m < i < n ==> !events[i].Crash?
  }

  ghost predicate ReadIn(events: seq<Event>, m: nat, n: nat) {
    exists i :: m < i < n && i < |events| && events[i].Read?
  }

  ghost predicate ReopenedIn(events: seq<Event>, m: nat, n: nat) {
    exists i :: m < i < n && i < |events| && events[i].Reopen?
  }

  /** Until a record is read nothing is acknowledged, and reading begins after the stored index or, once reopened, at 1. */
  lemma {:induction false} BeforeFirstRead(w: World, states: seq<Sys>, events: seq<Event>, m: nat, n: nat)
    requires IsRun(w, states, events) && OneSession(events, m, n) && !ReadIn(events, m, n)
    ensures var s, d := states[n], states[m].commit.durable;
      && s.lastRead == 0 && s.items == map[] && s.queue == [] && s.commit == Commit(0, 0, 0, d, states[m].commit.server)
      && s.nextRec == if ReopenedIn(events, m, n) then 1 else if d > 0 then d + 1 else 0
    decreases n
  {
    if n == m + 1 {
      assert states[n] == Next(w, states[m], events[m]);
    } else {
      var s, e := states[n - 1], events[n - 1];
      assert OneSession(events, m, n - 1) && !ReadIn(events, m, n - 1);
      BeforeFirstRead(w, states, events, m, n - 1);
      assert Enabled(w, s, e) && states[n] == Next(w, s, e);
      assert !e.Crash? && !e.Read?;
      assert ReopenedIn(events, m, n) <==> ReopenedIn(events, m, n - 1) || e.Reopen?;
    }
  }

  /** Some record up to `d` is still in the changelog. */
  ghost predicate LeftBehind(w: World, server: nat, d: nat) {
    exists j :: j in w.log && server < j <= d
  }

  /**
   * The first record read after a crash is one that was stored as committed before the crash exactly when
   * the changelog was reopened before anything was read, and such a record was not cleared.
   */
  lemma FirstReadExactly(w: World, states: seq<Sys>, events: seq<Event>, m: nat, n: nat)
    requires IsRun(w, states, events) && n < |events| && OneSession(events, m, n) && !ReadIn(events, m, n) && events[n].Read?
    requires states[m].commit.durable > 0
    ensures events[n].k <= states[m].commit.durable <==>
      ReopenedIn(events, m, n) && LeftBehind(w, states[m].commit.server, states[m].commit.durable)
  {
    var d, server := states[m].commit.durable, states[m].commit.server;
    BeforeFirstRead(w, states, events, m, n);
    assert Enabled(w, states[n], events[n]);
    if ReopenedIn(events, m, n) && LeftBehind(w, server, d) {
      var j :| j in w.log && server < j <= d;
      assert Readable(w.log[j]) && w.log[j].index == j;
    }
  }

  lemma LastReadGrows(w: World, s: Sys, e: Event)
    requires ValidWorld(w) && P.WellShaped(w.c, s.pipe) && Bounded(s) && Enabled(w, s, e) && !e.Crash?
    ensures Next(w, s, e).lastRead >= s.lastRead
    ensures e.Read? ==> e.k > s.lastRead && Next(w, s, e).lastRead == e.k
  {
    if e.Read? {
      assert Readable(w.log[e.k]) && w.log[e.k].index == e.k;
    }
  }

  lemma RunReads(w: World, states: seq<Sys>, events: seq<Event>, n: nat)
    requires IsRun(w, states, events) && n < |events| && !events[n].Crash?
    ensures states[n + 1].lastRead >= states[n].lastRead
    ensures events[n].Read? ==> events[n].k > states[n].lastRead && states[n + 1].lastRead == events[n].k
  {
    RunInv(w, states, events, n);
    LastReadGrows(w, states[n], events[n]);
  }

  lemma {:induction false} ReadStays(w: World, states: seq<Sys>, events: seq<Event>, i: nat, n: nat)
    requires IsRun(w, states, events) && i <= n < |events| && events[i].Read?
    requires forall j :: i <= j <= n ==> !events[j].Crash?
    ensures states[n + 1].lastRead >= events[i].k
    decreases n
  {
    RunReads(w, states, events, n);
    if n > i {
      ReadStays(w, states, events, i, n - 1);
    }
  }

  /** Within a session no record is read twice, and none before an earlier one. */
  lemma ReadsIncrease(w: World, states: seq<Sys>, events: seq<Event>, i: nat, n: nat)
    requires IsRun(w, states, events) && i < n < |events| && events[i].Read? && events[n].Read?
    requires forall j :: i < j < n ==> !events[j].Crash?
    ensures events[i].k < events[n].k
  {
    ReadStays(w, states, events, i, n - 1);
    RunReads(w, states, events, n);
  }

  lemma {:induction false} FirstRead(events: seq<Event>, m: nat, n: nat) returns (f: nat)
    requires m < n < |events| && events[n].Read?
    ensures m < f <= n && events[f].Read? && !ReadIn(events, m, f)
    decreases n
  {
    if ReadIn(events, m, n) {
      var i :| m < i < n && events[i].Read?;
      f := FirstRead(events, m, i);
    } else {
      f := n;
    }
  }

  lemma NoneBefore(events: seq<Event>, m: nat, i: nat, f: nat)
    requires !ReadIn(events, m, f) && i <= f
    ensures !ReadIn(events, m, i)
  {
  }

  /**
   * No record that was stored as committed before a crash is read a second time, unless the changelog is
   * reopened before the first record is read and the record was not cleared.
   */
  lemma NothingStoredIsReadAgain(w: World, states: seq<Sys>, events: seq<Event>, m: nat, n: nat)
    requires IsRun(w, states, events) && n < |events| && OneSession(events, m, n) && events[n].Read?
    requires states[m].commit.durable > 0
    requires LeftBehind(w, states[m].commit.server, states[m].commit.durable) ==>
      forall i :: m < i < n && events[i].Reopen? ==> ReadIn(events, m, i)
    ensures events[n].k > states[m].commit.durable
  {
    var f := FirstRead(events, m, n);
    assert OneSession(events, m, f);
    forall i | m < i < f ensures !ReadIn(events, m, i) {
      NoneBefore(events, m, i, f);
    }
    FirstReadExactly(w, states, events, m, f);
    if f < n {
      ReadsIncrease(w, states, events, f, n);
    }
  }

  /**
   * The failing input: the changelog of a restarted reader ends before anything was read, and is
   * reopened from the record after the last one read, which is 1. The oldest record that was not cleared is
   * delivered, although it was stored as committed.
   */
  lemma ReopenedTooEarly(w: World, s: Sys, pipe: P.State, k: nat, now: int)
    requires Inv(w, s) && P.Init(w.c, pipe) && k in w.log && s.commit.server < k <= s.commit.durable
    requires forall j :: j in w.log && j > s.commit.server ==> k <= j
    ensures var s1 := Next(w, s, Crash(pipe));
      && P.WellShaped(w.c, s1.pipe) && Enabled(w, s1, Reopen)
      && !Enabled(w, s1, Read(k, now)) && Enabled(w, Next(w, s1, Reopen), Read(k, now))
  {
    assert Readable(w.log[k]) && w.log[k].index == k;
  }

  /* ---- what the history means ---- */

  ghost predicate AppliedAt(w: World, s: Sys, k: nat) {
    Settled(w, s, k) && CarriedBy(s.items, k)
  }

  ghost predicate SuppressedAt(w: World, s: Sys, e: Event, k: nat) {
    e.Read? && e.k in w.log && k in Suppressed(s.queue, w.log[e.k])
  }

  /** What counts as suppressed was suppressed when some record was read. */
  lemma {:induction false} DroppedMeans(w: World, states: seq<Sys>, events: seq<Event>, n: nat, k: nat) returns (m: nat)
    requires IsRun(w, states, events) && n < |states| && k in states[n].dropped
    ensures m < n && SuppressedAt(w, states[m], events[m], k)
  {
    assert Enabled(w, states[n - 1], events[n - 1]) && states[n] == Next(w, states[n - 1], events[n - 1]);
    if k in states[n - 1].dropped {
      m := DroppedMeans(w, states, events, n - 1, k);
    } else {
      m := n - 1;
    }
  }

  /** What counts as applied before the last crash was carried by operations that were done at some crash. */
  lemma {:induction false} EarlierApplied(w: World, states: seq<Sys>, events: seq<Event>, n: nat, k: nat) returns (m: nat)
    requires IsRun(w, states, events) && n < |states| && k in states[n].earlier.applied
    ensures m < n && events[m].Crash? && AppliedAt(w, states[m], k)
  {
    assert Enabled(w, states[n - 1], events[n - 1]) && states[n] == Next(w, states[n - 1], events[n - 1]);
    if k in states[n - 1].earlier.applied {
      m := EarlierApplied(w, states, events, n - 1, k);
    } else {
      m := n - 1;
    }
  }

  lemma {:induction false} EarlierSuppressed(w: World, states: seq<Sys>, events: seq<Event>, n: nat, k: nat) returns (m: nat)
    requires IsRun(w, states, events) && n < |states| && k in states[n].earlier.suppressed
    ensures m < n && SuppressedAt(w, states[m], events[m], k)
  {
    assert Enabled(w, states[n - 1], events[n - 1]) && states[n] == Next(w, states[n - 1], events[n - 1]);
    if k in states[n - 1].earlier.suppressed {
      m := EarlierSuppressed(w, states, events, n - 1, k);
    } else {
      m := DroppedMeans(w, states, events, n - 1, k);
    }
  }
}
