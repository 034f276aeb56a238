/**
 * When compaction preserves meaning, read off the records alone: entry by entry, from what the
 * database starts with and what the file system says.
 */
module CompactionTraces {
  import opened Common
  import opened Changelog
  import opened RecordReplay
  import opened Compaction

  /* ---- the row of one entry along a trace ---- */

  /** What the database has of an entry: its link count, if any, and whether the attributes are those of today. */
  datatype Row = Unknown | Known(current: bool, links: Option<int>)

  function RowIn(env: Env, db: Db, f: Fid): (r: Row) {
    if f !in db.entries then Unknown
    else Known(f in env.fs && db.entries[f] == env.fs[f].attrs, if f in db.links then Some(db.links[f]) else None)
  }

  function OneLinkLess(row: Row): (r: Row) {
    if row.Known? && row.links.Some? && row.links.value > 0 then row.(links := Some(row.links.value - 1)) else row
  }

  /** What is made of the row by a record that inserts or updates it. */
  function RowUpserted(env: Env, row: Row, x: Rec): (r: Row) {
    var f, fetched := x.tfid, Fetches(env, x.kind, row.Known?);
    if fetched && f !in env.fs then row
    else if row.Unknown? && x.name == "" && env.fs[f].path.None? then row
    else
      Known(fetched || row.current,
            if x.kind.Create? then Some(1)
            else if x.kind.Hardlink? && row.Known? && row.links.Some? then Some(row.links.value + 1)
            else if fetched then Some(env.fs[f].nlink)
            else row.links)
  }

  /** What a record makes of the row of its entry. */
  function RowAfter(env: Env, row: Row, x: Rec): (r: Row) {
    match x.kind
    case Unlink =>
      if row.Known? && (x.last || (row.links.Some? && row.links.value <= 1)) then Unknown else OneLinkLess(row)
    case Rmdir => Unknown
    case Rename => OneLinkLess(row)
    case _ => RowUpserted(env, row, x)
  }

  function RowOf(env: Env, row: Row, s: seq<Item>, f: Fid): (r: Row) {
    if s == [] then row
    else
      var before, x := RowOf(env, row, s[..|s| - 1], f), s[|s| - 1].rec;
      if x.tfid == f then RowAfter(env, before, x) else before
  }

  /** Links are counted of entries that the database has. */
  ghost predicate Rooted(db: Db) {
    forall f :: f in db.links ==> f in db.entries
  }

  lemma EffectRooted(env: Env, db: Db, x: Rec)
    requires Rooted(db)
    ensures Rooted(Effect(env, db, x))
  {
  }

  lemma RowFollows(env: Env, db: Db, x: Rec)
    requires Rooted(db)
    ensures RowIn(env, Effect(env, db, x), x.tfid) == RowAfter(env, RowIn(env, db, x.tfid), x)
  {
  }

  /** The records about an entry alone decide what the database has of it. */
  lemma {:induction false} RowOfReplay(env: Env, db: Db, s: seq<Item>, f: Fid)
    requires Rooted(db)
    ensures Rooted(Replay(env, db, s))
    ensures RowIn(env, Replay(env, db, s), f) == RowOf(env, RowIn(env, db, f), s, f)
  {
    if s != [] {
      var before, x := Replay(env, db, s[..|s| - 1]), s[|s| - 1].rec;
      RowOfReplay(env, db, s[..|s| - 1], f);
      EffectRooted(env, before, x);
      if x.tfid == f {
        RowFollows(env, before, x);
      } else {
        OtherLeavesAlone(env, before, x, f);
      }
    }
  }

  /* ---- the exact condition ---- */

  /** Reading the entry again would change nothing. */
  predicate UpToDate(env: Env, f: Fid, row: Row) {
    f !in env.fs ||
    match row
    case Unknown => env.fs[f].path.None?
    case Known(current, links) => env.policy.NeverAgain? || (current && links == Some(env.fs[f].nlink))
  }

  /**
   * What leaving a record out asks of the records read before it: the entry of a merged record is
   * up to date, and the entry of a cancelled pair is unknown.
   */
  ghost predicate RowsAllow(env: Env, db: Db, full: seq<Item>, q: seq<Item>, r: Rec) {
    var row := RowOf(env, RowIn(env, db, r.tfid), full, r.tfid);
    r.kind.OutOfBounds? ||
    match Decide(q, r)
    case Keep => true
    case Ignore => Silent(env, Replay(env, db, full), r)
    case MergeInto(_) => UpToDate(env, r.tfid, row)
    case CancelWith(_) => row.Unknown?
  }

  ghost predicate AllRowsAllow(env: Env, db: Db, steps: seq<Step>)
    requires ValidSteps(steps)
  {
    steps == [] ||
    var t, s := After(steps[..|steps| - 1]), steps[|steps| - 1];
    AllRowsAllow(env, db, steps[..|steps| - 1]) && (s.Read? ==> RowsAllow(env, db, t.full, t.queue, s.r))
  }

  lemma QuietIsUpToDate(env: Env, db: Db, x: Rec)
    requires IsAttr(x.kind)
    ensures Quiet(env, db, x) <==> UpToDate(env, x.tfid, RowIn(env, db, x.tfid))
  {
  }

  /** The entry of a cancelled pair is known with the creation exactly when it is without. */
  lemma KnownWithPair(env: Env, db: Db, comp: seq<Item>, a: nat, x: Item, comp': seq<Item>)
    requires Cancels(env, comp, a, x, comp')
    ensures x.rec.tfid in Replay(env, db, comp').entries <==> x.rec.tfid in Replay(env, db, comp).entries
  {
    if x.rec.tfid in Replay(env, db, comp').entries {
      KnownBehindPair(env, db, comp, a, x, comp');
    } else {
      AsBefore(env, db, comp, a, x, comp');
      GoneIsInert(env, Replay(env, db, comp[..a]), comp[a].rec);
      LeaveOut(env, db, comp, a);
    }
  }

  lemma HarmlessByRow(env: Env, db: Db, full: seq<Item>, past: seq<Item>, q: seq<Item>, r: Rec, now: int, comp: seq<Item>, comp': seq<Item>)
    requires Reads(past, q, r, now, comp, comp') && Alike(env, db, full, comp) && ValidTrace(env, full + AllOf(r, now)) && Rooted(db)
    ensures Harmless(env, db, comp, comp', q, r) <==> RowsAllow(env, db, full, q, r)
  {
    RowOfReplay(env, db, full, r.tfid);
    if !r.kind.OutOfBounds? && Decide(q, r).MergeInto? {
      var a := DroppedShape(past, q, r, now, comp, comp');
      QuietIsUpToDate(env, Replay(env, db, full), r);
    } else if !r.kind.OutOfBounds? && Decide(q, r).CancelWith? {
      AllOfDropped(q, r, now);
      var pos :| Thinned(full, comp, pos);
      var x := Item(r, now, {r.index});
      var a := PairShape(env, full, past, q, x, now, comp, comp', pos);
      KnownWithPair(env, db, comp, a, x, comp');
    }
  }

  /**
   * Exactly when leaving records out is harmless, without looking at the queue's own replay: follow
   * each entry alone through the records that were read.
   */
  lemma {:induction false} HarmlessByRows(env: Env, db: Db, steps: seq<Step>)
    requires ValidSteps(steps) && ValidTrace(env, After(steps).full) && Rooted(db)
    ensures AllHarmless(env, db, steps) <==> AllRowsAllow(env, db, steps)
  {
    if steps != [] {
      var s, t := steps[|steps| - 1], After(steps[..|steps| - 1]);
      ValidBefore(env, steps);
      HarmlessByRows(env, db, steps[..|steps| - 1]);
      if s.Read? && AllHarmless(env, db, steps[..|steps| - 1]) {
        CompactionPreservesMeaning(env, db, steps[..|steps| - 1]);
        HarmlessByRow(env, db, t.full, t.past, t.queue, s.r, s.now, t.past + t.queue, t.past + Process(t.queue, s.r, s.now));
      }
    }
  }

  lemma ValidBefore(env: Env, steps: seq<Step>)
    requires ValidSteps(steps) && steps != [] && ValidTrace(env, After(steps).full)
    ensures var full := After(steps[..|steps| - 1]).full;
      |full| <= |After(steps).full| && After(steps).full[..|full|] == full && ValidTrace(env, full)
  {
    var full := After(steps[..|steps| - 1]).full;
    assert After(steps).full[..|full|] == full;
    ValidPrefix(env, After(steps).full, |full|);
  }

  /* ---- a class of traces ---- */

  /** The record does not change the links counted of `f`, or they are never looked at again. */
  predicate Calm(env: Env, f: Fid, x: Rec) {
    x.tfid == f && f in env.fs ==>
      && !Removes(x.kind)
      && (env.policy.NeverAgain? ||
          (!x.kind.Hardlink? && !x.kind.Rename? && (x.kind.Create? ==> env.fs[f].nlink == 1)))
  }

  predicate Absorbs(k: Kind) { IsAttr(k) || Creates(k) }

  /** The record at `i` reads the entry `f`, and nothing from there to `j` changes its links. */
  ghost predicate Anchored(env: Env, s: seq<Item>, f: Fid, i: nat, j: nat) {
    && i < j <= |s| && s[i].rec.tfid == f && Absorbs(s[i].rec.kind)
    && forall m :: i <= m < j ==> Calm(env, f, s[m].rec)
  }

  /** Created entries are new: neither the database nor an earlier record has them. */
  ghost predicate Fresh(db: Db, s: seq<Item>) {
    forall j :: 0 <= j < |s| && Creates(s[j].rec.kind) ==>
      s[j].rec.tfid !in db.entries && forall i :: 0 <= i < j ==> s[i].rec.tfid != s[j].rec.tfid
  }

  /** No links change between a record about a change of attributes and one before it that could absorb it. */
  ghost predicate LinksUntouched(env: Env, s: seq<Item>) {
    forall i, j :: 0 <= i < j < |s| && IsAttr(s[j].rec.kind) && s[i].rec.tfid == s[j].rec.tfid && Absorbs(s[i].rec.kind) ==>
      exists a: nat :: Anchored(env, s, s[j].rec.tfid, a, j)
  }

  /** Marks are about no entry. */
  ghost predicate MarksOfNothing(env: Env, db: Db, s: seq<Item>) {
    forall j :: 0 <= j < |s| && s[j].rec.kind.Mark? ==> s[j].rec.tfid !in env.fs && s[j].rec.tfid !in db.entries
  }

  ghost predicate Plain(env: Env, db: Db, s: seq<Item>) {
    Fresh(db, s) && LinksUntouched(env, s) && MarksOfNothing(env, db, s)
  }

  lemma PlainPrefix(env: Env, db: Db, s: seq<Item>, n: nat)
    requires Plain(env, db, s) && n <= |s|
    ensures Plain(env, db, s[..n])
  {
    var p := s[..n];
    forall i, j | 0 <= i < j < |p| && IsAttr(p[j].rec.kind) && p[i].rec.tfid == p[j].rec.tfid && Absorbs(p[i].rec.kind)
      ensures exists a: nat :: Anchored(env, p, p[j].rec.tfid, a, j)
    {
      assert s[i] == p[i] && s[j] == p[j];
      var a: nat :| Anchored(env, s, s[j].rec.tfid, a, j);
      assert Anchored(env, p, p[j].rec.tfid, a, j);
    }
  }

  lemma CalmKeepsUpToDate(env: Env, row: Row, x: Rec)
    requires UpToDate(env, x.tfid, row) && Calm(env, x.tfid, x)
    ensures UpToDate(env, x.tfid, RowAfter(env, row, x))
  {
  }

  lemma ReadingUpdates(env: Env, row: Row, x: Rec)
    requires IsAttr(x.kind) || (Creates(x.kind) && row.Unknown?)
    requires Calm(env, x.tfid, x)
    ensures UpToDate(env, x.tfid, RowAfter(env, row, x))
  {
  }

  lemma {:induction false} UpToDateSince(env: Env, row: Row, s: seq<Item>, f: Fid, i: nat)
    requires Anchored(env, s, f, i, |s|)
    requires Creates(s[i].rec.kind) ==> RowOf(env, row, s[..i], f).Unknown?
    ensures UpToDate(env, f, RowOf(env, row, s, f))
    decreases |s|
  {
    var n := |s| - 1;
    assert Calm(env, f, s[n].rec);
    if i == n {
      ReadingUpdates(env, RowOf(env, row, s[..n], f), s[n].rec);
    } else {
      assert s[..n][..i] == s[..i];
      assert Anchored(env, s[..n], f, i, n);
      UpToDateSince(env, row, s[..n], f, i);
      if s[n].rec.tfid == f {
        CalmKeepsUpToDate(env, RowOf(env, row, s[..n], f), s[n].rec);
      }
    }
  }

  lemma {:induction false} OthersKeepRow(env: Env, row: Row, s: seq<Item>, f: Fid)
    requires forall i :: 0 <= i < |s| ==> s[i].rec.tfid != f
    ensures RowOf(env, row, s, f) == row
  {
    if s != [] {
      OthersKeepRow(env, row, s[..|s| - 1], f);
    }
  }

  /** An entry that neither the database nor the file system has stays unknown. */
  lemma {:induction false} GoneStaysUnknown(env: Env, s: seq<Item>, f: Fid)
    requires f !in env.fs
    ensures RowOf(env, Unknown, s, f).Unknown?
  {
    if s != [] {
      GoneStaysUnknown(env, s[..|s| - 1], f);
    }
  }

  /** What a record is merged into or cancelled with was read before it. */
  lemma AbsorberWasRead(full: seq<Item>, past: seq<Item>, q: seq<Item>, r: Rec, now: int, comp: seq<Item>, comp': seq<Item>) returns (i: nat)
    requires Reads(past, q, r, now, comp, comp') && !r.kind.OutOfBounds? && (Decide(q, r).MergeInto? || Decide(q, r).CancelWith?)
    requires exists pos :: Thinned(full, comp, pos)
    ensures i < |full| && full[i].rec.tfid == r.tfid && Absorbs(full[i].rec.kind)
    ensures Decide(q, r).CancelWith? ==> Creates(full[i].rec.kind)
  {
    var pos :| Thinned(full, comp, pos);
    var a := DroppedShape(past, q, r, now, comp, comp');
    i := pos[a];
    assert SameRec(comp[a].rec, full[i].rec);
  }

  /** A record of a plain trace that could be absorbed finds its entry up to date. */
  lemma PlainIsUpToDate(env: Env, db: Db, full: seq<Item>, x: Item, i: nat)
    requires Plain(env, db, full + [x]) && IsAttr(x.rec.kind)
    requires i < |full| && full[i].rec.tfid == x.rec.tfid && Absorbs(full[i].rec.kind)
    ensures UpToDate(env, x.rec.tfid, RowOf(env, RowIn(env, db, x.rec.tfid), full, x.rec.tfid))
  {
    var all, f := full + [x], x.rec.tfid;
    assert all[i] == full[i] && all[|full|] == x;
    var a: nat :| Anchored(env, all, f, a, |full|);
    assert forall m :: 0 <= m < |full| ==> all[m] == full[m];
    assert Anchored(env, full, f, a, |full|);
    if Creates(full[a].rec.kind) {
      assert Creates(all[a].rec.kind);
      OthersKeepRow(env, RowIn(env, db, f), full[..a], f);
    }
    UpToDateSince(env, RowIn(env, db, f), full, f, a);
  }

  lemma PlainAllows(env: Env, db: Db, full: seq<Item>, past: seq<Item>, q: seq<Item>, r: Rec, now: int, comp: seq<Item>, comp': seq<Item>)
    requires Reads(past, q, r, now, comp, comp') && Alike(env, db, full, comp) && Rooted(db)
    requires ValidTrace(env, full + AllOf(r, now)) && Plain(env, db, full + AllOf(r, now))
    ensures RowsAllow(env, db, full, q, r)
  {
    if !r.kind.OutOfBounds? && !Decide(q, r).Keep? {
      var x := Item(r, now, {r.index});
      AllOfDropped(q, r, now);
      assert (full + [x])[|full|] == x;
      if Decide(q, r).Ignore? {
        RowOfReplay(env, db, full, r.tfid);
        GoneStaysUnknown(env, full, r.tfid);
      } else {
        var i := AbsorberWasRead(full, past, q, r, now, comp, comp');
        if Decide(q, r).MergeInto? {
          PlainIsUpToDate(env, db, full, x, i);
        } else {
          var pos :| Thinned(full, comp, pos);
          var a := PairShape(env, full, past, q, x, now, comp, comp', pos);
          assert (full + [x])[i] == full[i];
          GoneStaysUnknown(env, full, r.tfid);
        }
      }
    }
  }

  /** On a plain trace nothing that is left out does harm, however the reads and pushes went. */
  lemma {:induction false} PlainIsHarmless(env: Env, db: Db, steps: seq<Step>)
    requires ValidSteps(steps) && ValidTrace(env, After(steps).full) && Rooted(db) && Plain(env, db, After(steps).full)
    ensures AllHarmless(env, db, steps)
  {
    if steps != [] {
      var s, t := steps[|steps| - 1], After(steps[..|steps| - 1]);
      ValidBefore(env, steps);
      PlainPrefix(env, db, After(steps).full, |t.full|);
      PlainIsHarmless(env, db, steps[..|steps| - 1]);
      if s.Read? {
        var comp, comp' := t.past + t.queue, t.past + Process(t.queue, s.r, s.now);
        CompactionPreservesMeaning(env, db, steps[..|steps| - 1]);
        PlainAllows(env, db, t.full, t.past, t.queue, s.r, s.now, comp, comp');
        HarmlessByRow(env, db, t.full, t.past, t.queue, s.r, s.now, comp, comp');
      }
    }
  }

  /**
   * Compaction preserves the meaning of every plain trace: new creations, any records in between,
   * whatever was pushed when, and a database with anything else in it.
   */
  lemma PlainKeepsMeaning(env: Env, db: Db, steps: seq<Step>)
    requires ValidSteps(steps) && ValidTrace(env, After(steps).full) && Rooted(db) && Plain(env, db, After(steps).full)
    ensures var t := After(steps); Replay(env, db, t.past + t.queue) == Replay(env, db, t.full)
  {
    PlainIsHarmless(env, db, steps);
    CompactionPreservesMeaning(env, db, steps);
  }

  /** A new file is written, gets a second name and loses the first: such a trace is plain. */
  lemma UsualTraceIsPlain(env: Env, db: Db, c: Item, e: Item, h: Item, u: Item)
    requires c.rec.kind.Create? && e.rec.kind.Close? && h.rec.kind.Hardlink? && u.rec.kind.Unlink? && !u.rec.last
    requires e.rec.tfid == h.rec.tfid == u.rec.tfid == c.rec.tfid && e.rec.name == ""
    requires c.rec.tfid in env.fs && env.fs[c.rec.tfid].nlink == 1 && c.rec.tfid !in db.entries
    ensures ValidTrace(env, [c, e, h, u]) && Plain(env, db, [c, e, h, u])
  {
    var s := [c, e, h, u];
    assert s[2] == h && !NoOtherName(s, 0, 3);
    assert Anchored(env, s, c.rec.tfid, 0, 1);
  }
}
