/**
 * Leaving records out preserves meaning: replaying the queue as compacted gives the database that
 * replaying every record gives, exactly as long as every merged record is quiet and every cancelled
 * creation is of an entry the database does not know.
 */
module Compaction {
  import opened Common
  import opened Changelog
  import opened RecordReplay

  /* ---- the compacted trace inside the full one ---- */

  /** Merging changes the index of a record, and nothing that its replay depends on. */
  ghost predicate SameRec(a: Rec, b: Rec) {
    a == b.(index := a.index)
  }

  predicate Droppable(k: Kind) { IsAttr(k) || k.Mark? || Creates(k) || Removes(k) }

  /** `comp[i]` is the record at `pos[i]` of `full`; what `comp` lacks could be left out. */
  ghost predicate Thinned(full: seq<Item>, comp: seq<Item>, pos: seq<nat>) {
    && |pos| == |comp| && Increasing(pos)
    && (forall i :: 0 <= i < |pos| ==> pos[i] < |full| && SameRec(comp[i].rec, full[pos[i]].rec))
    && (forall p :: 0 <= p < |full| && p !in pos ==> Droppable(full[p].rec.kind))
  }

  lemma UpsertSame(env: Env, db: Db, a: Rec, b: Rec)
    requires SameRec(a, b)
    ensures Upsert(env, db, a) == Upsert(env, db, b)
  {
  }

  lemma RemovalSame(db: Db, a: Rec, b: Rec)
    requires SameRec(a, b)
    ensures RemoveLast(db, a) == RemoveLast(db, b) && RemoveOne(db, a) == RemoveOne(db, b)
    ensures IsLast(db, a) == IsLast(db, b)
  {
    assert WithoutName(db.names, a) == WithoutName(db.names, b);
  }

  lemma EffectSame(env: Env, db: Db, a: Rec, b: Rec)
    requires SameRec(a, b)
    ensures Effect(env, db, a) == Effect(env, db, b)
  {
    UpsertSame(env, db, a, b);
    RemovalSame(db, a, b);
  }

  lemma {:induction false} ReplaySame(env: Env, db: Db, a: seq<Item>, b: seq<Item>)
    requires |a| == |b| && forall i :: 0 <= i < |a| ==> SameRec(a[i].rec, b[i].rec)
    ensures Replay(env, db, a) == Replay(env, db, b)
  {
    if a != [] {
      var n := |a| - 1;
      ReplaySame(env, db, a[..n], b[..n]);
      EffectSame(env, Replay(env, db, a[..n]), a[n].rec, b[n].rec);
    }
  }

  /** The records the reader takes from the log when it leaves nothing out. */
  function AllOf(r: Rec, now: int): (s: seq<Item>)
    requires Readable(r)
  {
    if r.kind.OutOfBounds? then [] else Enqueued(r, now)
  }

  lemma ThinnedMerge(full: seq<Item>, comp: seq<Item>, pos: seq<nat>, comp': seq<Item>, x: Item)
    requires Thinned(full, comp, pos) && Droppable(x.rec.kind) && |comp'| == |comp|
    requires forall i :: 0 <= i < |comp| ==> SameRec(comp'[i].rec, comp[i].rec)
    ensures Thinned(full + [x], comp', pos)
  {
  }

  lemma ThinnedIgnore(full: seq<Item>, comp: seq<Item>, pos: seq<nat>, x: Item)
    requires Thinned(full, comp, pos) && Droppable(x.rec.kind)
    ensures exists pos' :: Thinned(full + [x], comp, pos')
  {
    ThinnedMerge(full, comp, pos, comp, x);
  }

  lemma ThinnedCancel(full: seq<Item>, comp: seq<Item>, pos: seq<nat>, a: nat, x: Item, comp': seq<Item>, pos': seq<nat>)
    requires Thinned(full, comp, pos) && CutAt(comp, a, comp') && CutAt(pos, a, pos')
    requires Droppable(comp[a].rec.kind) && Droppable(x.rec.kind)
    ensures Thinned(full + [x], comp', pos')
  {
    forall p | 0 <= p < |full| && p !in pos' ensures Droppable(full[p].rec.kind) {
      StillThere(pos, a, pos', p);
      assert SameRec(comp[a].rec, full[pos[a]].rec);
    }
    forall i | 0 <= i < |pos'| ensures pos'[i] < |full| && SameRec(comp'[i].rec, full[pos'[i]].rec) {
      var j := if i < a then i else i + 1;
      assert pos'[i] == pos[j] && comp'[i] == comp[j];
    }
    CutIncreasing(pos, a, pos');
  }

  lemma CutIncreasing(pos: seq<nat>, a: nat, pos': seq<nat>)
    requires Increasing(pos) && CutAt(pos, a, pos')
    ensures Increasing(pos')
  {
    forall i, j | 0 <= i < j < |pos'| ensures pos'[i] < pos'[j] {
      var i', j' := if i < a then i else i + 1, if j < a then j else j + 1;
      assert pos'[i] == pos[i'] && pos'[j] == pos[j'];
    }
  }

  lemma StillThere(pos: seq<nat>, a: nat, pos': seq<nat>, p: nat)
    requires CutAt(pos, a, pos')
    ensures p in pos ==> p == pos[a] || p in pos'
  {
    forall i | 0 <= i < |pos| && i != a ensures pos[i] in pos' {
      assert pos[i] == if i < a then pos'[i] else pos'[i - 1];
    }
  }

  lemma {:induction false} ThinnedKeep(full: seq<Item>, comp: seq<Item>, pos: seq<nat>, more: seq<Item>) returns (pos': seq<nat>)
    requires Thinned(full, comp, pos)
    ensures Thinned(full + more, comp + more, pos')
    decreases |more|
  {
    if more == [] {
      assert full + more == full && comp + more == comp;
      pos' := pos;
    } else {
      var n := |more| - 1;
      pos' := ThinnedKeep(full, comp, pos, more[..n]);
      ThinnedAppend(full + more[..n], comp + more[..n], pos', more[n]);
      assert full + more == full + more[..n] + [more[n]] && comp + more == comp + more[..n] + [more[n]];
      pos' := pos' + [|full| + n];
    }
  }

  lemma ThinnedAppend(full: seq<Item>, comp: seq<Item>, pos: seq<nat>, x: Item)
    requires Thinned(full, comp, pos)
    ensures Thinned(full + [x], comp + [x], pos + [|full|])
  {
    var pos' := pos + [|full|];
    forall p | 0 <= p < |full + [x]| && p !in pos' ensures Droppable((full + [x])[p].rec.kind) {
      assert pos'[|pos|] == |full|;
      assert forall i :: 0 <= i < |pos| ==> pos'[i] == pos[i];
    }
  }

  lemma CancelThinned(full: seq<Item>, comp: seq<Item>, pos: seq<nat>, a: nat, x: Item, comp': seq<Item>)
    requires Thinned(full, comp, pos) && a < |comp| && Droppable(comp[a].rec.kind) && Droppable(x.rec.kind)
    requires comp' == comp[..a] + comp[a + 1..]
    ensures exists pos' :: Thinned(full + [x], comp', pos')
  {
    ThinnedCancel(full, comp, pos, a, x, comp', pos[..a] + pos[a + 1..]);
  }

  /* ---- cancelled pairs ---- */

  /** A removal that meets the creation in the queue: the entry is gone. */
  lemma CancelledIsGone(env: Env, full: seq<Item>, comp: seq<Item>, pos: seq<nat>, a: nat, x: Item)
    requires Thinned(full, comp, pos) && ValidTrace(env, full + [x]) && a < |comp|
    requires comp[a].rec.tfid == x.rec.tfid && Creates(comp[a].rec.kind) && Removes(x.rec.kind)
    requires forall i :: a < i < |comp| ==> comp[i].rec.tfid != x.rec.tfid
    ensures x.rec.tfid !in env.fs
  {
    var full' := full + [x];
    assert ValidAt(env, full', |full|);
    assert SameRec(comp[a].rec, full[pos[a]].rec);
    forall m | pos[a] < m < |full| && full'[m].rec.tfid == x.rec.tfid
      ensures !full'[m].rec.kind.Hardlink? && !full'[m].rec.kind.Ext?
    {
      forall i | 0 <= i < |pos| ensures pos[i] != m {
        assert SameRec(comp[i].rec, full[pos[i]].rec);
      }
    }
    assert NoOtherName(full', pos[a], |full|);
  }

  /** A creation at `a` and a removal of an entry that is gone, with nothing about it behind the creation. */
  ghost predicate Pair(env: Env, comp: seq<Item>, a: nat, x: Item) {
    && a < |comp| && comp[a].rec.tfid == x.rec.tfid && Creates(comp[a].rec.kind) && Removes(x.rec.kind)
    && x.rec.tfid !in env.fs && forall i :: a < i < |comp| ==> comp[i].rec.tfid != x.rec.tfid
  }

  /** Leaving out a record that has no effect where it stands. */
  lemma LeaveOut(env: Env, db: Db, s: seq<Item>, a: nat)
    requires a < |s| && Effect(env, Replay(env, db, s[..a]), s[a].rec) == Replay(env, db, s[..a])
    ensures Replay(env, db, s[..a] + s[a + 1..]) == Replay(env, db, s)
  {
    assert s[..a + 1][..a] == s[..a];
    assert Replay(env, db, s[..a + 1]) == Replay(env, db, s[..a]);
    ReplayConcat(env, db, s[..a], s[a + 1..]);
    ReplayConcat(env, db, s[..a + 1], s[a + 1..]);
    assert s == s[..a + 1] + s[a + 1..];
  }

  lemma SplitAt(env: Env, db: Db, s: seq<Item>, a: nat)
    requires a < |s|
    ensures Replay(env, db, s) == Replay(env, Effect(env, Replay(env, db, s[..a]), s[a].rec), s[a + 1..])
    ensures Replay(env, db, s[..a] + s[a + 1..]) == Replay(env, Replay(env, db, s[..a]), s[a + 1..])
  {
    assert s[..a + 1] == s[..a] + [s[a]] && s == s[..a + 1] + s[a + 1..];
    ReplayOne(env, db, s[..a], s[a]);
    ReplayConcat(env, db, s[..a + 1], s[a + 1..]);
    ReplayConcat(env, db, s[..a], s[a + 1..]);
  }

  /** `comp'` is `comp` without the creation of a cancelled pair. */
  ghost predicate Cancels(env: Env, comp: seq<Item>, a: nat, x: Item, comp': seq<Item>) {
    Pair(env, comp, a, x) && comp' == comp[..a] + comp[a + 1..]
  }

  /** Without the pair, the entry is as it was before the creation. */
  lemma AsBefore(env: Env, db: Db, comp: seq<Item>, a: nat, x: Item, comp': seq<Item>)
    requires Cancels(env, comp, a, x, comp')
    ensures SameEntry(Replay(env, db, comp'), Replay(env, db, comp[..a]), x.rec.tfid)
  {
    SplitAt(env, db, comp, a);
    OthersLeaveAlone(env, Replay(env, db, comp[..a]), comp[a + 1..], x.rec.tfid);
  }

  /** A pair about an entry the database does not know changes nothing, whatever is in between. */
  lemma CancelledIsInert(env: Env, db: Db, comp: seq<Item>, a: nat, x: Item, comp': seq<Item>)
    requires Cancels(env, comp, a, x, comp') && x.rec.tfid !in Replay(env, db, comp').entries
    ensures Effect(env, Replay(env, db, comp), x.rec) == Replay(env, db, comp')
  {
    AsBefore(env, db, comp, a, x, comp');
    GoneIsInert(env, Replay(env, db, comp[..a]), comp[a].rec);
    LeaveOut(env, db, comp, a);
    GoneIsInert(env, Replay(env, db, comp), x.rec);
  }

  /** A creation of a known entry that is gone does not change what is known of it. */
  lemma KnownStays(env: Env, db: Db, x: Rec)
    requires Creates(x.kind) && x.tfid in db.entries && x.tfid !in env.fs
    ensures SameEntry(Effect(env, db, x), db, x.tfid)
  {
  }

  /** With the creation and without it, a known entry that is gone is still known, with its links. */
  lemma KnownBehindPair(env: Env, db: Db, comp: seq<Item>, a: nat, x: Item, comp': seq<Item>)
    requires Cancels(env, comp, a, x, comp') && x.rec.tfid in Replay(env, db, comp').entries
    ensures SameEntry(Replay(env, db, comp), Replay(env, db, comp'), x.rec.tfid)
  {
    var e := Replay(env, db, comp[..a]);
    AsBefore(env, db, comp, a, x, comp');
    SplitAt(env, db, comp, a);
    KnownStays(env, e, comp[a].rec);
    OthersLeaveAlone(env, Effect(env, e, comp[a].rec), comp[a + 1..], x.rec.tfid);
  }

  lemma CancelledIsSeen(env: Env, full: seq<Item>, db: Db, comp: seq<Item>, a: nat, x: Item, comp': seq<Item>)
    requires Cancels(env, comp, a, x, comp') && Tracked(db) && x.rec.tfid in Replay(env, db, comp').entries
    requires ValidTrace(env, full)
    ensures !Indistinguishable(env, full, Effect(env, Replay(env, db, comp), x.rec), Replay(env, db, comp'))
  {
    ReplayTracked(env, db, comp');
    KnownBehindPair(env, db, comp, a, x, comp');
    RemovalIsSeen(env, full, Replay(env, db, comp), Replay(env, db, comp'), x.rec);
  }

  /** Removing an entry that is gone, or one link of it, is seen by what did not remove it. */
  lemma RemovalIsSeen(env: Env, full: seq<Item>, d: Db, d0: Db, x: Rec)
    requires Removes(x.kind) && x.tfid in d.entries && x.tfid in d.links && SameEntry(d, d0, x.tfid) && ValidTrace(env, full)
    ensures !Indistinguishable(env, full, Effect(env, d, x), d0)
  {
    var d1 := Effect(env, d, x);
    if x.tfid !in d1.entries {
      EntriesTellApart(env, full, d1, d0);
    } else {
      assert Fewer(d0, d1, x.tfid) && d0.links[x.tfid] > 1;
      CountsAreSeen(env, full, d0, d1, x.tfid);
    }
  }

  /** Cancelling a pair cannot be told, however the trace goes on, exactly when the database does not know the entry without it. */
  lemma CancelExactly(env: Env, full: seq<Item>, db: Db, comp: seq<Item>, a: nat, x: Item, comp': seq<Item>)
    requires Cancels(env, comp, a, x, comp') && Tracked(db) && ValidTrace(env, full)
    ensures Indistinguishable(env, full, Effect(env, Replay(env, db, comp), x.rec), Replay(env, db, comp'))
       <==> x.rec.tfid !in Replay(env, db, comp').entries
  {
    if x.rec.tfid in Replay(env, db, comp').entries {
      CancelledIsSeen(env, full, db, comp, a, x, comp');
    } else {
      CancelledIsInert(env, db, comp, a, x, comp');
    }
  }

  /* ---- reading one record ---- */

  /** Where, in everything pushed and queued, a record is merged or cancelled. */
  lemma DroppedShape(past: seq<Item>, q: seq<Item>, r: Rec, now: int, comp: seq<Item>, comp': seq<Item>) returns (a: nat)
    requires Readable(r) && !r.kind.OutOfBounds? && (Decide(q, r).MergeInto? || Decide(q, r).CancelWith?)
    requires comp == past + q && comp' == past + Process(q, r, now)
    ensures a < |comp| && comp[a].rec.tfid == r.tfid && a == |past| + Decide(q, r).at
    ensures Decide(q, r).MergeInto? ==>
      && IsAttr(r.kind) && (IsAttr(comp[a].rec.kind) || Creates(comp[a].rec.kind))
      && |comp'| == |comp| && forall i :: 0 <= i < |comp| ==> SameRec(comp'[i].rec, comp[i].rec)
    ensures Decide(q, r).CancelWith? ==>
      && Removes(r.kind) && Creates(comp[a].rec.kind) && comp' == comp[..a] + comp[a + 1..]
      && forall i :: a < i < |comp| ==> comp[i].rec.tfid != r.tfid
  {
    var d := Decide(q, r);
    a := |past| + d.at;
    assert comp[a] == q[d.at];
    assert forall i :: a < i < |comp| ==> comp[i] == q[i - |past|];
  }

  /** The full trace and the compacted one replay to the same database. */
  ghost predicate Alike(env: Env, db: Db, full: seq<Item>, comp: seq<Item>) {
    && Replay(env, db, full) == Replay(env, db, comp)
    && exists pos :: Thinned(full, comp, pos)
  }

  /**
   * What leaving a record out asks of the database of that moment: a merged record is quiet, the entry
   * of a cancelled pair is unknown without the pair, and an ignored mark is silent. `comp` is
   * everything pushed and queued before the record and `comp'` after it.
   */
  ghost predicate Harmless(env: Env, db: Db, comp: seq<Item>, comp': seq<Item>, q: seq<Item>, r: Rec) {
    r.kind.OutOfBounds? ||
    match Decide(q, r)
    case Keep => true
    case Ignore => Silent(env, Replay(env, db, comp), r)
    case MergeInto(_) => Quiet(env, Replay(env, db, comp), r)
    case CancelWith(_) => r.tfid !in Replay(env, db, comp').entries
  }

  lemma FullGrows(env: Env, db: Db, full: seq<Item>, comp: seq<Item>, x: Item)
    requires Replay(env, db, full) == Replay(env, db, comp)
    ensures Replay(env, db, full + [x]) == Effect(env, Replay(env, db, comp), x.rec)
  {
    ReplayOne(env, db, full, x);
  }

  lemma NamelessAttr(env: Env, full: seq<Item>, x: Item)
    requires ValidTrace(env, full + [x]) && IsAttr(x.rec.kind)
    ensures x.rec.name == ""
  {
    assert ValidAt(env, full + [x], |full|);
  }

  lemma MergeAlike(env: Env, db: Db, full: seq<Item>, comp: seq<Item>, pos: seq<nat>, x: Item, comp': seq<Item>)
    requires Thinned(full, comp, pos) && ValidTrace(env, full + [x]) && Replay(env, db, full) == Replay(env, db, comp)
    requires IsAttr(x.rec.kind) && Quiet(env, Replay(env, db, comp), x.rec)
    requires |comp'| == |comp| && forall i :: 0 <= i < |comp| ==> SameRec(comp'[i].rec, comp[i].rec)
    ensures Alike(env, db, full + [x], comp')
  {
    NamelessAttr(env, full, x);
    FullGrows(env, db, full, comp, x);
    QuietIsInert(env, Replay(env, db, comp), x.rec);
    ReplaySame(env, db, comp', comp);
    ThinnedMerge(full, comp, pos, comp', x);
  }

  lemma CancelAlike(env: Env, db: Db, full: seq<Item>, comp: seq<Item>, pos: seq<nat>, a: nat, x: Item, comp': seq<Item>)
    requires Thinned(full, comp, pos) && Replay(env, db, full) == Replay(env, db, comp)
    requires Cancels(env, comp, a, x, comp') && x.rec.tfid !in Replay(env, db, comp').entries
    ensures Alike(env, db, full + [x], comp')
  {
    FullGrows(env, db, full, comp, x);
    CancelledIsInert(env, db, comp, a, x, comp');
    CancelThinned(full, comp, pos, a, x, comp');
  }

  lemma IgnoreAlike(env: Env, db: Db, full: seq<Item>, comp: seq<Item>, pos: seq<nat>, x: Item)
    requires Thinned(full, comp, pos) && Replay(env, db, full) == Replay(env, db, comp)
    requires x.rec.kind.Mark? && Silent(env, Replay(env, db, comp), x.rec)
    ensures Alike(env, db, full + [x], comp)
  {
    FullGrows(env, db, full, comp, x);
    SilentIsInert(env, Replay(env, db, comp), x.rec);
    ThinnedIgnore(full, comp, pos, x);
  }

  lemma KeepAlike(env: Env, db: Db, full: seq<Item>, comp: seq<Item>, pos: seq<nat>, more: seq<Item>)
    requires Thinned(full, comp, pos) && Replay(env, db, full) == Replay(env, db, comp)
    ensures Alike(env, db, full + more, comp + more)
  {
    ReplayConcat(env, db, full, more);
    ReplayConcat(env, db, comp, more);
    var pos' := ThinnedKeep(full, comp, pos, more);
  }

  /** `comp` is `past` and the queue `q`, and `comp'` what they become when `r` is read. */
  ghost predicate Reads(past: seq<Item>, q: seq<Item>, r: Rec, now: int, comp: seq<Item>, comp': seq<Item>) {
    Readable(r) && comp == past + q && comp' == past + Process(q, r, now)
  }

  /** Reading a record keeps the two traces alike if leaving it out is harmless; `past` was pushed before. */
  lemma ReadAlike(env: Env, db: Db, full: seq<Item>, past: seq<Item>, q: seq<Item>, r: Rec, now: int, comp: seq<Item>, comp': seq<Item>)
    requires Reads(past, q, r, now, comp, comp') && Alike(env, db, full, comp) && ValidTrace(env, full + AllOf(r, now))
    requires Harmless(env, db, comp, comp', q, r)
    ensures Alike(env, db, full + AllOf(r, now), comp')
  {
    var pos :| Thinned(full, comp, pos);
    if r.kind.OutOfBounds? || Decide(q, r).Keep? {
      KeptShape(past, q, r, now);
      KeepAlike(env, db, full, comp, pos, AllOf(r, now));
    } else {
      AllOfDropped(q, r, now);
      ReadDropped(env, db, full, past, q, Item(r, now, {r.index}), now, comp, comp', pos);
    }
  }

  lemma KeptShape(past: seq<Item>, q: seq<Item>, r: Rec, now: int)
    requires Readable(r) && (r.kind.OutOfBounds? || Decide(q, r).Keep?)
    ensures past + Process(q, r, now) == (past + q) + AllOf(r, now)
  {
    assert Process(q, r, now) == q + AllOf(r, now);
  }

  /** A record that is left out is alone in the full trace. */
  lemma AllOfDropped(q: seq<Item>, r: Rec, now: int)
    requires Readable(r) && !r.kind.OutOfBounds? && !Decide(q, r).Keep?
    ensures AllOf(r, now) == [Item(r, now, {r.index})]
  {
  }

  lemma ReadDropped(env: Env, db: Db, full: seq<Item>, past: seq<Item>, q: seq<Item>, x: Item, now: int, comp: seq<Item>, comp': seq<Item>, pos: seq<nat>)
    requires Reads(past, q, x.rec, now, comp, comp') && !x.rec.kind.OutOfBounds? && !Decide(q, x.rec).Keep?
    requires Thinned(full, comp, pos) && ValidTrace(env, full + [x]) && Replay(env, db, full) == Replay(env, db, comp)
    requires Harmless(env, db, comp, comp', q, x.rec)
    ensures Alike(env, db, full + [x], comp')
  {
    match Decide(q, x.rec)
    case Ignore =>
      assert comp' == comp;
      IgnoreAlike(env, db, full, comp, pos, x);
    case MergeInto(_) =>
      var a := DroppedShape(past, q, x.rec, now, comp, comp');
      MergeAlike(env, db, full, comp, pos, x, comp');
    case CancelWith(_) =>
      var a := PairShape(env, full, past, q, x, now, comp, comp', pos);
      CancelAlike(env, db, full, comp, pos, a, x, comp');
  }

  /** A cancellation is of a creation and a removal of an entry that is gone. */
  lemma PairShape(env: Env, full: seq<Item>, past: seq<Item>, q: seq<Item>, x: Item, now: int, comp: seq<Item>, comp': seq<Item>, pos: seq<nat>)
    returns (a: nat)
    requires Reads(past, q, x.rec, now, comp, comp') && !x.rec.kind.OutOfBounds? && Decide(q, x.rec).CancelWith?
    requires Thinned(full, comp, pos) && ValidTrace(env, full + [x])
    ensures Cancels(env, comp, a, x, comp')
  {
    a := DroppedShape(past, q, x.rec, now, comp, comp');
    CancelledIsGone(env, full, comp, pos, a, x);
  }

  /** When leaving a record out is not harmless, some possible continuation tells the two databases apart. */
  lemma HarmIsSeen(env: Env, db: Db, full: seq<Item>, past: seq<Item>, q: seq<Item>, x: Item, now: int, comp: seq<Item>, comp': seq<Item>, pos: seq<nat>)
    requires Reads(past, q, x.rec, now, comp, comp') && !x.rec.kind.OutOfBounds?
    requires Thinned(full, comp, pos) && ValidTrace(env, full + [x]) && Replay(env, db, full) == Replay(env, db, comp)
    requires !Harmless(env, db, comp, comp', q, x.rec) && Tracked(db)
    ensures !Indistinguishable(env, full + [x], Replay(env, db, full + [x]), Replay(env, db, comp'))
  {
    FullGrows(env, db, full, comp, x);
    if Decide(q, x.rec).Ignore? {
      assert comp' == comp;
      MarkIsSeen(env, full + [x], Replay(env, db, comp), x.rec);
    } else if Decide(q, x.rec).MergeInto? {
      var a := DroppedShape(past, q, x.rec, now, comp, comp');
      NamelessAttr(env, full, x);
      LoudIsSeen(env, full + [x], Replay(env, db, comp), x.rec);
      ReplaySame(env, db, comp', comp);
    } else {
      var a := PairShape(env, full, past, q, x, now, comp, comp', pos);
      CancelledIsSeen(env, full + [x], db, comp, a, x, comp');
    }
  }

  /* ---- whole runs of the reader ---- */

  datatype Step = Read(r: Rec, now: int) | PushFirst

  datatype Trace = Trace(full: seq<Item>, past: seq<Item>, queue: seq<Item>)

  ghost predicate ValidSteps(steps: seq<Step>) {
    forall i :: 0 <= i < |steps| && steps[i].Read? ==> Readable(steps[i].r)
  }

  function Next(t: Trace, s: Step): (t': Trace)
    requires s.Read? ==> Readable(s.r)
  {
    match s
    case Read(r, now) => Trace(t.full + AllOf(r, now), t.past, Process(t.queue, r, now))
    case PushFirst =>
      if t.queue == [] then t else Trace(t.full, t.past + [t.queue[0]], t.queue[1..])
  }

  /** Everything read, everything pushed, and what is left in the queue after `steps`. */
  function After(steps: seq<Step>): (t: Trace)
    requires ValidSteps(steps)
  {
    if steps == [] then Trace([], [], [])
    else Next(After(steps[..|steps| - 1]), steps[|steps| - 1])
  }

  lemma PushKeepsTrace(t: Trace)
    ensures var t' := Next(t, PushFirst); t'.full == t.full && t'.past + t'.queue == t.past + t.queue
  {
  }

  ghost predicate HarmlessRead(env: Env, db: Db, t: Trace, r: Rec, now: int)
    requires Readable(r)
  {
    Harmless(env, db, t.past + t.queue, t.past + Process(t.queue, r, now), t.queue, r)
  }

  /** Every record left out by the steps was left out harmlessly. */
  ghost predicate AllHarmless(env: Env, db: Db, steps: seq<Step>)
    requires ValidSteps(steps)
  {
    steps == [] ||
    var t, s := After(steps[..|steps| - 1]), steps[|steps| - 1];
    AllHarmless(env, db, steps[..|steps| - 1]) && (s.Read? ==> HarmlessRead(env, db, t, s.r, s.now))
  }

  /**
   * Whatever was read, merged, cancelled and pushed, and whatever the database held before: replaying
   * what is pushed and queued gives the database that replaying every record gives.
   */
  lemma {:induction false} CompactionPreservesMeaning(env: Env, db: Db, steps: seq<Step>)
    requires ValidSteps(steps) && ValidTrace(env, After(steps).full) && AllHarmless(env, db, steps)
    ensures Alike(env, db, After(steps).full, After(steps).past + After(steps).queue)
  {
    if steps == [] {
      assert Thinned([], [], []);
    } else {
      var s := steps[|steps| - 1];
      var t := After(steps[..|steps| - 1]);
      if s.Read? {
        assert (t.full + AllOf(s.r, s.now))[..|t.full|] == t.full;
        ValidPrefix(env, t.full + AllOf(s.r, s.now), |t.full|);
        CompactionPreservesMeaning(env, db, steps[..|steps| - 1]);
        ReadAlike(env, db, t.full, t.past, t.queue, s.r, s.now, t.past + t.queue, t.past + Process(t.queue, s.r, s.now));
      } else {
        CompactionPreservesMeaning(env, db, steps[..|steps| - 1]);
        PushKeepsTrace(t);
      }
    }
  }

  /**
   * The condition is exact: after harmless steps, reading one more record gives databases that no
   * continuation of the trace tells apart if and only if leaving it out, or not, is harmless.
   */
  lemma HarmlessExactly(env: Env, db: Db, steps: seq<Step>, r: Rec, now: int)
    requires ValidSteps(steps) && Readable(r) && Tracked(db) && AllHarmless(env, db, steps)
    requires ValidTrace(env, After(steps).full + AllOf(r, now))
    ensures var t := After(steps);
      Indistinguishable(env, t.full + AllOf(r, now),
                        Replay(env, db, t.full + AllOf(r, now)), Replay(env, db, t.past + Process(t.queue, r, now)))
      <==> HarmlessRead(env, db, t, r, now)
  {
    var t := After(steps);
    assert (t.full + AllOf(r, now))[..|t.full|] == t.full;
    ValidPrefix(env, t.full + AllOf(r, now), |t.full|);
    CompactionPreservesMeaning(env, db, steps);
    ReadExactly(env, db, t.full, t.past, t.queue, r, now, t.past + t.queue, t.past + Process(t.queue, r, now));
  }

  lemma ReadExactly(env: Env, db: Db, full: seq<Item>, past: seq<Item>, q: seq<Item>, r: Rec, now: int, comp: seq<Item>, comp': seq<Item>)
    requires Reads(past, q, r, now, comp, comp') && Tracked(db) && Alike(env, db, full, comp)
    requires ValidTrace(env, full + AllOf(r, now))
    ensures Indistinguishable(env, full + AllOf(r, now), Replay(env, db, full + AllOf(r, now)), Replay(env, db, comp'))
       <==> Harmless(env, db, comp, comp', q, r)
  {
    if Harmless(env, db, comp, comp', q, r) {
      ReadAlike(env, db, full, past, q, r, now, comp, comp');
    } else {
      var pos :| Thinned(full, comp, pos);
      AllOfDropped(q, r, now);
      HarmIsSeen(env, db, full, past, q, Item(r, now, {r.index}), now, comp, comp', pos);
    }
  }

  /* ---- where the conditions do not hold ---- */

  lemma CloseMeetsCreate(c: Item, h: Item, e: Rec)
    requires c.rec.kind.Create? && h.rec.kind.Hardlink? && e.kind.Close? && h.rec.tfid == e.tfid == c.rec.tfid
    ensures Decide([c, h], e) == MergeInto(0)
  {
    assert [c, h][..1] == [c];
    assert Scan([c, h], e) == Scan([c], e);
    assert Scan([c], e) == MergeInto(0);
  }

  /**
   * A file gets a second name, is closed, and loses the first. Its link count, read at the close, is
   * the one of today: replaying every record takes the unlink for the last one and drops the file.
   * The compacted queue has no close, and keeps it.
   */
  lemma LinkCountsMislead(env: Env, db: Db, c: Item, h: Item, e: Item, u: Item)
    requires env.policy.Always? && c.rec.tfid in env.fs && env.fs[c.rec.tfid].nlink == 1 && c.rec.tfid !in db.entries
    requires c.rec.kind.Create? && h.rec.kind.Hardlink? && e.rec.kind.Close? && u.rec.kind.Unlink? && !u.rec.last
    requires h.rec.tfid == e.rec.tfid == u.rec.tfid == c.rec.tfid && c.rec.name != "" && h.rec.name != "" && e.rec.name == ""
    ensures Decide([c, h], e.rec) == MergeInto(0) && Decide([Merged(c, e.rec), h], u.rec) == Keep
    ensures c.rec.tfid !in Replay(env, db, [c] + [h] + [e] + [u]).entries
    ensures c.rec.tfid in Replay(env, db, [c] + [h] + [u]).entries
  {
    var f := c.rec.tfid;
    CloseMeetsCreate(c, h, e.rec);
    assert Scan([Merged(c, e.rec), h], u.rec) == Keep;
    assert [] + [c] == [c];
    ReplayOne(env, db, [], c);
    var d1 := Replay(env, db, [c]);
    assert f in d1.entries && f in d1.links && d1.links[f] == 1;
    ReplayOne(env, db, [c], h);
    var d2 := Replay(env, db, [c] + [h]);
    assert f in d2.entries && f in d2.links && d2.links[f] == 2;
    ReplayOne(env, db, [c] + [h], e);
    var d3 := Replay(env, db, [c] + [h] + [e]);
    assert f in d3.entries && f in d3.links && d3.links[f] <= 1;
    ReplayOne(env, db, [c] + [h] + [e], u);
    ReplayOne(env, db, [c] + [h], u);
  }

  lemma CloseMeetsRenamed(c: Item, o: Item, n: Item, e: Rec)
    requires c.rec.kind.Create? && o.rec.kind.Rename? && n.rec.kind.Ext? && e.kind.Close? && c.rec.tfid == e.tfid
    ensures Decide([c, o, n], e) == MergeInto(0)
  {
    assert [c, o, n][..2] == [c, o] && [c, o][..1] == [c];
    assert Scan([c, o, n], e) == Scan([c, o], e) == Scan([c], e) == MergeInto(0);
  }

  /** A creation followed by a rename leaves a count of no links. */
  lemma RenamedCount(env: Env, db: Db, c: Item, o: Item, n: Item)
    requires env.policy.OnEvent? && c.rec.tfid in env.fs && c.rec.kind.Create? && o.rec.kind.Rename? && n.rec.kind.Ext?
    requires c.rec.name != "" && n.rec.name != "" && o.rec.tfid == n.rec.tfid == c.rec.tfid
    ensures var d := Replay(env, db, [c] + [o] + [n]);
      c.rec.tfid in d.entries && c.rec.tfid in d.links && d.links[c.rec.tfid] == 0
  {
    assert [] + [c] == [c];
    ReplayOne(env, db, [], c);
    ReplayOne(env, db, [c], o);
    ReplayOne(env, db, [c] + [o], n);
  }

  /** A second name comes and one goes: the file is dropped exactly when no link was counted before. */
  lemma SecondName(env: Env, db: Db, s: seq<Item>, h: Item, u: Item)
    requires var d := Replay(env, db, s); var f := h.rec.tfid;
      f in d.entries && f in d.links && f in env.fs && h.rec.kind.Hardlink? && h.rec.name != ""
    requires u.rec.kind.Unlink? && !u.rec.last && u.rec.tfid == h.rec.tfid
    ensures h.rec.tfid in Replay(env, db, s + [h] + [u]).entries <==> Replay(env, db, s).links[h.rec.tfid] > 0
  {
    ReplayOne(env, db, s, h);
    ReplayOne(env, db, s + [h], u);
  }

  lemma RenamedTrace(env: Env, c: Item, o: Item, n: Item, e: Item, h: Item, u: Item)
    requires c.rec.kind.Create? && o.rec.kind.Rename? && n.rec.kind.Ext? && e.rec.kind.Close? && h.rec.kind.Hardlink?
    requires u.rec.kind.Unlink? && !u.rec.last && e.rec.name == "" && h.rec.tfid == u.rec.tfid == c.rec.tfid
    ensures ValidTrace(env, [c] + [o] + [n] + [e] + [h] + [u])
  {
    var s := [c] + [o] + [n] + [e] + [h] + [u];
    assert s[0] == c && s[1] == o && s[2] == n && s[3] == e && s[4] == h && s[5] == u;
    assert !NoOtherName(s, 0, 5);
  }

  /**
   * A file is created, renamed, closed, gets a second name and loses the first. The rename takes one
   * link off and adds none; the close reads the count again, but it was merged into the creation. The
   * compacted queue takes the unlink for the last one and drops a file that exists.
   */
  lemma RenamesMislead(env: Env, db: Db, c: Item, o: Item, n: Item, e: Item, h: Item, u: Item)
    requires env.policy.OnEvent? && c.rec.tfid in env.fs && env.fs[c.rec.tfid].nlink == 1
    requires c.rec.kind.Create? && o.rec.kind.Rename? && n.rec.kind.Ext? && e.rec.kind.Close? && h.rec.kind.Hardlink?
    requires u.rec.kind.Unlink? && !u.rec.last && c.rec.name != "" && n.rec.name != "" && h.rec.name != "" && e.rec.name == ""
    requires o.rec.tfid == n.rec.tfid == e.rec.tfid == h.rec.tfid == u.rec.tfid == c.rec.tfid
    ensures Decide([c, o, n], e.rec) == MergeInto(0)
    ensures ValidTrace(env, [c] + [o] + [n] + [e] + [h] + [u])
    ensures c.rec.tfid in Replay(env, db, [c] + [o] + [n] + [e] + [h] + [u]).entries
    ensures c.rec.tfid !in Replay(env, db, [c] + [o] + [n] + [h] + [u]).entries
  {
    CloseMeetsRenamed(c, o, n, e.rec);
    RenamedTrace(env, c, o, n, e, h, u);
    RenamedCount(env, db, c, o, n);
    SecondName(env, db, [c] + [o] + [n], h, u);
    ReplayOne(env, db, [c] + [o] + [n], e);
    SecondName(env, db, [c] + [o] + [n] + [e], h, u);
  }

  /**
   * A directory that the database already knew is not read again when its creation is replayed; a
   * change merged into the creation is then lost.
   */
  lemma KnownDirectory(env: Env, db: Db, c: Item, e: Item)
    requires env.policy.OnEvent? && c.rec.kind.Mkdir? && e.rec.kind.Mtime? && c.rec.tfid == e.rec.tfid
    requires c.rec.tfid in db.entries && c.rec.tfid in env.fs && db.entries[c.rec.tfid] != env.fs[c.rec.tfid].attrs
    ensures Decide([c], e.rec) == MergeInto(0)
    ensures Replay(env, db, [c] + [e]).entries != Replay(env, db, [c]).entries
  {
    var f := c.rec.tfid;
    assert [] + [c] == [c];
    ReplayOne(env, db, [], c);
    var d1 := Replay(env, db, [c]);
    assert f in d1.entries && d1.entries[f] == db.entries[f];
    ReplayOne(env, db, [c], e);
    var d2 := Replay(env, db, [c] + [e]);
    assert f in d2.entries && d2.entries[f] == env.fs[f].attrs;
  }

  /**
   * Records are read again after a crash. A file that was created, applied and removed meanwhile: the
   * creation and the removal meet in the queue and are cancelled without a look at the database, which
   * keeps a row of a file that is gone. Replaying every record removes it.
   */
  lemma StaleRow(env: Env, db: Db, c: Item, u: Item)
    requires c.rec.kind.Create? && u.rec.kind.Unlink? && u.rec.last && c.rec.tfid == u.rec.tfid
    requires c.rec.tfid in db.entries && c.rec.tfid !in env.fs
    ensures Decide([c], u.rec) == CancelWith(0)
    ensures c.rec.tfid !in Replay(env, db, [c] + [u]).entries
    ensures c.rec.tfid in Replay(env, db, []).entries
  {
    assert [] + [c] == [c];
    ReplayOne(env, db, [], c);
    ReplayOne(env, db, [c], u);
  }

  /** A hard link that is read and applied again after a crash is counted again. */
  lemma CountedTwice(env: Env, db: Db, h: Item)
    requires h.rec.kind.Hardlink? && h.rec.name != "" && h.rec.tfid in db.entries && h.rec.tfid in db.links && h.rec.tfid in env.fs
    ensures var d := Replay(env, db, [h] + [h]);
      h.rec.tfid in d.links && d.links[h.rec.tfid] == db.links[h.rec.tfid] + 2
  {
    assert [] + [h] == [h];
    ReplayOne(env, db, [], h);
    ReplayOne(env, db, [h], h);
  }
}
