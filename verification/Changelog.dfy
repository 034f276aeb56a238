/**
 * Changelog records and the queue in which they wait, be merged or cancelled, before they are pushed
 * to the pipeline. This is the reader on plain sequences; the hash table comes in ChangelogReader.
 */
module Changelog {
  import opened Common

  type Fid = nat
  const ZERO_FID: Fid := 0

  datatype Kind =
    | Mark | Create | Mkdir | Hardlink | Softlink | Mknod | Unlink | Rmdir | Rename | Ext
    | Open | Close | Layout | Trunc | Setattr | Xattr | Hsm | Mtime | Ctime | Atime
    | OutOfBounds

  datatype Source = Source(sfid: Fid, spfid: Fid, sname: string)

  /** `source` is set on a rename that comes as one record; `last` tells that the last name goes away. */
  datatype Rec = Rec(kind: Kind, index: nat, tfid: Fid, pfid: Fid, name: string, last: bool, source: Option<Source>)

  datatype Filter = Never | Always | Mask(kinds: set<Kind>) | Cancelling(kinds: set<Kind>)

  /** Which records may be left out, and next to which earlier ones. */
  function FilterOf(k: Kind): (f: Filter) {
    match k
    case Mark => Always
    case Trunc => Mask({Trunc, Close, Mtime, Create})
    case Close => Mask({Trunc, Close, Mtime, Create})
    case Mtime => Mask({Trunc, Close, Mtime, Create, Mknod, Mkdir})
    case Ctime => Mask({Ctime, Setattr, Create, Mknod, Mkdir})
    case Setattr => Mask({Ctime, Setattr, Create, Mknod, Mkdir})
    case Unlink => Cancelling({Create, Mknod})
    case Rmdir => Cancelling({Mkdir})
    case _ => Never
  }

  /** A queued operation, with the indices of the log records that are dealt with once it is processed. */
  datatype Item = Item(rec: Rec, inserted: int, covers: set<nat>)

  datatype Decision = Keep | Ignore | MergeInto(at: nat) | CancelWith(at: nat)

  /** Look for an earlier record on the same fid, from the end of the queue. */
  function Scan(q: seq<Item>, r: Rec): (d: Decision)
    requires FilterOf(r.kind).Mask? || FilterOf(r.kind).Cancelling?
    ensures d.MergeInto? ==> d.at < |q| && q[d.at].rec.tfid == r.tfid && q[d.at].rec.kind in FilterOf(r.kind).kinds
    ensures d.CancelWith? ==> d.at < |q| && q[d.at].rec.tfid == r.tfid && q[d.at].rec.kind in FilterOf(r.kind).kinds
    ensures d.MergeInto? ==> FilterOf(r.kind).Mask?
    ensures d.CancelWith? ==> FilterOf(r.kind).Cancelling?
    ensures d.CancelWith? ==> forall j :: d.at < j < |q| ==> q[j].rec.tfid != r.tfid
    ensures d != Ignore
  {
    if q == [] then Keep
    else
      var n := |q| - 1;
      var x := q[n].rec;
      if x.tfid != r.tfid then Scan(q[..n], r)
      else if x.kind in FilterOf(r.kind).kinds then
        if FilterOf(r.kind).Mask? then MergeInto(n) else CancelWith(n)
      else if FilterOf(r.kind).Mask? then Scan(q[..n], r)
      else Keep
  }

  function Decide(q: seq<Item>, r: Rec): (d: Decision) {
    match FilterOf(r.kind)
    case Never => Keep
    case Always => Ignore
    case _ => Scan(q, r)
  }

  /** The earlier record stands for both; when they are adjacent, so does its acknowledgement. */
  function Merged(x: Item, r: Rec): (y: Item) {
    x.(rec := if r.index == x.rec.index + 1 then x.rec.(index := r.index) else x.rec,
       covers := x.covers + {r.index})
  }

  /** What a rename in one record becomes: drop the overwritten target, drop the old name, add the new one. */
  function Expand(r: Rec, now: int): (s: seq<Item>)
    requires r.source.Some? && r.index > 0
    ensures 2 <= |s| <= 3
    ensures forall i :: 0 <= i < |s| ==> s[i].covers == {r.index}
    ensures forall i :: 0 <= i < |s| - 1 ==> s[i].rec.index == r.index - 1
    ensures s[|s| - 1].rec.index == r.index
  {
    var src := r.source.value;
    (if r.tfid == ZERO_FID then []
     else [Item(Rec(Unlink, r.index - 1, r.tfid, r.pfid, r.name, r.last, None), now, {r.index})])
    + [Item(Rec(Rename, r.index - 1, src.sfid, src.spfid, src.sname, false, None), now, {r.index}),
       Item(r.(kind := Ext, tfid := src.sfid), now, {r.index})]
  }

  /** A record the reader can be given: indices start at 1 and a rename comes in one record. */
  predicate Readable(r: Rec) {
    r.index > 0 && (r.kind.Rename? ==> r.source.Some?)
  }

  function Enqueued(r: Rec, now: int): (s: seq<Item>)
    requires Readable(r)
  {
    if r.kind.Rename? then Expand(r, now)
    else if r.kind.Ext? then []     // no rename is waiting for it
    else [Item(r, now, {r.index})]
  }

  function Process(q: seq<Item>, r: Rec, now: int): (q': seq<Item>)
    requires Readable(r)
  {
    if r.kind.OutOfBounds? then q
    else match Decide(q, r)
      case Ignore => q
      case MergeInto(i) => q[i := Merged(q[i], r)]
      case CancelWith(i) => q[..i] + q[i + 1..]
      case Keep => q + Enqueued(r, now)
  }

  /** The indices that leave the queue unprocessed when `r` is read. */
  function Suppressed(q: seq<Item>, r: Rec): (s: set<nat>)
  {
    if r.kind.OutOfBounds? then {r.index}
    else match Decide(q, r)
      case Ignore => {r.index}
      case MergeInto(i) => {}
      case CancelWith(i) => q[i].covers + {r.index}
      case Keep => if r.kind.Ext? then {r.index} else {}
  }

  /* ---- what is decided ---- */

  /** Once the earlier record is processed, the later one has nothing to tell. */
  predicate MakesNeedless(earlier: Kind, later: Kind) {
    if later == Trunc || later == Close then earlier in {Trunc, Close, Mtime, Create}
    else if later == Mtime then earlier in {Trunc, Close, Mtime, Create, Mknod, Mkdir}
    else if later == Ctime || later == Setattr then earlier in {Ctime, Setattr, Create, Mknod, Mkdir}
    else if later == Unlink then earlier in {Create, Mknod}
    else later == Rmdir && earlier == Mkdir
  }

  ghost predicate Meets(q: seq<Item>, r: Rec, i: nat) {
    i < |q| && q[i].rec.tfid == r.tfid && MakesNeedless(q[i].rec.kind, r.kind)
  }

  /** The table of filters says what makes what needless. */
  lemma FilterMeans(earlier: Kind, later: Kind)
    requires later in {Trunc, Close, Mtime, Ctime, Setattr, Unlink, Rmdir}
    ensures (later in {Unlink, Rmdir} <==> FilterOf(later).Cancelling?) && (FilterOf(later).Mask? || FilterOf(later).Cancelling?)
    ensures earlier in FilterOf(later).kinds <==> MakesNeedless(earlier, later)
  {
  }

  lemma {:induction false} ScanMerges(q: seq<Item>, r: Rec, i: nat)
    requires r.kind in {Trunc, Close, Mtime, Ctime, Setattr}
    ensures Scan(q, r) == MergeInto(i) <==> Meets(q, r, i) && forall j :: i < j < |q| ==> !Meets(q, r, j)
  {
    if q != [] {
      var n := |q| - 1;
      FilterMeans(q[n].rec.kind, r.kind);
      assert forall j :: 0 <= j < n ==> (Meets(q, r, j) <==> Meets(q[..n], r, j));
      if Meets(q, r, n) {
        assert Scan(q, r) == MergeInto(n);
      } else {
        ScanMerges(q[..n], r, i);
        assert Scan(q, r) == Scan(q[..n], r);
      }
    }
  }

  lemma {:induction false} ScanCancels(q: seq<Item>, r: Rec, i: nat)
    requires r.kind in {Unlink, Rmdir}
    ensures Scan(q, r) == CancelWith(i) <==> Meets(q, r, i) && forall j :: i < j < |q| ==> q[j].rec.tfid != r.tfid
  {
    if q != [] {
      var n := |q| - 1;
      FilterMeans(q[n].rec.kind, r.kind);
      assert forall j :: 0 <= j < n ==> q[..n][j] == q[j];
      if q[n].rec.tfid != r.tfid {
        ScanCancels(q[..n], r, i);
      }
    }
  }

  /**
   * A record is merged into the latest record of the queue that makes it needless, if there is one, and
   * a removal is cancelled with the creation of its entry exactly when that is the last record about
   * the entry; marks are ignored, and everything else is kept.
   */
  lemma DecideExactly(q: seq<Item>, r: Rec, i: nat)
    ensures Decide(q, r) == MergeInto(i) <==>
      r.kind !in {Unlink, Rmdir} && Meets(q, r, i) && forall j :: i < j < |q| ==> !Meets(q, r, j)
    ensures Decide(q, r) == CancelWith(i) <==>
      r.kind in {Unlink, Rmdir} && Meets(q, r, i) && forall j :: i < j < |q| ==> q[j].rec.tfid != r.tfid
    ensures Decide(q, r) == Ignore <==> r.kind == Mark
  {
    if r.kind in {Trunc, Close, Mtime, Ctime, Setattr} {
      FilterMeans(r.kind, r.kind);
      ScanMerges(q, r, i);
    } else if r.kind in {Unlink, Rmdir} {
      FilterMeans(r.kind, r.kind);
      ScanCancels(q, r, i);
    }
  }

  /** What each decision makes of the queue: a kept record is appended as it was read. */
  lemma ProcessDoes(q: seq<Item>, r: Rec, now: int)
    requires Readable(r)
    ensures var q', d := Process(q, r, now), Decide(q, r);
      && (r.kind == OutOfBounds || d.Ignore? || (d.Keep? && r.kind == Ext) ==> q' == q)
      && (r.kind !in {OutOfBounds, Ext, Rename} && d.Keep? ==> q' == q + [Item(r, now, {r.index})])
      && (r.kind != OutOfBounds && d.CancelWith? ==> q' == q[..d.at] + q[d.at + 1..])
      && (r.kind != OutOfBounds && d.MergeInto? ==>
            && |q'| == |q| && (forall i :: 0 <= i < |q| && i != d.at ==> q'[i] == q[i])
            && q'[d.at].covers == q[d.at].covers + {r.index} && q'[d.at].inserted == q[d.at].inserted
            && q'[d.at].rec == q[d.at].rec.(index := if q[d.at].rec.index + 1 == r.index then r.index else q[d.at].rec.index))
  {
  }

  /** Suppressed are the record itself, when it is not queued, and what a cancelled creation stood for. */
  lemma SuppressedMeans(q: seq<Item>, r: Rec, k: nat)
    ensures k in Suppressed(q, r) <==>
      || (k == r.index && (r.kind in {OutOfBounds, Mark, Ext} || Decide(q, r).CancelWith?))
      || (r.kind != OutOfBounds && exists i :: 0 <= i < |q| && Decide(q, r) == CancelWith(i) && k in q[i].covers)
  {
    if r.kind in {Unlink, Rmdir} {
      FilterMeans(r.kind, r.kind);
    }
  }

  /* ---- order of the indices ---- */

  ghost predicate NonDecreasing(q: seq<Item>) {
    forall i, j :: 0 <= i < j < |q| ==> q[i].rec.index <= q[j].rec.index
  }

  /** Only the last queued record can have the index read last. */
  ghost predicate UpTo(q: seq<Item>, last: nat) {
    && (forall i :: 0 <= i < |q| ==> q[i].rec.index <= last)
    && (forall i :: 0 <= i < |q| - 1 ==> q[i].rec.index < last)
  }

  /** Acknowledging a record never acknowledges one that comes after it. */
  ghost predicate AckSafe(s: seq<Item>) {
    forall i, j, k :: 0 <= i < j < |s| && k in s[j].covers ==> s[i].rec.index < k
  }

  lemma ProcessUpTo(q: seq<Item>, r: Rec, now: int, last: nat)
    requires Readable(r) && UpTo(q, last) && last < r.index
    ensures UpTo(Process(q, r, now), r.index)
  {
  }

  lemma ProcessNonDecreasing(q: seq<Item>, r: Rec, now: int, last: nat)
    requires Readable(r) && UpTo(q, last) && last < r.index && NonDecreasing(q)
    ensures NonDecreasing(Process(q, r, now))
  {
  }

  /** `past` is what was pushed before; it is not touched. */
  lemma ProcessAckSafe(past: seq<Item>, q: seq<Item>, r: Rec, now: int, last: nat)
    requires Readable(r) && UpTo(q, last) && last < r.index && AckSafe(past + q)
    requires forall i :: 0 <= i < |past| ==> past[i].rec.index <= last
    ensures AckSafe(past + Process(q, r, now))
  {
    var s, q' := past + q, Process(q, r, now);
    var s' := past + q';
    if r.kind.OutOfBounds? || Decide(q, r) == Ignore {
    } else if Decide(q, r).CancelWith? {
      var at := |past| + Decide(q, r).at;
      assert s' == s[..at] + s[at + 1..];
    } else if Decide(q, r).MergeInto? {
      var at := |past| + Decide(q, r).at;
      assert s' == s[at := s'[at]];
      assert s'[at].covers == s[at].covers + {r.index};
      assert s'[at].rec.index != s[at].rec.index ==> at == |s| - 1;
    } else {
      assert s' == s + Enqueued(r, now);
      assert forall i :: 0 <= i < |s| ==> s[i].rec.index <= last;
    }
  }

  /* ---- conservation: no index is forgotten ---- */

  ghost predicate Covered(s: seq<Item>, k: nat) {
    exists i :: 0 <= i < |s| && k in s[i].covers
  }

  lemma ProcessCovers(q: seq<Item>, r: Rec, now: int, k: nat)
    requires Readable(r)
    ensures k == r.index || Covered(q, k) ==> Covered(Process(q, r, now), k) || k in Suppressed(q, r)
    ensures Covered(Process(q, r, now), k) ==> k == r.index || Covered(q, k)
    ensures k in Suppressed(q, r) ==> k == r.index || Covered(q, k)
  {
    var q' := Process(q, r, now);
    if r.kind.OutOfBounds? || Decide(q, r) == Ignore {
    } else if Decide(q, r).CancelWith? {
      var at := Decide(q, r).at;
      assert forall i :: 0 <= i < at ==> q'[i] == q[i];
      assert forall i :: at < i < |q| ==> q'[i - 1] == q[i];
    } else if Decide(q, r).MergeInto? {
      var at := Decide(q, r).at;
      assert r.index in q'[at].covers;
      assert forall i :: 0 <= i < |q| ==> q[i].covers <= q'[i].covers;
    } else {
      assert forall i :: 0 <= i < |q| ==> q'[i] == q[i];
      if !r.kind.Ext? {
        assert r.index in q'[|q|].covers;
      }
    }
  }
}
