/** What replaying records does to the names and to the attributes in the database, read off the records. */
module Namespace {
  import opened Common
  import opened Changelog
  import opened RecordReplay

  /* ---- what one record says ---- */

  /** The record takes the name `key` from its entry. */
  predicate TakesAway(db: Db, x: Rec, key: Key) {
    && x.name != "" && key == Key(x.pfid, x.name)
    && (x.kind == Rename || (x.kind in {Unlink, Rmdir} && x.tfid in db.entries))
  }

  /** The entry is read from the file system for this record. */
  predicate Looks(env: Env, db: Db, x: Rec) {
    || x.tfid !in db.entries || x.kind == Create || env.policy == Policy.Always
    || (env.policy == OnEvent && x.kind in {Mtime, Ctime, Close, Trunc, Hsm, Setattr})
  }

  /** The record gives the name `key` to its entry: its own, or the one looked up for a new entry. */
  predicate HandsOut(env: Env, db: Db, x: Rec, key: Key) {
    && x.kind !in {Unlink, Rmdir, Rename}
    && (Looks(env, db, x) ==> x.tfid in env.fs)
    && if x.name != "" then key == Key(x.pfid, x.name)
       else x.tfid !in db.entries && x.tfid in env.fs && env.fs[x.tfid].path == Some(key)
  }

  lemma RemovalNames(env: Env, db: Db, x: Rec, key: Key)
    requires x.kind in {Unlink, Rmdir, Rename}
    ensures var names := Effect(env, db, x).names;
      if TakesAway(db, x, key) && key in db.names && db.names[key] == x.tfid then key !in names
      else Get(names, key) == Get(db.names, key)
  {
  }

  lemma UpsertNames(env: Env, db: Db, x: Rec, key: Key)
    requires x.kind !in {Unlink, Rmdir, Rename}
    ensures var names := Effect(env, db, x).names;
      if HandsOut(env, db, x, key) then key in names && names[key] == x.tfid
      else Get(names, key) == Get(db.names, key)
  {
  }

  /* ---- whole traces ---- */

  ghost predicate Concerns(env: Env, db: Db, x: Rec, key: Key) {
    TakesAway(db, x, key) || HandsOut(env, db, x, key)
  }

  lemma OneRecord(env: Env, db: Db, x: Rec, key: Key)
    ensures var names := Effect(env, db, x).names;
      && (HandsOut(env, db, x, key) ==> Get(names, key) == Some(x.tfid))
      && (TakesAway(db, x, key) ==> Get(names, key) != Some(x.tfid))
      && (!Concerns(env, db, x, key) ==> Get(names, key) == Get(db.names, key))
  {
    if x.kind in {Unlink, Rmdir, Rename} {
      RemovalNames(env, db, x, key);
    } else {
      UpsertNames(env, db, x, key);
    }
  }

  /** A name that no record from `m` on concerns is as it was before them. */
  lemma {:induction false} NamesLeftAlone(env: Env, db: Db, s: seq<Item>, m: nat, key: Key)
    requires m <= |s| && forall i :: m <= i < |s| ==> !Concerns(env, Replay(env, db, s[..i]), s[i].rec, key)
    ensures Get(Replay(env, db, s).names, key) == Get(Replay(env, db, s[..m]).names, key)
    decreases |s|
  {
    var n := |s| - 1;
    if m == |s| {
      assert s[..m] == s;
    } else {
      forall i | m <= i < n ensures !Concerns(env, Replay(env, db, s[..n][..i]), s[..n][i].rec, key) {
        assert s[..n][..i] == s[..i];
      }
      assert s[..n][..m] == s[..m];
      NamesLeftAlone(env, db, s[..n], m, key);
      OneRecord(env, Replay(env, db, s[..n]), s[n].rec, key);
    }
  }

  /**
   * The law of names. The last record that concerns a name decides: if it gave the name to its entry,
   * the name is that entry's, and if it took it away, the name is not.
   */
  lemma LastRecordDecides(env: Env, db: Db, s: seq<Item>, n: nat, key: Key)
    requires n < |s| && Concerns(env, Replay(env, db, s[..n]), s[n].rec, key)
    requires forall i :: n < i < |s| ==> !Concerns(env, Replay(env, db, s[..i]), s[i].rec, key)
    ensures HandsOut(env, Replay(env, db, s[..n]), s[n].rec, key) ==> Get(Replay(env, db, s).names, key) == Some(s[n].rec.tfid)
    ensures TakesAway(Replay(env, db, s[..n]), s[n].rec, key) ==> Get(Replay(env, db, s).names, key) != Some(s[n].rec.tfid)
  {
    assert s[..n + 1] == s[..n] + [s[n]];
    ReplayOne(env, db, s[..n], s[n]);
    OneRecord(env, Replay(env, db, s[..n]), s[n].rec, key);
    NamesLeftAlone(env, db, s, n + 1, key);
  }

  /** Names that no record of the trace concerns are as the database had them. */
  lemma OtherNamesStay(env: Env, db: Db, s: seq<Item>, key: Key)
    requires forall i :: 0 <= i < |s| ==> !Concerns(env, Replay(env, db, s[..i]), s[i].rec, key)
    ensures Get(Replay(env, db, s).names, key) == Get(db.names, key)
  {
    NamesLeftAlone(env, db, s, 0, key);
  }

  /* ---- the row of an entry ---- */

  /** The links counted after a record that reads the entry. */
  function CountRead(env: Env, db: Db, x: Rec): (n: int)
    requires x.tfid in env.fs
  {
    if x.kind == Create then 1
    else if x.kind == Hardlink && x.tfid in db.links then db.links[x.tfid] + 1
    else env.fs[x.tfid].nlink
  }

  /** What one record does to the row of its entry. */
  lemma OneRow(env: Env, db: Db, x: Rec)
    ensures var d := Effect(env, db, x); var f := x.tfid;
      && (x.kind == Rmdir || (x.kind == Unlink && (x.last || (f in db.links && db.links[f] <= 1))) ==> f !in d.entries)
      && (x.kind == Rename || (x.kind == Unlink && !x.last && f in db.links && db.links[f] > 1) ==>
            && Get(d.entries, f) == Get(db.entries, f)
            && (f in db.entries && f in db.links && db.links[f] > 0 ==> Get(d.links, f) == Some(db.links[f] - 1)))
      && (x.kind !in {Unlink, Rmdir, Rename} && Looks(env, db, x) && f in env.fs
          && (f in db.entries || x.name != "" || env.fs[f].path.Some?) ==>
            Get(d.entries, f) == Some(env.fs[f].attrs) && Get(d.links, f) == Some(CountRead(env, db, x)))
      && (x.kind !in {Unlink, Rmdir, Rename} && Looks(env, db, x) && f !in env.fs ==> d == db)
      && (x.kind !in {Unlink, Rmdir, Rename} && !Looks(env, db, x) ==>
            && Get(d.entries, f) == Get(db.entries, f)
            && (f in db.links ==> Get(d.links, f) == Some(db.links[f] + if x.kind == Hardlink then 1 else 0)))
  {
  }

  /** The law of rows: the last record about an entry decides, and acts on the row that the records before it left. */
  lemma LastRecordOfEntry(env: Env, db: Db, s: seq<Item>, n: nat)
    requires n < |s| && forall i :: n < i < |s| ==> s[i].rec.tfid != s[n].rec.tfid
    ensures SameEntry(Replay(env, db, s), Effect(env, Replay(env, db, s[..n]), s[n].rec), s[n].rec.tfid)
  {
    var first, rest := s[..n + 1], s[n + 1..];
    assert first == s[..n] + [s[n]] && s == first + rest;
    ReplayOne(env, db, s[..n], s[n]);
    ReplayConcat(env, db, first, rest);
    OthersLeaveAlone(env, Replay(env, db, first), rest, s[n].rec.tfid);
  }

  /* ---- renames ---- */

  /** Taking the old name away and giving the new one. */
  lemma OldAndNew(env: Env, db: Db, x: Item, y: Item)
    requires x.rec.kind == Rename && y.rec.kind == Ext && x.rec.tfid == y.rec.tfid && y.rec.tfid in env.fs
    requires x.rec.name != "" && y.rec.name != ""
    ensures var d := Replay(env, db, [x, y]);
      var k, k', f := Key(x.rec.pfid, x.rec.name), Key(y.rec.pfid, y.rec.name), x.rec.tfid;
      && Get(d.names, k') == Some(f) && f in d.entries
      && (k != k' ==> Get(d.names, k) == if Get(db.names, k) == Some(f) then None else Get(db.names, k))
      && (forall key :: key != k && key != k' ==> Get(d.names, key) == Get(db.names, key))
      && (forall g :: g != f ==> Get(d.entries, g) == Get(db.entries, g) && Get(d.links, g) == Get(db.links, g))
  {
    assert [x, y] == [x] + [y] && [x] == [] + [x];
    ReplayOne(env, db, [], x);
    ReplayOne(env, db, [x], y);
  }

  /** Dropping the entry that the new name had. */
  lemma OverwrittenGoes(env: Env, db: Db, x: Rec)
    requires x.kind == Unlink && x.name != ""
    ensures var d := Effect(env, db, x); var t, k := x.tfid, Key(x.pfid, x.name);
      && (x.last ==> Get(d.entries, t) == None)
      && (!x.last && t in db.entries && t in db.links && db.links[t] > 1 ==>
            Get(d.entries, t) == Get(db.entries, t) && Get(d.links, t) == Some(db.links[t] - 1))
      && (forall key :: key != k ==> Get(d.names, key) == Get(db.names, key))
      && (forall g :: g != t ==> Get(d.entries, g) == Get(db.entries, g) && Get(d.links, g) == Get(db.links, g))
  {
  }

  lemma RenameRecords(r: Rec, now: int)
    requires Readable(r) && r.kind == Rename
    ensures var s, src := Enqueued(r, now), r.source.value;
      && |s| == (if r.tfid == ZERO_FID then 2 else 3)
      && (r.tfid != ZERO_FID ==> s == [s[0]] + s[1..])
  {
  }

  /**
   * A rename read from the log moves the name: the entry has the new name and not the old one, what the
   * new name referred to has lost it, and goes away if that was its last; nothing else changes.
   */
  lemma RenameMoves(env: Env, db: Db, r: Rec, now: int)
    requires Readable(r) && r.kind == Rename && r.name != "" && r.source.value.sname != "" && r.source.value.sfid in env.fs
    ensures var d, f := Replay(env, db, Enqueued(r, now)), r.source.value.sfid;
      var k, k' := Key(r.source.value.spfid, r.source.value.sname), Key(r.pfid, r.name);
      && Get(d.names, k') == Some(f) && f in d.entries
      && (k != k' ==> Get(d.names, k) == if Get(db.names, k) == Some(f) then None else Get(db.names, k))
      && (forall key :: key != k && key != k' ==> Get(d.names, key) == Get(db.names, key))
      && (r.tfid != ZERO_FID && r.tfid != f && r.last ==> Get(d.entries, r.tfid) == None)
      && (r.tfid != ZERO_FID && r.tfid != f && !r.last && r.tfid in db.entries && r.tfid in db.links && db.links[r.tfid] > 1 ==>
            Get(d.entries, r.tfid) == Get(db.entries, r.tfid) && Get(d.links, r.tfid) == Some(db.links[r.tfid] - 1))
      && (forall g :: g != f && (g != r.tfid || r.tfid == ZERO_FID) ==> Get(d.entries, g) == Get(db.entries, g))
  {
    var s := Enqueued(r, now);
    RenameRecords(r, now);
    if r.tfid == ZERO_FID {
      assert s == [s[0], s[1]];
      OldAndNew(env, db, s[0], s[1]);
    } else {
      assert s[1..] == [s[1], s[2]];
      ReplayFirst(env, db, s[0], s[1..]);
      OverwrittenGoes(env, db, s[0].rec);
      OldAndNew(env, Effect(env, db, s[0].rec), s[1], s[2]);
    }
  }
}
