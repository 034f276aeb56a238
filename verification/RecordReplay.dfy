/**
 * What replaying changelog records does to the database, and which databases no further record can
 * tell apart.
 */
module RecordReplay {
  import opened Common
  import opened Changelog

  type Attrs = map<string, int>
  datatype Key = Key(parent: Fid, name: string)

  /** The database: attributes and link count by fid, and which fid a name of a directory refers to. */
  datatype Db = Db(entries: map<Fid, Attrs>, links: map<Fid, int>, names: map<Key, Fid>)

  /** An entry that the file system answers for has a link; one that has none is about to go and counts as gone. */
  type Links = n: int | 1 <= n witness 1

  /** What the file system answers while the records are replayed. */
  datatype Inode = Inode(attrs: Attrs, nlink: Links, path: Option<Key>)

  /** When attributes of a known entry are read again: always, on the records that announce a change, or never. */
  datatype Policy = Always | OnEvent | NeverAgain

  datatype Env = Env(fs: map<Fid, Inode>, policy: Policy)

  predicate IsChange(k: Kind) {
    k.Mtime? || k.Ctime? || k.Close? || k.Trunc? || k.Hsm? || k.Setattr?
  }

  /** Are the attributes read from the file system for this record? */
  predicate Fetches(env: Env, k: Kind, known: bool) {
    !known || k.Create? || env.policy.Always? || (env.policy.OnEvent? && IsChange(k))
  }

  function WithoutName(names: map<Key, Fid>, x: Rec): (r: map<Key, Fid>) {
    var key := Key(x.pfid, x.name);
    if x.name != "" && key in names && names[key] == x.tfid then names - {key} else names
  }

  /** A new file has one link and a hard link adds one; otherwise the count is read with the attributes. */
  function LinksAfter(env: Env, db: Db, x: Rec, fetched: bool): (r: map<Fid, int>)
    requires fetched ==> x.tfid in env.fs
  {
    if x.kind.Create? then db.links[x.tfid := 1]
    else if x.kind.Hardlink? && x.tfid in db.links then db.links[x.tfid := db.links[x.tfid] + 1]
    else if fetched then db.links[x.tfid := env.fs[x.tfid].nlink]
    else db.links
  }

  function OneLess(links: map<Fid, int>, f: Fid): (r: map<Fid, int>) {
    if f in links && links[f] > 0 then links[f := links[f] - 1] else links
  }

  /** Insert or update the entry and, when the record or the file system gives it, its name. */
  function Upsert(env: Env, db: Db, x: Rec): (r: Db) {
    var f := x.tfid;
    var known := f in db.entries;
    if Fetches(env, x.kind, known) && f !in env.fs then db                             // no longer exists: skipped
    else if !known && x.name == "" && env.fs[f].path.None? then db                     // orphan: skipped
    else
      Db(if Fetches(env, x.kind, known) then db.entries[f := env.fs[f].attrs] else db.entries,
         LinksAfter(env, db, x, Fetches(env, x.kind, known)),
         if x.name != "" then db.names[Key(x.pfid, x.name) := f]
         else if !known then db.names[env.fs[f].path.value := f]
         else db.names)
  }

  /** An unlink that is not flagged as the last one counts as the last when the database knows of one link only. */
  predicate IsLast(db: Db, x: Rec) {
    x.last || (x.tfid in db.links && db.links[x.tfid] <= 1)
  }

  function RemoveLast(db: Db, x: Rec): (r: Db) {
    Db(db.entries - {x.tfid}, db.links - {x.tfid}, WithoutName(db.names, x))
  }

  function RemoveOne(db: Db, x: Rec): (r: Db) {
    Db(db.entries, OneLess(db.links, x.tfid), WithoutName(db.names, x))
  }

  /** What the pipeline does with one record, without a deletion policy. */
  function Effect(env: Env, db: Db, x: Rec): (r: Db) {
    match x.kind
    case Unlink =>
      if x.tfid !in db.entries then db else if IsLast(db, x) then RemoveLast(db, x) else RemoveOne(db, x)
    case Rmdir =>
      if x.tfid !in db.entries then db else RemoveLast(db, x)
    case Rename => RemoveOne(db, x)
    case _ => Upsert(env, db, x)
  }

  function Replay(env: Env, db: Db, s: seq<Item>): (r: Db) {
    if s == [] then db else Effect(env, Replay(env, db, s[..|s| - 1]), s[|s| - 1].rec)
  }

  predicate Creates(k: Kind) { k.Create? || k.Mknod? || k.Mkdir? }

  predicate Removes(k: Kind) { k.Unlink? || k.Rmdir? }

  /** Records that only announce a change of attributes. */
  predicate IsAttr(k: Kind) { FilterOf(k).Mask? }

  lemma {:induction false} ReplayConcat(env: Env, db: Db, a: seq<Item>, b: seq<Item>)
    ensures Replay(env, db, a + b) == Replay(env, Replay(env, db, a), b)
  {
    if b == [] {
      assert a + b == a;
    } else {
      var n := |b| - 1;
      ReplayConcat(env, db, a, b[..n]);
      assert (a + b)[..|a + b| - 1] == a + b[..n];
    }
  }

  lemma ReplayOne(env: Env, db: Db, s: seq<Item>, x: Item)
    ensures Replay(env, db, s + [x]) == Effect(env, Replay(env, db, s), x.rec)
  {
    assert (s + [x])[..|s|] == s;
  }

  lemma ReplayFirst(env: Env, db: Db, x: Item, s: seq<Item>)
    ensures Replay(env, db, [x] + s) == Replay(env, Effect(env, db, x.rec), s)
  {
    ReplayConcat(env, db, [x], s);
    assert [] + [x] == [x];
    ReplayOne(env, db, [], x);
  }

  /* ---- traces ---- */

  /** Between `i` and `j` the entry gets no other name. */
  ghost predicate NoOtherName(s: seq<Item>, i: nat, j: nat)
    requires i < j < |s|
  {
    forall m :: i < m < j && s[m].rec.tfid == s[i].rec.tfid ==> !s[m].rec.kind.Hardlink? && !s[m].rec.kind.Ext?
  }

  /** What the record at `j` of a trace says about the file system of today. */
  ghost predicate ValidAt(env: Env, s: seq<Item>, j: nat)
    requires j < |s|
  {
    var x := s[j].rec;
    // an entry whose last name is removed is gone
    && (x.kind.Rmdir? || (x.kind.Unlink? && x.last) ==> x.tfid !in env.fs)
    && (Removes(x.kind) ==>
          forall i :: 0 <= i < j && s[i].rec.tfid == x.tfid && Creates(s[i].rec.kind) && NoOtherName(s, i, j) ==>
            x.tfid !in env.fs)
    // records about a change of attributes carry no name
    && (IsAttr(x.kind) ==> x.name == "")
  }

  ghost predicate ValidTrace(env: Env, s: seq<Item>) {
    forall j :: 0 <= j < |s| ==> ValidAt(env, s, j)
  }

  /** What a record says does not depend on later ones. */
  lemma ValidAtPrefix(env: Env, s: seq<Item>, n: nat, j: nat)
    requires j < n <= |s|
    ensures ValidAt(env, s[..n], j) <==> ValidAt(env, s, j)
  {
    forall i | 0 <= i < j ensures NoOtherName(s[..n], i, j) <==> NoOtherName(s, i, j) {
      assert forall m :: i < m < j ==> s[..n][m] == s[m];
    }
  }

  lemma ValidPrefix(env: Env, s: seq<Item>, n: nat)
    requires ValidTrace(env, s) && n <= |s|
    ensures ValidTrace(env, s[..n])
  {
    forall j | 0 <= j < n ensures ValidAt(env, s[..n], j) {
      ValidAtPrefix(env, s, n, j);
    }
  }

  /* ---- databases that cannot be told apart ---- */

  /** However the trace `full` goes on, entries and names come out the same. */
  ghost predicate Indistinguishable(env: Env, full: seq<Item>, a: Db, b: Db) {
    forall s: seq<Item> :: ValidTrace(env, full + s) ==>
      Replay(env, a, s).entries == Replay(env, b, s).entries && Replay(env, a, s).names == Replay(env, b, s).names
  }

  lemma EntriesTellApart(env: Env, full: seq<Item>, a: Db, b: Db)
    requires ValidTrace(env, full) && (a.entries != b.entries || a.names != b.names)
    ensures !Indistinguishable(env, full, a, b)
  {
    assert full + [] == full;
    assert Replay(env, a, []) == a && Replay(env, b, []) == b;
  }

  function AddLink(f: Fid): (x: Item) { Item(Rec(Hardlink, 0, f, 0, "x", false, None), 0, {}) }

  function DropLink(f: Fid): (x: Item) { Item(Rec(Unlink, 0, f, 0, "", false, None), 0, {}) }

  /** Names of `f` come and go; a file that exists gets one before it loses one. */
  ghost predicate Relinking(env: Env, f: Fid, s: seq<Item>) {
    && (forall i :: 0 <= i < |s| ==> s[i] == AddLink(f) || s[i] == DropLink(f))
    && (f in env.fs && s != [] ==> s[0] == AddLink(f))
  }

  lemma RelinkingIsPossible(env: Env, full: seq<Item>, f: Fid, s: seq<Item>)
    requires ValidTrace(env, full) && Relinking(env, f, s)
    ensures ValidTrace(env, full + s)
  {
    var all := full + s;
    forall j | 0 <= j < |all| ensures ValidAt(env, all, j) {
      if j < |full| {
        assert all[..|full|] == full;
        ValidAtPrefix(env, all, |full|, j);
      } else if f in env.fs && all[j] == DropLink(f) {
        assert all[|full|] == AddLink(f);
        forall i | 0 <= i < j && all[i].rec.tfid == f && Creates(all[i].rec.kind) ensures !NoOtherName(all, i, j) {
          assert i < |full| < j;
        }
      }
    }
  }

  lemma LinksToldApart(env: Env, full: seq<Item>, a: Db, b: Db, f: Fid, s: seq<Item>)
    requires ValidTrace(env, full) && Relinking(env, f, s)
    requires (f in Replay(env, a, s).entries) != (f in Replay(env, b, s).entries)
    ensures !Indistinguishable(env, full, a, b)
  {
    RelinkingIsPossible(env, full, f, s);
  }

  /** `f` is known to both, and `b` counts fewer links of it than `a`, if `a` counts them at all. */
  ghost predicate Fewer(a: Db, b: Db, f: Fid) {
    && f in a.entries && f in b.entries && f in b.links
    && (f in a.links ==> b.links[f] < a.links[f])
  }

  lemma AddLinkKeeps(env: Env, db: Db, f: Fid)
    requires f in db.entries && f in env.fs
    ensures var r := Effect(env, db, AddLink(f).rec);
      && f in r.entries
      && (f in db.links ==> f in r.links && r.links[f] == db.links[f] + 1)
      && (f !in db.links && f in r.links ==> r.links[f] == env.fs[f].nlink)
  {
  }

  lemma DropLinkKeeps(env: Env, db: Db, f: Fid)
    requires f in db.entries && (f in db.links ==> db.links[f] > 1)
    ensures var r := Effect(env, db, DropLink(f).rec);
      && f in r.entries && (f in r.links <==> f in db.links)
      && (f in r.links ==> r.links[f] == db.links[f] - 1)
  {
  }

  lemma DropLinkDrops(env: Env, db: Db, f: Fid)
    requires f in db.entries && f in db.links && db.links[f] <= 1
    ensures f !in Effect(env, db, DropLink(f).rec).entries
  {
  }

  /** Adding links and taking them away until only one of the two takes the last. */
  lemma {:induction false} LinksTellApart(env: Env, a: Db, b: Db, f: Fid) returns (s: seq<Item>)
    requires Fewer(a, b, f) && (f in a.links && a.links[f] <= 1 ==> f in env.fs)
    ensures forall i :: 0 <= i < |s| ==> s[i] == AddLink(f) || s[i] == DropLink(f)
    ensures f in Replay(env, a, s).entries && f !in Replay(env, b, s).entries
    decreases if f in a.links && a.links[f] <= 1 then 3 - a.links[f] else if b.links[f] <= 1 then 0 else b.links[f]
  {
    if f in a.links && a.links[f] <= 1 {
      AddLinkKeeps(env, a, f);
      AddLinkKeeps(env, b, f);
      var rest := LinksTellApart(env, Effect(env, a, AddLink(f).rec), Effect(env, b, AddLink(f).rec), f);
      ReplayFirst(env, a, AddLink(f), rest);
      ReplayFirst(env, b, AddLink(f), rest);
      s := [AddLink(f)] + rest;
    } else {
      DropLinkKeeps(env, a, f);
      ReplayFirst(env, a, DropLink(f), []);
      ReplayFirst(env, b, DropLink(f), []);
      if b.links[f] <= 1 {
        DropLinkDrops(env, b, f);
        s := [DropLink(f)] + [];
      } else {
        DropLinkKeeps(env, b, f);
        var rest := LinksTellApart(env, Effect(env, a, DropLink(f).rec), Effect(env, b, DropLink(f).rec), f);
        ReplayFirst(env, a, DropLink(f), rest);
        ReplayFirst(env, b, DropLink(f), rest);
        s := [DropLink(f)] + rest;
      }
    }
  }

  /** The same by a continuation that every trace can have: a file that exists gets another name first. */
  lemma RelinkingTellsApart(env: Env, a: Db, b: Db, f: Fid) returns (s: seq<Item>)
    requires Fewer(a, b, f)
    requires if f in env.fs then f in a.links || b.links[f] == env.fs[f].nlink else f in a.links ==> a.links[f] > 1
    ensures Relinking(env, f, s)
    ensures (f in Replay(env, a, s).entries) != (f in Replay(env, b, s).entries)
  {
    if f !in env.fs {
      s := LinksTellApart(env, a, b, f);
    } else {
      AddLinkKeeps(env, a, f);
      AddLinkKeeps(env, b, f);
      var a', b' := Effect(env, a, AddLink(f).rec), Effect(env, b, AddLink(f).rec);
      var rest;
      if Fewer(a', b', f) {
        rest := LinksTellApart(env, a', b', f);
      } else {
        rest := LinksTellApart(env, b', a', f);
      }
      ReplayFirst(env, a, AddLink(f), rest);
      ReplayFirst(env, b, AddLink(f), rest);
      s := [AddLink(f)] + rest;
    }
  }

  /** Link counts that differ are told apart by some possible continuation. */
  lemma CountsAreSeen(env: Env, full: seq<Item>, a: Db, b: Db, f: Fid)
    requires ValidTrace(env, full) && Fewer(a, b, f)
    requires if f in env.fs then f in a.links || b.links[f] == env.fs[f].nlink else f in a.links ==> a.links[f] > 1
    ensures !Indistinguishable(env, full, a, b) && !Indistinguishable(env, full, b, a)
  {
    var s := RelinkingTellsApart(env, a, b, f);
    LinksToldApart(env, full, a, b, f, s);
    LinksToldApart(env, full, b, a, f, s);
  }

  /* ---- records that change nothing ---- */

  /**
   * A record about a change of attributes finds nothing to change: the entry is gone, or is not read
   * again, or the database has what the file system says, link count included.
   */
  predicate Quiet(env: Env, db: Db, x: Rec) {
    var f := x.tfid;
    f !in env.fs ||
    if f in db.entries then
      || !Fetches(env, x.kind, true)
      || (db.entries[f] == env.fs[f].attrs && f in db.links && db.links[f] == env.fs[f].nlink)
    else env.fs[f].path.None?
  }

  lemma QuietIsInert(env: Env, db: Db, x: Rec)
    requires IsAttr(x.kind) && x.name == "" && Quiet(env, db, x)
    ensures Effect(env, db, x) == db
  {
    var f := x.tfid;
    if f in env.fs && f in db.entries && Fetches(env, x.kind, true) {
      assert db.entries[f := db.entries[f]] == db.entries && db.links[f := db.links[f]] == db.links;
    }
  }

  lemma LoudIsSeen(env: Env, full: seq<Item>, db: Db, x: Rec)
    requires (IsAttr(x.kind) || x.kind.Mark?) && !Quiet(env, db, x) && (x.name == "" || x.tfid in db.entries)
    requires ValidTrace(env, full)
    ensures !Indistinguishable(env, full, Effect(env, db, x), db)
  {
    var f := x.tfid;
    var db' := Effect(env, db, x);
    assert f in db'.entries && db'.entries[f] == env.fs[f].attrs && f in db'.links && db'.links[f] == env.fs[f].nlink;
    if f !in db.entries || db.entries[f] != env.fs[f].attrs {
      EntriesTellApart(env, full, db', db);
    } else if Fewer(db, db', f) {
      CountsAreSeen(env, full, db, db', f);
    } else {
      CountsAreSeen(env, full, db', db, f);
    }
  }

  /** Leaving a record about a change of attributes out cannot be told, however the trace goes on, exactly when it is quiet. */
  lemma QuietExactly(env: Env, full: seq<Item>, db: Db, x: Rec)
    requires IsAttr(x.kind) && x.name == "" && ValidTrace(env, full)
    ensures Indistinguishable(env, full, Effect(env, db, x), db) <==> Quiet(env, db, x)
  {
    if Quiet(env, db, x) {
      QuietIsInert(env, db, x);
    } else {
      LoudIsSeen(env, full, db, x);
    }
  }

  /**
   * A mark, which may carry a name, changes nothing: it is skipped, or it is quiet and its name is one
   * that the database has.
   */
  predicate Silent(env: Env, db: Db, x: Rec) {
    var f := x.tfid;
    if f in db.entries then
      || (Fetches(env, x.kind, true) && f !in env.fs)
      || (Quiet(env, db, x) && (x.name == "" || (Key(x.pfid, x.name) in db.names && db.names[Key(x.pfid, x.name)] == f)))
    else f !in env.fs || (x.name == "" && env.fs[f].path.None?)
  }

  lemma SilentIsInert(env: Env, db: Db, x: Rec)
    requires x.kind.Mark? && Silent(env, db, x)
    ensures Effect(env, db, x) == db
  {
    var f, key := x.tfid, Key(x.pfid, x.name);
    if f in db.entries && !(Fetches(env, x.kind, true) && f !in env.fs) {
      if Fetches(env, x.kind, true) {
        assert db.entries[f := db.entries[f]] == db.entries && db.links[f := db.links[f]] == db.links;
      }
      if x.name != "" {
        assert db.names[key := db.names[key]] == db.names;
      }
    }
  }

  lemma MarkIsSeen(env: Env, full: seq<Item>, db: Db, x: Rec)
    requires x.kind.Mark? && !Silent(env, db, x) && ValidTrace(env, full)
    ensures !Indistinguishable(env, full, Effect(env, db, x), db)
  {
    var f := x.tfid;
    var db' := Effect(env, db, x);
    if f !in db.entries {
      assert f in db'.entries;
      EntriesTellApart(env, full, db', db);
    } else if !Quiet(env, db, x) {
      LoudIsSeen(env, full, db, x);
    } else {
      assert Key(x.pfid, x.name) in db'.names && db'.names[Key(x.pfid, x.name)] == f;
      EntriesTellApart(env, full, db', db);
    }
  }

  /** A record about an entry that is neither in the database nor in the file system. */
  lemma GoneIsInert(env: Env, db: Db, x: Rec)
    requires x.tfid !in db.entries && x.tfid !in env.fs && !x.kind.Rename?
    ensures Effect(env, db, x) == db
  {
  }

  /* ---- what records about other entries leave alone ---- */

  /** The database counts the links of every entry it has. */
  ghost predicate Tracked(db: Db) {
    forall f :: f in db.entries ==> f in db.links
  }

  lemma {:induction false} ReplayTracked(env: Env, db: Db, s: seq<Item>)
    requires Tracked(db)
    ensures Tracked(Replay(env, db, s))
  {
    if s != [] {
      ReplayTracked(env, db, s[..|s| - 1]);
      EffectTracked(env, Replay(env, db, s[..|s| - 1]), s[|s| - 1].rec);
    }
  }

  lemma EffectTracked(env: Env, db: Db, x: Rec)
    requires Tracked(db)
    ensures Tracked(Effect(env, db, x))
  {
  }

  /** Two databases have the same entry and link count of `f`. */
  ghost predicate SameEntry(a: Db, b: Db, f: Fid) {
    && (f in a.entries <==> f in b.entries) && (f in a.entries ==> a.entries[f] == b.entries[f])
    && (f in a.links <==> f in b.links) && (f in a.links ==> a.links[f] == b.links[f])
  }

  lemma {:induction false} OthersLeaveAlone(env: Env, db: Db, s: seq<Item>, f: Fid)
    requires forall i :: 0 <= i < |s| ==> s[i].rec.tfid != f
    ensures SameEntry(Replay(env, db, s), db, f)
  {
    if s != [] {
      OthersLeaveAlone(env, db, s[..|s| - 1], f);
      OtherLeavesAlone(env, Replay(env, db, s[..|s| - 1]), s[|s| - 1].rec, f);
    }
  }

  lemma OtherLeavesAlone(env: Env, db: Db, x: Rec, f: Fid)
    requires x.tfid != f
    ensures SameEntry(Effect(env, db, x), db, f)
  {
  }
}
