/** What is written to the database row of an entry: only what changed, minus what is left alone on purpose. */
module RowUpdate {
  import opened Common

  datatype Attr =
    | ParentId | Name | Fullpath | MdUpdate | PathUpdate | CreationTime
    | StripeInfo | StripeItems | Fileclass | ClassUpdate | Nlink | Plain(n: nat)

  /** A set of attributes with their values; its keys are the attribute mask. */
  type Row = map<Attr, int>

  datatype Origin = Scan | CreateRecord | HardlinkRecord | OtherRecord

  datatype DbOp = Nothing | Insert | Update

  /** The database row with the attributes of `fs` set. */
  function Overlay(row: Row, fs: Row): (r: Row) { row + fs }

  /** `db` is the part of `row` that was asked for. */
  ghost predicate Agrees(db: Row, row: Row) {
    forall a :: a in db ==> a in row && row[a] == db[a]
  }

  /** The attributes set on both sides that differ. */
  function WhatDiff(fs: Row, db: Row): (d: set<Attr>) {
    set a | a in fs && a in db && fs[a] != db[a]
  }

  /** The number of links that a record implies, whatever the file system says by now. */
  function Links(origin: Origin, fs: Row, db: Row): (r: Row) {
    match origin
    case CreateRecord => fs[Nlink := 1]
    case HardlinkRecord => if Nlink in db then fs[Nlink := db[Nlink] + 1] else fs
    case _ => fs
  }

  const STRIPE: set<Attr> := {StripeInfo, StripeItems}

  /** The class was matched again and is the one the database has. */
  predicate ClassSame(fs: Row, db: Row) {
    Fileclass !in fs || (Fileclass in db && fs[Fileclass] == db[Fileclass])
  }

  /** What an update leaves alone on purpose. */
  function Masked(stripeOk: bool, classAlways: bool, readonly: set<Attr>, fs: Row, db: Row): (m: set<Attr>) {
    {CreationTime} + readonly
    + (if stripeOk then STRIPE else {})
    + (if classAlways && ClassSame(fs, db) then {ClassUpdate} else {})
  }

  /** Everything the operation has to say, without looking at what changed. */
  function FullUpdate(origin: Origin, stripeOk: bool, classAlways: bool, readonly: set<Attr>, fs: Row, db: Row): (r: Row) {
    Links(origin, fs, db) - Masked(stripeOk, classAlways, readonly, Links(origin, fs, db), db)
  }

  /** The value that an operation has to say about an attribute: new files have one link, and a hard link adds one. */
  function Said(origin: Origin, fs: Row, db: Row, a: Attr): (v: Option<int>) {
    if a == Nlink && origin == CreateRecord then Some(1)
    else if a == Nlink && origin == HardlinkRecord && Nlink in db then Some(db[Nlink] + 1)
    else Get(fs, a)
  }

  /**
   * An attribute is written, with what the operation says about it, unless it is the creation time, or is
   * read-only, or is striping known to be right, or is the time of a match that gave the same class.
   */
  lemma WrittenExactly(origin: Origin, stripeOk: bool, classAlways: bool, readonly: set<Attr>, fs: Row, db: Row, a: Attr)
    ensures Get(FullUpdate(origin, stripeOk, classAlways, readonly, fs, db), a) ==
      if a == CreationTime || a in readonly || (stripeOk && (a == StripeInfo || a == StripeItems))
         || (classAlways && a == ClassUpdate && (Fileclass in fs ==> Fileclass in db && fs[Fileclass] == db[Fileclass]))
      then None else Said(origin, fs, db, a)
  {
  }

  /** On insertion everything but read-only attributes is written. */
  lemma InsertedExactly(origin: Origin, readonly: set<Attr>, fs: Row, db: Row, a: Attr)
    ensures Get(Links(origin, fs, db) - readonly, a) == if a in readonly then None else Said(origin, fs, db, a)
  {
  }

  /** Writing `out` to any row that agrees with `db` is writing all of `fs` but what is left alone. */
  ghost predicate Trims(out: Row, origin: Origin, stripeOk: bool, classAlways: bool, readonly: set<Attr>, fs: Row, db: Row) {
    forall row :: Agrees(db, row) ==>
      Overlay(row, out) == Overlay(row, FullUpdate(origin, stripeOk, classAlways, readonly, fs, db))
  }

  /** `fs'` is `fs` without some attributes that the database has with the same value. */
  ghost predicate OnlyUnchangedGone(fs: Row, fs': Row, db: Row) {
    && fs'.Keys <= fs.Keys && (forall a :: a in fs' ==> fs'[a] == fs[a])
    && forall a :: a in fs && a !in fs' ==> a in db && db[a] == fs[a]
  }

  lemma UnchangedMakesNoDifference(row: Row, db: Row, fs: Row, fs': Row, m: set<Attr>)
    requires Agrees(db, row) && OnlyUnchangedGone(fs, fs', db)
    ensures Overlay(row, fs' - m) == Overlay(row, fs - m)
  {
    forall a | a in fs && a !in fs' ensures a in row && row[a] == fs[a] {
      assert a in db;
    }
  }

  /** An operation on its way through the pipeline. */
  class Operation {
    const origin: Origin
    const stripeOk: bool
    const classAlways: bool
    const readonly: set<Attr>
    var op: DbOp
    var fs: Row
    var db: Row

    constructor (origin: Origin, stripeOk: bool, classAlways: bool, readonly: set<Attr>, op: DbOp, fs: Row, db: Row)
      ensures this.origin == origin && this.stripeOk == stripeOk && this.classAlways == classAlways
      ensures this.readonly == readonly && this.op == op && this.fs == fs && this.db == db
    {
      this.origin, this.stripeOk, this.classAlways, this.readonly := origin, stripeOk, classAlways, readonly;
      this.op, this.fs, this.db := op, fs, db;
    }

    /** Keep what changed, what the database was not asked about, and what is always kept. */
    method KeepChanges()
      modifies this`fs
      ensures OnlyUnchangedGone(old(fs), fs, db)
      ensures Fileclass in fs <==> !ClassSame(old(fs), db)
      ensures forall a :: a in old(fs) ==>
        (a in fs <==>
          (|| a !in db || old(fs)[a] != db[a] || a == ParentId || a == Name
           || (a == Fullpath && exists b :: (b == ParentId || b == Name) && b in old(fs) && b in db && old(fs)[b] != db[b])
           || (origin == Scan && (a == MdUpdate || a == PathUpdate))))
    {
      var diff := WhatDiff(fs, db);
      var keep := {ParentId, Name};
      if ParentId in diff || Name in diff {
        keep := keep + {Fullpath};
      }
      if origin == Scan {
        keep := keep + {MdUpdate, PathUpdate};
      }
      assert forall a ::
        (a in keep <==>
          (|| a == ParentId || a == Name
           || (a == Fullpath && exists b :: (b == ParentId || b == Name) && b in fs && b in db && fs[b] != db[b])
           || (origin == Scan && (a == MdUpdate || a == PathUpdate))));
      fs := map a | a in fs && (a in diff || a in keep || a !in db) :: fs[a];
    }

    /**
     * Clean the operation before it is applied. For an update, writing what is left to any row that
     * agrees with what was read gives the same row as writing everything but the masked attributes.
     */
    method PreApply()
      requires op != Nothing
      modifies this`op, this`fs
      ensures old(op) == Insert ==> op == Insert && fs == Links(origin, old(fs), db) - readonly
      ensures old(op) == Update ==> op == Nothing || op == Update
      ensures old(op) == Update && op == Nothing ==> fs == map[]
      ensures old(op) == Update && fs == map[] && readonly == {} ==> op == Nothing
      ensures old(op) == Update ==> Trims(fs, origin, stripeOk, classAlways, readonly, old(fs), db)
    {
      if op != Insert {
        fs := fs - {CreationTime};
      }
      SetLinks();
      if op == Update {
        ghost var m := Masked(stripeOk, classAlways, readonly, Links(origin, old(fs), db), db);
        assert Links(origin, old(fs), db) - m == fs - m;
        TrimUpdate(m);
      } else {
        fs := fs - readonly;
      }
    }

    method SetLinks()
      modifies this`fs
      ensures fs == Links(origin, old(fs), db)
    {
      if origin == CreateRecord {
        fs := fs[Nlink := 1];
      } else if origin == HardlinkRecord && Nlink in db {
        fs := fs[Nlink := db[Nlink] + 1];
      }
    }

    method TrimUpdate(ghost m: set<Attr>)
      requires op == Update && CreationTime !in fs && m == Masked(stripeOk, classAlways, readonly, fs, db)
      modifies this`op, this`fs
      ensures op == Nothing || op == Update
      ensures op == Nothing ==> fs == map[]
      ensures fs == map[] && readonly == {} ==> op == Nothing
      ensures forall row :: Agrees(db, row) ==> Overlay(row, fs) == Overlay(row, old(fs) - m)
    {
      KeepChanges();
      ghost var kept := fs;
      if stripeOk {
        fs := fs - STRIPE;
      }
      if classAlways && Fileclass !in fs {
        fs := fs - {ClassUpdate};
      }
      if fs == map[] {
        op := Nothing;
      }
      fs := fs - readonly;
      assert fs == kept - m;
      forall row | Agrees(db, row) ensures Overlay(row, fs) == Overlay(row, old(fs) - m) {
        UnchangedMakesNoDifference(row, db, old(fs), kept, m);
      }
    }
  }
}
