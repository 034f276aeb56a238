/** Records that do not concern the same entry, and do not give the same name, may be applied in any order. */
module ParallelReplay {
  import opened Common
  import opened Changelog
  import opened RecordReplay

  /** The names that a record may give to its entry. */
  function Gives(env: Env, x: Rec): (r: set<Key>) {
    if Removes(x.kind) || x.kind.Rename? then {}
    else if x.name != "" then {Key(x.pfid, x.name)}
    else if x.tfid in env.fs && env.fs[x.tfid].path.Some? then {env.fs[x.tfid].path.value}
    else {}
  }

  /** The records are about different entries and give them different names. */
  ghost predicate Apart(env: Env, x: Rec, y: Rec) {
    x.tfid != y.tfid && Gives(env, x) !! Gives(env, y)
  }

  /* ---- the effect of a record as an edit of one row and one name ---- */

  datatype Naming = Leave | Give(key: Key) | Take(key: Key)

  /** The new attributes and link count of the entry, and what happens to a name of it. */
  datatype Edit = Edit(attrs: Option<Attrs>, links: Option<int>, naming: Naming)

  function Named(names: map<Key, Fid>, f: Fid, n: Naming): (r: map<Key, Fid>) {
    match n
    case Leave => names
    case Give(key) => names[key := f]
    case Take(key) => if key in names && names[key] == f then names - {key} else names
  }

  function Perform(db: Db, f: Fid, e: Edit): (r: Db) {
    Db(Put(db.entries, f, e.attrs), Put(db.links, f, e.links), Named(db.names, f, e.naming))
  }

  function TakenName(x: Rec): (n: Naming) {
    if x.name != "" then Take(Key(x.pfid, x.name)) else Leave
  }

  /** The edit depends on the row of the entry alone. */
  function EditOf(env: Env, attrs: Option<Attrs>, links: Option<int>, x: Rec): (e: Edit) {
    if Removes(x.kind) && attrs.None? then Edit(attrs, links, Leave)
    else if x.kind.Rmdir? || (x.kind.Unlink? && (x.last || (links.Some? && links.value <= 1))) then
      Edit(None, None, TakenName(x))
    else if x.kind.Unlink? || x.kind.Rename? then
      Edit(attrs, if links.Some? && links.value > 0 then Some(links.value - 1) else links, TakenName(x))
    else UpsertOf(env, attrs, links, x)
  }

  function UpsertOf(env: Env, attrs: Option<Attrs>, links: Option<int>, x: Rec): (e: Edit)
    ensures e.naming.Leave? || (e.naming.Give? && (!Removes(x.kind) && !x.kind.Rename? ==> Gives(env, x) == {e.naming.key}))
  {
    var f, fetched := x.tfid, Fetches(env, x.kind, attrs.Some?);
    if fetched && f !in env.fs then Edit(attrs, links, Leave)
    else if attrs.None? && x.name == "" && env.fs[f].path.None? then Edit(attrs, links, Leave)
    else
      Edit(if fetched then Some(env.fs[f].attrs) else attrs,
           if x.kind.Create? then Some(1)
           else if x.kind.Hardlink? && links.Some? then Some(links.value + 1)
           else if fetched then Some(env.fs[f].nlink)
           else links,
           if x.name != "" then Give(Key(x.pfid, x.name))
           else if attrs.None? then Give(env.fs[f].path.value)
           else Leave)
  }

  lemma PutSame<K, V>(m: map<K, V>, k: K)
    ensures Put(m, k, Get(m, k)) == m
  {
  }

  lemma UpsertEdits(env: Env, db: Db, x: Rec)
    ensures Upsert(env, db, x) == Perform(db, x.tfid, UpsertOf(env, Get(db.entries, x.tfid), Get(db.links, x.tfid), x))
  {
    PutSame(db.entries, x.tfid);
    PutSame(db.links, x.tfid);
  }

  lemma RemovalEdits(env: Env, db: Db, x: Rec)
    requires Removes(x.kind) || x.kind.Rename?
    ensures Effect(env, db, x) == Perform(db, x.tfid, EditOf(env, Get(db.entries, x.tfid), Get(db.links, x.tfid), x))
  {
    PutSame(db.entries, x.tfid);
    PutSame(db.links, x.tfid);
    assert WithoutName(db.names, x) == Named(db.names, x.tfid, TakenName(x));
  }

  lemma EffectEdits(env: Env, db: Db, x: Rec)
    ensures Effect(env, db, x) == Perform(db, x.tfid, EditOf(env, Get(db.entries, x.tfid), Get(db.links, x.tfid), x))
  {
    if Removes(x.kind) || x.kind.Rename? {
      RemovalEdits(env, db, x);
    } else {
      UpsertEdits(env, db, x);
    }
  }

  /* ---- edits commute ---- */

  lemma PutsCommute<K, V>(m: map<K, V>, k: K, v: Option<V>, l: K, w: Option<V>)
    requires k != l
    ensures Put(Put(m, k, v), l, w) == Put(Put(m, l, w), k, v)
  {
  }

  /** A name given to one entry and taken from another ends up given, in either order. */
  lemma NamingsCommute(names: map<Key, Fid>, f: Fid, m: Naming, g: Fid, n: Naming)
    requires f != g && (m.Give? && n.Give? ==> m.key != n.key)
    ensures Named(Named(names, f, m), g, n) == Named(Named(names, g, n), f, m)
  {
  }

  lemma PerformsCommute(db: Db, f: Fid, d: Edit, g: Fid, e: Edit)
    requires f != g && (d.naming.Give? && e.naming.Give? ==> d.naming.key != e.naming.key)
    ensures Perform(Perform(db, f, d), g, e) == Perform(Perform(db, g, e), f, d)
  {
    PutsCommute(db.entries, f, d.attrs, g, e.attrs);
    PutsCommute(db.links, f, d.links, g, e.links);
    NamingsCommute(db.names, f, d.naming, g, e.naming);
  }

  function EditIn(env: Env, db: Db, x: Rec): (e: Edit) {
    EditOf(env, Get(db.entries, x.tfid), Get(db.links, x.tfid), x)
  }

  lemma EditGives(env: Env, db: Db, x: Rec)
    ensures EditIn(env, db, x).naming.Give? ==> Gives(env, x) == {EditIn(env, db, x).naming.key}
  {
  }

  /** What a record does to its own entry does not depend on edits of another. */
  lemma EditElsewhere(env: Env, db: Db, g: Fid, e: Edit, x: Rec)
    requires x.tfid != g
    ensures EditIn(env, Perform(db, g, e), x) == EditIn(env, db, x)
  {
    assert Get(Put(db.entries, g, e.attrs), x.tfid) == Get(db.entries, x.tfid);
    assert Get(Put(db.links, g, e.links), x.tfid) == Get(db.links, x.tfid);
  }

  lemma TwoEffects(env: Env, db: Db, x: Rec, y: Rec)
    requires x.tfid != y.tfid
    ensures Effect(env, Effect(env, db, x), y) == Perform(Perform(db, x.tfid, EditIn(env, db, x)), y.tfid, EditIn(env, db, y))
  {
    EffectEdits(env, db, x);
    EffectEdits(env, Effect(env, db, x), y);
    EditElsewhere(env, db, x.tfid, EditIn(env, db, x), y);
  }

  /** In this database both records give the same name. */
  predicate SameGift(env: Env, db: Db, x: Rec, y: Rec) {
    EditIn(env, db, x).naming.Give? && EditIn(env, db, y).naming == EditIn(env, db, x).naming
  }

  /** Two records about different entries may swap places exactly when they do not give both the same name. */
  lemma SwapExactly(env: Env, db: Db, x: Rec, y: Rec)
    requires x.tfid != y.tfid
    ensures Effect(env, Effect(env, db, x), y) == Effect(env, Effect(env, db, y), x) <==> !SameGift(env, db, x, y)
  {
    TwoEffects(env, db, x, y);
    TwoEffects(env, db, y, x);
    if SameGift(env, db, x, y) {
      var k := EditIn(env, db, x).naming.key;
      var a, b := Effect(env, Effect(env, db, x), y).names, Effect(env, Effect(env, db, y), x).names;
      assert k in a && a[k] == y.tfid && k in b && b[k] == x.tfid;
    } else {
      PerformsCommute(db, x.tfid, EditIn(env, db, x), y.tfid, EditIn(env, db, y));
    }
  }

  /** Records that are apart may swap places in any database. */
  lemma EffectsCommute(env: Env, db: Db, x: Rec, y: Rec)
    requires Apart(env, x, y)
    ensures Effect(env, Effect(env, db, x), y) == Effect(env, Effect(env, db, y), x)
  {
    EditGives(env, db, x);
    EditGives(env, db, y);
    SwapExactly(env, db, x, y);
  }

  /**
   * A name that is looked up while a record is processed is not known when it is registered. A record
   * about an entry that now has the name, and the creation of another entry under that name: the one
   * applied last has it.
   */
  lemma LookedUpNamesRace(env: Env, db: Db, x: Rec, y: Rec)
    requires IsAttr(x.kind) && x.name == "" && x.tfid in env.fs && x.tfid !in db.entries
    requires y.kind.Create? && y.name != "" && y.tfid in env.fs && x.tfid != y.tfid
    requires env.fs[x.tfid].path == Some(Key(y.pfid, y.name))
    ensures Effect(env, Effect(env, db, x), y) != Effect(env, Effect(env, db, y), x)
  {
    assert SameGift(env, db, x, y);
    SwapExactly(env, db, x, y);
  }

  /* ---- any order of application, and push order ---- */

  /** The records `recs` applied in the order of their numbers, up to `k`. */
  function InPushOrder(env: Env, db: Db, recs: map<nat, Rec>, k: nat): (r: Db) {
    if k == 0 then db
    else
      var before := InPushOrder(env, db, recs, k - 1);
      if k - 1 in recs then Effect(env, before, recs[k - 1]) else before
  }

  /** The records `recs` applied in the order `order`. */
  function InThisOrder(env: Env, db: Db, recs: map<nat, Rec>, order: seq<nat>): (r: Db)
    requires forall p :: p in order ==> p in recs
  {
    if order == [] then db
    else Effect(env, InThisOrder(env, db, recs, order[..|order| - 1]), recs[order[|order| - 1]])
  }

  function Restricted(recs: map<nat, Rec>, order: seq<nat>): (r: map<nat, Rec>) {
    map p | p in recs && p in order :: recs[p]
  }

  /** Numbers from `k` on do not matter. */
  lemma {:induction false} SameBelow(env: Env, db: Db, recs: map<nat, Rec>, recs': map<nat, Rec>, k: nat)
    requires forall p :: p < k ==> (p in recs <==> p in recs') && (p in recs ==> recs[p] == recs'[p])
    ensures InPushOrder(env, db, recs, k) == InPushOrder(env, db, recs', k)
  {
    if k > 0 {
      SameBelow(env, db, recs, recs', k - 1);
    }
  }

  /** A record that is apart from everything behind it may as well come last. */
  lemma {:induction false} MayComeLast(env: Env, db: Db, recs: map<nat, Rec>, q: nat, x: Rec, k: nat)
    requires q !in recs && q < k && forall p :: p in recs && p > q ==> Apart(env, x, recs[p])
    ensures InPushOrder(env, db, recs[q := x], k) == Effect(env, InPushOrder(env, db, recs, k), x)
  {
    if k - 1 == q {
      SameBelow(env, db, recs[q := x], recs, q);
    } else {
      MayComeLast(env, db, recs, q, x, k - 1);
      if k - 1 in recs {
        EffectsCommute(env, InPushOrder(env, db, recs, k - 1), x, recs[k - 1]);
      }
    }
  }

  /** Records that swap places are apart. */
  ghost predicate SwapsApart(env: Env, recs: map<nat, Rec>, order: seq<nat>) {
    forall i, j :: 0 <= i < j < |order| && order[j] < order[i] && order[i] in recs && order[j] in recs ==>
      Apart(env, recs[order[j]], recs[order[i]])
  }

  /** Whatever the order of application: if only records that are apart swap places, it is as good as push order. */
  lemma {:induction false} OrderDoesNotMatter(env: Env, db: Db, recs: map<nat, Rec>, order: seq<nat>, k: nat)
    requires Distinct(order) && (forall p :: p in order ==> p in recs && p < k) && SwapsApart(env, recs, order)
    ensures InThisOrder(env, db, recs, order) == InPushOrder(env, db, Restricted(recs, order), k)
  {
    if order == [] {
      NoRecords(env, db, k);
    } else {
      var n := |order| - 1;
      var q, rest := order[n], order[..n];
      assert q in order;
      OrderDoesNotMatter(env, db, recs, rest, k);
      assert Restricted(recs, order) == Restricted(recs, rest)[q := recs[q]];
      MayComeLast(env, db, Restricted(recs, rest), q, recs[q], k);
    }
  }

  lemma {:induction false} NoRecords(env: Env, db: Db, k: nat)
    ensures InPushOrder(env, db, map[], k) == db
  {
    if k > 0 {
      NoRecords(env, db, k - 1);
    }
  }

  lemma GreatestIsLast(order: seq<nat>, k: nat)
    requires Increasing(order) && k in order && forall p :: p in order ==> p <= k
    ensures order[|order| - 1] == k && Elems(order[..|order| - 1]) == Elems(order) - {k}
  {
    var n := |order| - 1;
    var i :| 0 <= i < |order| && order[i] == k;
    assert order[n] in order;
    assert order == order[..n] + [order[n]];
  }

  /** `recs` are the records of `items`, numbered by `order`. */
  ghost predicate Numbered(recs: map<nat, Rec>, order: seq<nat>, items: seq<Item>) {
    && Increasing(order) && |order| == |items| && recs.Keys == Elems(order)
    && forall i :: 0 <= i < |order| ==> order[i] in recs && recs[order[i]] == items[i].rec
  }

  ghost predicate Below(order: seq<nat>, k: nat) {
    forall i :: 0 <= i < |order| ==> order[i] < k
  }

  lemma NumberedFront(recs: map<nat, Rec>, order: seq<nat>, items: seq<Item>, k: nat)
    requires Numbered(recs, order, items) && k in recs && Below(order, k + 1)
    ensures order != [] && order[|order| - 1] == k && recs[k] == items[|items| - 1].rec
    ensures Numbered(recs - {k}, order[..|order| - 1], items[..|items| - 1])
    ensures Below(order[..|order| - 1], k)
  {
    var n := |order| - 1;
    assert k in Elems(order);
    GreatestIsLast(order, k);
    forall i | 0 <= i < n ensures order[..n][i] in recs - {k} && (recs - {k})[order[..n][i]] == items[..n][i].rec {
      assert order[i] < order[n];
    }
  }

  lemma NumberedBelow(recs: map<nat, Rec>, order: seq<nat>, items: seq<Item>, k: nat)
    requires Numbered(recs, order, items) && k !in recs && Below(order, k + 1)
    ensures Below(order, k)
  {
    assert k !in Elems(order);
  }

  lemma LastOfBoth(env: Env, db: Db, recs: map<nat, Rec>, items: seq<Item>, k: nat)
    requires k in recs && items != [] && recs[k] == items[|items| - 1].rec
    requires InPushOrder(env, db, recs - {k}, k) == Replay(env, db, items[..|items| - 1])
    ensures InPushOrder(env, db, recs, k + 1) == Replay(env, db, items)
  {
    SameBelow(env, db, recs - {k}, recs, k);
  }

  /** Push order is the order of the pushed items. */
  lemma {:induction false} PushOrderIsReplay(env: Env, db: Db, recs: map<nat, Rec>, order: seq<nat>, items: seq<Item>, k: nat)
    requires Numbered(recs, order, items) && Below(order, k)
    ensures InPushOrder(env, db, recs, k) == Replay(env, db, items)
    decreases k, 0
  {
    if k > 0 {
      if k - 1 in recs {
        GreatestReplayed(env, db, recs, order, items, k - 1);
      } else {
        NumberedBelow(recs, order, items, k - 1);
        PushOrderIsReplay(env, db, recs, order, items, k - 1);
      }
    }
  }

  lemma {:induction false} GreatestReplayed(env: Env, db: Db, recs: map<nat, Rec>, order: seq<nat>, items: seq<Item>, k: nat)
    requires Numbered(recs, order, items) && k in recs && Below(order, k + 1)
    ensures InPushOrder(env, db, recs, k + 1) == Replay(env, db, items)
    decreases k, 1
  {
    NumberedFront(recs, order, items, k);
    PushOrderIsReplay(env, db, recs - {k}, order[..|order| - 1], items[..|items| - 1], k);
    LastOfBoth(env, db, recs, items, k);
  }
}
