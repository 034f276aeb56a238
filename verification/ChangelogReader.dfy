/**
 * The changelog reader as the program runs it: a queue of operations, a hash table of the same
 * operations by fid, and the counters of what was pushed, committed, stored and cleared.
 */
module ChangelogReader {
  import opened Common
  import opened Changelog

  /** The scan goes on past `x`. */
  ghost predicate PassedOver(x: Item, r: Rec)
    requires FilterOf(r.kind).Mask? || FilterOf(r.kind).Cancelling?
  {
    x.rec.tfid != r.tfid || (FilterOf(r.kind).Mask? && x.rec.kind !in FilterOf(r.kind).kinds)
  }

  lemma {:induction false} ScanSkips(q: seq<Item>, n: nat, r: Rec)
    requires FilterOf(r.kind).Mask? || FilterOf(r.kind).Cancelling?
    requires n <= |q| && forall j :: n <= j < |q| ==> PassedOver(q[j], r)
    ensures Scan(q, r) == Scan(q[..n], r)
    decreases |q| - n
  {
    if n < |q| {
      var m := |q| - 1;
      assert PassedOver(q[m], r);
      assert q[..m][..n] == q[..n];
      ScanSkips(q[..m], n, r);
    } else {
      assert q[..n] == q;
    }
  }

  /** Deleting one member of a list without repetitions. */
  lemma {:induction false} WithoutAt(s: seq<nat>, i: nat)
    requires Distinct(s) && i < |s|
    ensures Without(s, {s[i]}) == s[..i] + s[i + 1..]
  {
    if i == 0 {
      assert s[0] !in s[1..];
      WithoutNothing(s[1..], {s[0]});
    } else {
      WithoutAt(s[1..], i - 1);
      assert s[1..][..i - 1] == s[1..i] && s[1..][i..] == s[i + 1..];
      assert [s[0]] + s[1..i] == s[..i];
    }
  }

  /** In an increasing list, what follows a kept member at `pos` and is kept follows it among the kept ones. */
  lemma OnlyAfter(s: seq<nat>, keep: set<nat>, i: nat, pos: nat, j: nat) returns (i': nat)
    requires Increasing(s) && i < |Only(s, keep)| && pos < j < |s| && Only(s, keep)[i] == s[pos] && s[j] in keep
    ensures i < i' < |Only(s, keep)| && Only(s, keep)[i'] == s[j]
  {
    var l := Only(s, keep);
    assert s[j] in l;
    i' :| 0 <= i' < |l| && l[i'] == s[j];
    OnlyIncreasing(s, keep);
  }

  /* ---- the queue and its hash table, as values ---- */

  /** The operations whose fid hashes to `h`. */
  ghost function Share(hash: Fid -> nat, size: nat, ops: map<nat, Item>, h: nat): (r: set<nat>)
    requires size > 0
  {
    set p | p in ops && hash(ops[p].rec.tfid) % size == h
  }

  /** Every slot holds its operations in the order of the queue. */
  ghost predicate Indexed(hash: Fid -> nat, size: nat, queue: seq<nat>, ops: map<nat, Item>, slots: seq<seq<nat>>) {
    && size > 0 && |slots| == size
    && forall h :: 0 <= h < size ==> slots[h] == Only(queue, Share(hash, size, ops, h))
  }

  lemma InsertIndexed(hash: Fid -> nat, size: nat, queue: seq<nat>, ops: map<nat, Item>, slots: seq<seq<nat>>, p: nat, x: Item)
    requires Indexed(hash, size, queue, ops, slots) && p !in queue
    ensures var h := hash(x.rec.tfid) % size;
      Indexed(hash, size, queue + [p], ops[p := x], slots[h := slots[h] + [p]])
  {
    var ops' := ops[p := x];
    forall i | 0 <= i < size
      ensures Only(queue + [p], Share(hash, size, ops', i))
              == if i == hash(x.rec.tfid) % size then slots[i] + [p] else slots[i]
    {
      OnlySame(queue, Share(hash, size, ops, i), Share(hash, size, ops', i));
      OnlyConcat(queue, [p], Share(hash, size, ops', i));
      OnlyOne(p, Share(hash, size, ops', i));
    }
  }

  lemma DeleteIndexed(hash: Fid -> nat, size: nat, queue: seq<nat>, ops: map<nat, Item>, slots: seq<seq<nat>>, p: nat)
    requires Indexed(hash, size, queue, ops, slots) && p in ops
    ensures var h := hash(ops[p].rec.tfid) % size;
      Indexed(hash, size, Without(queue, {p}), ops - {p}, slots[h := Without(slots[h], {p})])
  {
    var queue' := Without(queue, {p});
    forall i | 0 <= i < size
      ensures Only(queue', Share(hash, size, ops - {p}, i))
              == if i == hash(ops[p].rec.tfid) % size then Without(slots[i], {p}) else slots[i]
    {
      OnlySame(queue', Share(hash, size, ops, i), Share(hash, size, ops - {p}, i));
      OnlyWithout(queue, {p}, Share(hash, size, ops, i));
      if i != hash(ops[p].rec.tfid) % size {
        WithoutNothing(slots[i], {p});
      }
    }
  }

  /** Changing an operation without changing its fid. */
  lemma UpdateIndexed(hash: Fid -> nat, size: nat, queue: seq<nat>, ops: map<nat, Item>, slots: seq<seq<nat>>, p: nat, x: Item)
    requires Indexed(hash, size, queue, ops, slots) && p in ops && x.rec.tfid == ops[p].rec.tfid
    ensures Indexed(hash, size, queue, ops[p := x], slots)
  {
    forall i | 0 <= i < size ensures Share(hash, size, ops[p := x], i) == Share(hash, size, ops, i) {
    }
  }

  /** The queue as a list of records. */
  ghost function ItemsOf(queue: seq<nat>, ops: map<nat, Item>): (q: seq<Item>)
    requires forall p :: p in queue ==> p in ops
    ensures |q| == |queue| && forall i :: 0 <= i < |q| ==> q[i] == ops[queue[i]]
  {
    seq(|queue|, i requires 0 <= i < |queue| => ops[queue[i]])
  }

  ghost predicate QueueOk(queue: seq<nat>, ops: map<nat, Item>, bound: nat) {
    Increasing(queue) && (forall p :: p in queue <==> p in ops) && (forall p :: p in queue ==> p < bound)
  }

  lemma ItemsInsert(queue: seq<nat>, ops: map<nat, Item>, p: nat, x: Item)
    requires QueueOk(queue, ops, p)
    ensures QueueOk(queue + [p], ops[p := x], p + 1)
    ensures ItemsOf(queue + [p], ops[p := x]) == ItemsOf(queue, ops) + [x]
  {
    assert forall i :: 0 <= i < |queue| ==> queue[i] in queue;
  }

  lemma ItemsDelete(queue: seq<nat>, ops: map<nat, Item>, bound: nat, pos: nat)
    requires QueueOk(queue, ops, bound) && pos < |queue|
    ensures QueueOk(Without(queue, {queue[pos]}), ops - {queue[pos]}, bound)
    ensures |Without(queue, {queue[pos]})| == |queue| - 1
    ensures ItemsOf(Without(queue, {queue[pos]}), ops - {queue[pos]}) == ItemsOf(queue, ops)[..pos] + ItemsOf(queue, ops)[pos + 1..]
  {
    WithoutAt(queue, pos);
    ItemsDeleteAt(queue, ops, bound, pos, Without(queue, {queue[pos]}));
  }

  lemma QueueDeleteAt(queue: seq<nat>, ops: map<nat, Item>, bound: nat, pos: nat, queue': seq<nat>)
    requires QueueOk(queue, ops, bound) && CutAt(queue, pos, queue')
    ensures QueueOk(queue', ops - {queue[pos]}, bound)
  {
    forall p | p in ops && p != queue[pos] ensures p in queue' {
      var i :| 0 <= i < |queue| && queue[i] == p;
      assert p == if i < pos then queue'[i] else queue'[i - 1];
    }
    forall i | 0 <= i < |queue'| ensures queue'[i] in queue && queue'[i] != queue[pos] {
    }
  }

  lemma ItemsDeleteAt(queue: seq<nat>, ops: map<nat, Item>, bound: nat, pos: nat, queue': seq<nat>)
    requires QueueOk(queue, ops, bound) && pos < |queue| && queue' == queue[..pos] + queue[pos + 1..]
    ensures QueueOk(queue', ops - {queue[pos]}, bound)
    ensures ItemsOf(queue', ops - {queue[pos]}) == ItemsOf(queue, ops)[..pos] + ItemsOf(queue, ops)[pos + 1..]
  {
    assert CutAt(queue, pos, queue');
    QueueDeleteAt(queue, ops, bound, pos, queue');
    ItemsCut(queue, ops, pos, queue', ops - {queue[pos]});
  }

  lemma ItemsCut(queue: seq<nat>, ops: map<nat, Item>, pos: nat, queue': seq<nat>, ops': map<nat, Item>)
    requires CutAt(queue, pos, queue') && (forall p :: p in queue ==> p in ops)
    requires forall p :: p in queue' ==> p in ops' && p in ops && ops'[p] == ops[p]
    ensures ItemsOf(queue', ops') == ItemsOf(queue, ops)[..pos] + ItemsOf(queue, ops)[pos + 1..]
  {
    var q, q' := ItemsOf(queue, ops), ItemsOf(queue', ops');
    assert forall i :: 0 <= i < |queue'| ==> queue'[i] in queue';
    assert forall i :: 0 <= i < pos ==> q'[i] == q[i];
    assert forall i :: pos <= i < |q'| ==> q'[i] == q[i + 1];
  }

  lemma ItemsUpdate(queue: seq<nat>, ops: map<nat, Item>, bound: nat, pos: nat, x: Item)
    requires QueueOk(queue, ops, bound) && pos < |queue|
    ensures QueueOk(queue, ops[queue[pos] := x], bound)
    ensures ItemsOf(queue, ops[queue[pos] := x]) == ItemsOf(queue, ops)[pos := x]
  {
  }

  /** Deleting from the queue and from a slot, at once. */
  lemma DeleteFacts(hash: Fid -> nat, size: nat, queue: seq<nat>, ops: map<nat, Item>, slots: seq<seq<nat>>, bound: nat, pos: nat)
    returns (queue': seq<nat>, ops': map<nat, Item>, slots': seq<seq<nat>>)
    requires Indexed(hash, size, queue, ops, slots) && QueueOk(queue, ops, bound) && pos < |queue|
    ensures var p := queue[pos];
      && p in ops && queue' == Without(queue, {p}) && ops' == ops - {p}
      && var h := hash(ops[p].rec.tfid) % size;
      && slots' == slots[h := Without(slots[h], {p})] && Indexed(hash, size, queue', ops', slots')
      && QueueOk(queue', ops', bound) && |queue'| == |queue| - 1
      && ItemsOf(queue', ops') == ItemsOf(queue, ops)[..pos] + ItemsOf(queue, ops)[pos + 1..]
  {
    var p := queue[pos];
    assert p in queue;
    var h := hash(ops[p].rec.tfid) % size;
    queue', ops', slots' := Without(queue, {p}), ops - {p}, slots[h := Without(slots[h], {p})];
    DeleteIndexed(hash, size, queue, ops, slots, p);
    ItemsDelete(queue, ops, bound, pos);
  }

  /** Past position `pos` of the queue, what the slot scan has not passed over has another fid. */
  lemma SlotSkips(hash: Fid -> nat, size: nat, queue: seq<nat>, ops: map<nat, Item>, slots: seq<seq<nat>>, bound: nat,
                  r: Rec, i: nat, pos: nat)
    requires FilterOf(r.kind).Mask? || FilterOf(r.kind).Cancelling?
    requires Indexed(hash, size, queue, ops, slots) && QueueOk(queue, ops, bound)
    requires var l := slots[hash(r.tfid) % size];
      && i < |l| && pos < |queue| && queue[pos] == l[i]
      && forall j :: i < j < |l| ==> l[j] in ops && PassedOver(ops[l[j]], r)
    ensures Scan(ItemsOf(queue, ops), r) == Scan(ItemsOf(queue, ops)[..pos + 1], r)
  {
    var h := hash(r.tfid) % size;
    var q := ItemsOf(queue, ops);
    forall j | pos + 1 <= j < |q| ensures PassedOver(q[j], r) {
      if q[j].rec.tfid == r.tfid {
        var keep := Share(hash, size, ops, h);
        assert queue[j] in queue;
        var i' := OnlyAfter(queue, keep, i, pos, j);
      }
    }
    ScanSkips(q, pos + 1, r);
  }

  /** The first record from the end of the slot that the scan does not pass over decides. */
  lemma SlotDecides(hash: Fid -> nat, size: nat, queue: seq<nat>, ops: map<nat, Item>, slots: seq<seq<nat>>, bound: nat,
                    r: Rec, i: nat) returns (pos: nat)
    requires FilterOf(r.kind).Mask? || FilterOf(r.kind).Cancelling?
    requires Indexed(hash, size, queue, ops, slots) && QueueOk(queue, ops, bound)
    requires var l := slots[hash(r.tfid) % size];
      && i < |l| && l[i] in ops && !PassedOver(ops[l[i]], r)
      && forall j :: i < j < |l| ==> l[j] in ops && PassedOver(ops[l[j]], r)
    ensures var l := slots[hash(r.tfid) % size]; var x := ops[l[i]].rec;
      && pos < |queue| && queue[pos] == l[i]
      && Scan(ItemsOf(queue, ops), r)
         == if x.kind !in FilterOf(r.kind).kinds then Keep
            else if FilterOf(r.kind).Mask? then MergeInto(pos) else CancelWith(pos)
  {
    var l := slots[hash(r.tfid) % size];
    assert l[i] in l;
    pos :| 0 <= pos < |queue| && queue[pos] == l[i];
    SlotSkips(hash, size, queue, ops, slots, bound, r, i, pos);
    var q := ItemsOf(queue, ops)[..pos + 1];
    assert q[pos] == ops[l[i]];
  }

  /** A slot scan that has passed over everything: nothing in the queue matches. */
  lemma SlotExhausted(hash: Fid -> nat, size: nat, queue: seq<nat>, ops: map<nat, Item>, slots: seq<seq<nat>>, bound: nat, r: Rec)
    requires FilterOf(r.kind).Mask? || FilterOf(r.kind).Cancelling?
    requires Indexed(hash, size, queue, ops, slots) && QueueOk(queue, ops, bound)
    requires var l := slots[hash(r.tfid) % size];
      forall j :: 0 <= j < |l| ==> l[j] in ops && PassedOver(ops[l[j]], r)
    ensures Scan(ItemsOf(queue, ops), r) == Keep
  {
    var q := ItemsOf(queue, ops);
    var l := slots[hash(r.tfid) % size];
    forall j | 0 <= j < |q| ensures PassedOver(q[j], r) {
      assert queue[j] in queue;
      if q[j].rec.tfid == r.tfid {
        assert queue[j] in l;
      }
    }
    ScanSkips(q, 0, r);
  }

  class Reader {
    const size: nat
    const hash: Fid -> nat
    const maxSize: nat
    const maxAge: int
    var queue: seq<nat>
    var ops: map<nat, Item>
    var slots: seq<seq<nat>>
    var count: nat
    var unused: nat             // the next operation handle
    var lastPush: nat
    ghost var pushed: seq<Item>

    ghost predicate Valid()
      reads this
    {
      QueueOk(queue, ops, unused) && Indexed(hash, size, queue, ops, slots) && count == |queue|
    }

    ghost function Items(): (q: seq<Item>)
      requires Valid()
      reads this
    {
      ItemsOf(queue, ops)
    }

    constructor (size: nat, hash: Fid -> nat, maxSize: nat, maxAge: int)
      requires size > 0
      ensures Valid() && Items() == [] && pushed == []
    {
      this.size, this.hash, this.maxSize, this.maxAge := size, hash, maxSize, maxAge;
      queue, ops, count, unused, lastPush, pushed := [], map[], 0, 0, 0, [];
      slots := seq(size, _ => []);
    }

    /** Append an operation to the queue and to the slot of its fid. */
    method Insert(x: Item)
      requires Valid()
      modifies this`queue, this`ops, this`slots, this`count, this`unused
      ensures Valid() && Items() == old(Items()) + [x]
    {
      var p := unused;
      var h := hash(x.rec.tfid) % size;
      InsertIndexed(hash, size, queue, ops, slots, p, x);
      ItemsInsert(queue, ops, p, x);
      unused := unused + 1;
      ops := ops[p := x];
      queue := queue + [p];
      count := count + 1;
      slots := slots[h := slots[h] + [p]];
    }

    /** Unlink the operation `p` from the queue and from its slot. */
    method Delete(p: nat, ghost pos: nat)
      requires Valid() && pos < |queue| && queue[pos] == p
      modifies this`queue, this`ops, this`slots, this`count
      ensures Valid() && Items() == old(Items())[..pos] + old(Items())[pos + 1..]
    {
      ghost var queue', ops', slots' := DeleteFacts(hash, size, queue, ops, slots, unused, pos);
      UnlinkOp(p);
      assert queue == queue' && ops == ops' && slots == slots';
    }

    method UnlinkOp(p: nat)
      requires p in ops && 0 < size == |slots| && count > 0
      modifies this`queue, this`ops, this`slots, this`count
      ensures queue == Without(old(queue), {p}) && ops == old(ops) - {p} && count == old(count) - 1
      ensures var h := hash(old(ops)[p].rec.tfid) % size; slots == old(slots)[h := Without(old(slots)[h], {p})]
    {
      var h := hash(ops[p].rec.tfid) % size;
      slots := slots[h := Without(slots[h], {p})];
      queue := Without(queue, {p});
      ops := ops - {p};
      count := count - 1;
    }

    /** Let the queued operation `p` stand for `r` as well. */
    method Merge(p: nat, r: Rec, ghost pos: nat)
      requires Valid() && pos < |queue| && queue[pos] == p
      modifies this`ops
      ensures Valid() && Items() == old(Items())[pos := Merged(old(Items())[pos], r)]
    {
      assert p in queue;
      UpdateIndexed(hash, size, queue, ops, slots, p, Merged(ops[p], r));
      ItemsUpdate(queue, ops, unused, pos, Merged(ops[p], r));
      ops := ops[p := Merged(ops[p], r)];
    }

    /**
     * Look in the slot of its fid for the queued record that decides about `r`, from the end.
     * The answer is the one that a scan of the whole queue gives.
     */
    method Lookup(r: Rec) returns (found: bool, p: nat, ghost pos: nat)
      requires Valid() && (FilterOf(r.kind).Mask? || FilterOf(r.kind).Cancelling?)
      ensures !found ==> Scan(Items(), r) == Keep
      ensures found ==> pos < |queue| && queue[pos] == p
      ensures found ==> Scan(Items(), r) == if FilterOf(r.kind).Mask? then MergeInto(pos) else CancelWith(pos)
    {
      var f := FilterOf(r.kind);
      var l := slots[hash(r.tfid) % size];
      var i := |l|;
      p, pos := 0, 0;
      while i > 0
        invariant 0 <= i <= |l|
        invariant forall j :: i <= j < |l| ==> l[j] in ops && PassedOver(ops[l[j]], r)
      {
        i := i - 1;
        p := l[i];
        assert p in l;
        var x := ops[p].rec;
        if x.tfid == r.tfid && (f.Cancelling? || x.kind in f.kinds) {
          pos := SlotDecides(hash, size, queue, ops, slots, unused, r, i);
          return x.kind in f.kinds, p, pos;
        }
      }
      SlotExhausted(hash, size, queue, ops, slots, unused, r);
      return false, 0, 0;
    }

    /** Decide whether a record can be left out, and update or delete the queued one that it meets. */
    method CanIgnore(r: Rec) returns (ignored: bool)
      requires Valid()
      modifies this`queue, this`ops, this`slots, this`count
      ensures Valid() && ignored == !Decide(old(Items()), r).Keep?
      ensures match Decide(old(Items()), r)
        case MergeInto(i) => Items() == old(Items())[i := Merged(old(Items())[i], r)]
        case CancelWith(i) => Items() == old(Items())[..i] + old(Items())[i + 1..]
        case _ => Items() == old(Items())
    {
      var f := FilterOf(r.kind);
      if f.Never? || f.Always? {
        return f.Always?;
      }
      var p;
      ghost var pos;
      ignored, p, pos := Lookup(r);
      if ignored {
        if f.Cancelling? {
          Delete(p, pos);
        } else {
          Merge(p, r, pos);
        }
      }
    }

    method InsertBoth(x: Item, y: Item)
      requires Valid()
      modifies this`queue, this`ops, this`slots, this`count, this`unused
      ensures Valid() && Items() == old(Items()) + [x, y]
    {
      Insert(x);
      Insert(y);
    }

    /** Queue the records that a rename stands for. */
    method InsertRename(r: Rec, now: int)
      requires Valid() && Readable(r) && r.source.Some?
      modifies this`queue, this`ops, this`slots, this`count, this`unused
      ensures Valid() && Items() == old(Items()) + Expand(r, now)
    {
      var src := r.source.value;
      if r.tfid != ZERO_FID {
        Insert(Item(Rec(Unlink, r.index - 1, r.tfid, r.pfid, r.name, r.last, None), now, {r.index}));
      }
      InsertBoth(Item(Rec(Rename, r.index - 1, src.sfid, src.spfid, src.sname, false, None), now, {r.index}),
                 Item(r.(kind := Ext, tfid := src.sfid), now, {r.index}));
    }

    /** Handle one record read from the log. */
    method ProcessLogRec(r: Rec, now: int)
      requires Valid() && Readable(r)
      modifies this`queue, this`ops, this`slots, this`count, this`unused
      ensures Valid() && Items() == Process(old(Items()), r, now)
    {
      if r.kind.OutOfBounds? {
        return;
      }
      var ignored := CanIgnore(r);
      if !ignored {
        if r.kind.Rename? {
          InsertRename(r, now);
        } else if !r.kind.Ext? {
          Insert(Item(r, now, {r.index}));
        }
      }
    }

    /** Push the oldest operation. */
    method PushFirst()
      requires Valid() && |queue| > 0
      modifies this`queue, this`ops, this`slots, this`count, this`lastPush, this`pushed
      ensures Valid() && Items() == old(Items())[1..] && pushed == old(pushed) + [old(Items())[0]]
      ensures lastPush == old(Items())[0].rec.index && |queue| == |old(queue)| - 1
    {
      var p := queue[0];
      assert p in queue;
      var x := ops[p];
      Delete(p, 0);
      pushed := pushed + [x];
      lastPush := x.rec.index;
    }

    /** The first `n` items of `q` were pushed. */
    ghost predicate Pushed(q: seq<Item>, before: seq<Item>, n: nat)
      requires Valid()
      reads this
    {
      && n <= |q| && Items() == q[n..] && pushed == before + q[..n]
      && (n > 0 ==> lastPush == q[n - 1].rec.index)
    }

    method PushNext(ghost q: seq<Item>, ghost before: seq<Item>, ghost n: nat)
      requires Valid() && |queue| > 0 && Pushed(q, before, n)
      modifies this`queue, this`ops, this`slots, this`count, this`lastPush, this`pushed
      ensures Valid() && Pushed(q, before, n + 1) && |queue| < |old(queue)|
    {
      PushFirst();
      assert q[n..][1..] == q[n + 1..] && q[..n] + [q[n]] == q[..n + 1];
    }

    /** Push the oldest operations, or all of them, to the pipeline. */
    method ProcessOpQueue(pushAll: bool, now: int) returns (ghost n: nat)
      requires Valid()
      modifies this`queue, this`ops, this`slots, this`count, this`lastPush, this`pushed
      ensures Valid() && Pushed(old(Items()), old(pushed), n) && (n == 0 ==> lastPush == old(lastPush))
      ensures n < |old(Items())| ==>
        !pushAll && |old(Items())| - n < maxSize && old(Items())[n].inserted > now - maxAge
      ensures forall i :: 0 <= i < n ==>
        pushAll || |old(Items())| - i >= maxSize || old(Items())[i].inserted <= now - maxAge
    {
      n := 0;
      ghost var q := Items();
      assert q[0..] == q;
      while |queue| > 0
        invariant Valid() && Pushed(q, old(pushed), n) && (n == 0 ==> lastPush == old(lastPush))
        invariant forall i :: 0 <= i < n ==> pushAll || |q| - i >= maxSize || q[i].inserted <= now - maxAge
        decreases |queue|
      {
        assert queue[0] in queue && Items()[0] == q[n];
        if !pushAll && count < maxSize && ops[queue[0]].inserted > now - maxAge {
          break;
        }
        PushNext(q, old(pushed), n);
        n := n + 1;
      }
    }
  }
}
