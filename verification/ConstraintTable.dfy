/**
 * The id constraint manager: two hash tables of registered operations, one keyed by entry id and
 * one by parent/name. Its specification is one registration order for both.
 */
module ConstraintTable {
  import opened Common
  import opened PipelineState

  datatype Slot = Slot(list: seq<nat>, count: int)

  lemma {:induction false} BeforeMember(s: seq<nat>, p: nat, q: nat)
    requires p in s && s[0] != p
    ensures q in Before(s, p) <==> q == s[0] || q in Before(s[1..], p)
  {
    assert Before(s, p) == [s[0]] + Before(s[1..], p);
  }

  /** Keeping some members of a list keeps what is before `p` among them. */
  lemma {:induction false} OnlyBefore(s: seq<nat>, keep: set<nat>, p: nat, q: nat)
    requires p in keep && q in keep && p in s
    ensures q in Before(Only(s, keep), p) <==> q in Before(s, p)
  {
    var rest := Only(s[1..], keep);
    if s[0] == p {
      assert Only(s, keep) == [p] + rest;
    } else {
      OnlyBefore(s[1..], keep, p, q);
      BeforeMember(s, p, q);
      if s[0] in keep {
        assert Only(s, keep) == [s[0]] + rest;
        assert Only(s, keep)[1..] == rest;
        BeforeMember(Only(s, keep), p, q);
      } else {
        assert Only(s, keep) == rest;
      }
    }
  }

  /** Everything before the first occurrence of `p`, by position. */
  lemma {:induction false} BeforeIndex(s: seq<nat>, p: nat, i: nat)
    requires i < |s| && p in s && p !in s[..i]
    ensures s[i] == p ==> Before(s, p) == s[..i]
    ensures s[i] != p ==> s[i] in Before(s, p)
  {
    if i > 0 {
      assert s[0] in s[..i];
      assert s[..i] == [s[0]] + s[1..][..i - 1];
      BeforeIndex(s[1..], p, i - 1);
    }
    if s[0] != p {
      BeforeMember(s, p, s[i]);
    }
  }

  /** Each slot of the table holds its share of `order`, in that order, and counts it. */
  ghost predicate Table(slots: seq<Slot>, order: seq<nat>, shares: seq<set<nat>>) {
    && |slots| == |shares|
    && forall h :: 0 <= h < |slots| ==> slots[h] == Slot(Only(order, shares[h]), |Only(order, shares[h])|)
  }

  function Registered(list: seq<nat>, p: nat, atHead: bool): (r: seq<nat>) {
    if atHead then [p] + list else list + [p]
  }

  lemma RegisterOnly(order: seq<nat>, p: nat, atHead: bool, keep: set<nat>)
    ensures Only(Registered(order, p, atHead), keep)
            == if p in keep then Registered(Only(order, keep), p, atHead) else Only(order, keep)
  {
    OnlyConcat([p], order, keep);
    OnlyConcat(order, [p], keep);
  }

  lemma TableRegister(slots: seq<Slot>, order: seq<nat>, shares: seq<set<nat>>, p: nat, atHead: bool, slots': seq<Slot>)
    requires Table(slots, order, shares) && |slots'| == |slots|
    requires forall h :: 0 <= h < |slots| ==>
      slots'[h] == if p in shares[h] then Slot(Registered(slots[h].list, p, atHead), slots[h].count + 1) else slots[h]
    ensures Table(slots', Registered(order, p, atHead), shares)
  {
    forall h | 0 <= h < |slots|
      ensures slots'[h] == Slot(Only(Registered(order, p, atHead), shares[h]), |slots'[h].list|)
    {
      RegisterOnly(order, p, atHead, shares[h]);
    }
  }

  lemma TableUnregister(slots: seq<Slot>, order: seq<nat>, shares: seq<set<nat>>, p: nat, slots': seq<Slot>)
    requires Table(slots, order, shares) && |slots'| == |slots| && Distinct(order) && p in order
    requires forall h :: 0 <= h < |slots| ==>
      slots'[h] == if p in shares[h] then Slot(Without(slots[h].list, {p}), slots[h].count - 1) else slots[h]
    ensures Table(slots', Without(order, {p}), shares)
  {
    forall h | 0 <= h < |slots|
      ensures slots'[h] == Slot(Only(Without(order, {p}), shares[h]), |Only(Without(order, {p}), shares[h])|)
    {
      var list := Only(order, shares[h]);
      OnlyWithout(order, {p}, shares[h]);
      if p in shares[h] {
        OnlyDistinct(order, shares[h]);
        RemoveOne(list, p);
      } else {
        WithoutNothing(list, {p});
      }
    }
  }

  lemma {:induction false} RemoveOne(list: seq<nat>, p: nat)
    requires Distinct(list) && p in list
    ensures |Without(list, {p})| == |list| - 1
  {
    if list[0] == p {
      assert p !in list[1..];
      WithoutNothing(list[1..], {p});
    } else {
      RemoveOne(list[1..], p);
    }
  }

  class Manager {
    const hashId: Id -> nat
    const hashName: NameKey -> nat
    const size: nat
    var idSlots: seq<Slot>
    var nameSlots: seq<Slot>
    ghost var order: seq<nat>

    ghost function IdShares(ops: map<nat, Op>): (r: seq<set<nat>>)
      requires size > 0
    {
      seq(size, h => set p | p in ops && ops[p].id.Some? && hashId(ops[p].id.value) % size == h)
    }

    ghost function NameShares(ops: map<nat, Op>): (r: seq<set<nat>>)
      requires size > 0
    {
      seq(size, h => set p | p in ops && ops[p].name.Some? && hashName(ops[p].name.value) % size == h)
    }

    ghost predicate Valid(ops: map<nat, Op>)
      reads this
    {
      && size > 0
      && Distinct(order) && (forall p :: p in order ==> p in ops && ops[p].id.Some?)
      && Table(idSlots, order, IdShares(ops))
      && Table(nameSlots, order, NameShares(ops))
    }

    /** The tables only depend on the ids and names of the registered operations. */
    lemma ValidFrame(ops: map<nat, Op>, ops': map<nat, Op>)
      requires Valid(ops)
      requires forall p :: p in order ==> p in ops' && ops'[p].id == ops[p].id && ops'[p].name == ops[p].name
      ensures Valid(ops')
    {
      forall h | 0 <= h < size ensures Only(order, IdShares(ops)[h]) == Only(order, IdShares(ops')[h]) {
        OnlySame(order, IdShares(ops)[h], IdShares(ops')[h]);
      }
      forall h | 0 <= h < size ensures Only(order, NameShares(ops)[h]) == Only(order, NameShares(ops')[h]) {
        OnlySame(order, NameShares(ops)[h], NameShares(ops')[h]);
      }
    }

    constructor (size: nat, hashId: Id -> nat, hashName: NameKey -> nat)
      requires size > 0
      ensures Valid(map[]) && order == []
      ensures this.size == size && this.hashId == hashId && this.hashName == hashName
    {
      this.size := size;
      this.hashId := hashId;
      this.hashName := hashName;
      idSlots := seq(size, _ => Slot([], 0));
      nameSlots := seq(size, _ => Slot([], 0));
      order := [];
    }

    /** Register at the tail, or at the head, of the slot of the id and of the slot of the name. */
    method Register(p: nat, ops: map<nat, Op>, atHead: bool) returns (ok: bool)
      requires Valid(ops) && p in ops && p !in order
      modifies this`idSlots, this`nameSlots, this`order
      ensures Valid(ops)
      ensures ok <==> ops[p].id.Some?
      ensures order == if ok then Registered(old(order), p, atHead) else old(order)
    {
      if ops[p].id.None? {
        return false;
      }
      ghost var ids, names := idSlots, nameSlots;
      var h := hashId(ops[p].id.value) % size;
      idSlots := idSlots[h := Slot(Registered(idSlots[h].list, p, atHead), idSlots[h].count + 1)];
      if ops[p].name.Some? {
        var hn := hashName(ops[p].name.value) % size;
        nameSlots := nameSlots[hn := Slot(Registered(nameSlots[hn].list, p, atHead), nameSlots[hn].count + 1)];
      }
      TableRegister(ids, order, IdShares(ops), p, atHead, idSlots);
      TableRegister(names, order, NameShares(ops), p, atHead, nameSlots);
      DistinctConcat([p], order);
      DistinctConcat(order, [p]);
      order := Registered(order, p, atHead);
      ok := true;
    }

    /** Scan the id slot, then the name slot, for the first operation with the same key. */
    method IsFirstOp(p: nat, ops: map<nat, Op>) returns (first: bool)
      requires Valid(ops) && p in ops && ops[p].id.Some?
      ensures first <==> IsFirst(ops, order, p)
    {
      var h := hashId(ops[p].id.value) % size;
      var list := idSlots[h].list;
      ghost var keep := IdShares(ops)[h];
      var isFirst := -1;
      var i := 0;
      while i < |list|
        invariant 0 <= i <= |list| && isFirst == -1
        invariant forall j :: 0 <= j < i ==> ops[list[j]].id != ops[p].id
      {
        if ops[list[i]].id == ops[p].id {
          isFirst := if list[i] == p then 1 else 0;
          break;
        }
        i := i + 1;
      }
      assert forall q :: q in list ==> q in order && q in keep;
      if isFirst == 0 {
        if p in order {
          BeforeIndex(list, p, i);
          OnlyBefore(order, keep, p, list[i]);
        }
        return false;
      }
      if isFirst == -1 {
        // an unregistered operation: a registered one is always in its slot
        assert p !in order;
      } else {
        SlotFirst(order, keep, list, p, i);
        assert forall q :: q in ops && ops[q].id == ops[p].id ==> q in keep;
      }
      if ops[p].name.Some? {
        isFirst := FirstOfName(p, ops, isFirst);
      }
      first := isFirst == 1;
    }

    /** What precedes the first occurrence of `p` in its slot is what precedes it at all, in that slot. */
    static lemma SlotFirst(order: seq<nat>, keep: set<nat>, list: seq<nat>, p: nat, i: nat)
      requires list == Only(order, keep) && i < |list| && list[i] == p && p !in list[..i]
      ensures forall q :: q in keep && q in Before(order, p) ==> q in list[..i]
    {
      assert p in list;
      BeforeIndex(list, p, i);
      forall q | q in keep && q in Before(order, p) ensures q in list[..i] {
        OnlyBefore(order, keep, p, q);
      }
    }

    method FirstOfName(p: nat, ops: map<nat, Op>, byId: int) returns (isFirst: int)
      requires Valid(ops) && p in ops && ops[p].name.Some? && ops[p].id.Some?
      requires byId == if p in order then 1 else -1
      requires p in order ==> forall q :: q in Before(order, p) && q in ops ==> ops[q].id != ops[p].id
      ensures isFirst == 1 <==> IsFirst(ops, order, p)
    {
      var h := hashName(ops[p].name.value) % size;
      var list := nameSlots[h].list;
      ghost var keep := NameShares(ops)[h];
      isFirst := byId;
      var i := 0;
      while i < |list|
        invariant 0 <= i <= |list| && isFirst == byId
        invariant forall j :: 0 <= j < i ==> ops[list[j]].name != ops[p].name
      {
        if ops[list[i]].name == ops[p].name {
          isFirst := if list[i] == p then 1 else 0;
          break;
        }
        i := i + 1;
      }
      assert forall q :: q in list ==> q in order && q in keep;
      if p in order {
        assert p in list && i < |list|;
        if list[i] == p {
          SlotFirst(order, keep, list, p, i);
          assert forall q :: q in ops && ops[q].name == ops[p].name ==> q in keep;
        } else {
          BeforeIndex(list, p, i);
          OnlyBefore(order, keep, p, list[i]);
        }
      }
    }

    /** Unlink the operation from the slots it is in. */
    method Unregister(p: nat, ops: map<nat, Op>)
      requires Valid(ops) && p in order
      modifies this`idSlots, this`nameSlots, this`order
      ensures Valid(ops) && order == Without(old(order), {p})
    {
      ghost var ids, names := idSlots, nameSlots;
      var h := hashId(ops[p].id.value) % size;
      idSlots := idSlots[h := Slot(Without(idSlots[h].list, {p}), idSlots[h].count - 1)];
      if ops[p].name.Some? {
        var hn := hashName(ops[p].name.value) % size;
        nameSlots := nameSlots[hn := Slot(Without(nameSlots[hn].list, {p}), nameSlots[hn].count - 1)];
      }
      TableUnregister(ids, order, IdShares(ops), p, idSlots);
      TableUnregister(names, order, NameShares(ops), p, nameSlots);
      WithoutDistinct(order, {p});
      order := Without(order, {p});
    }
  }
}
