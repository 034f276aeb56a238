/** The bounded queue between threads: a circular array guarded by a mutex and two semaphores. */
module RingQueue {
  import opened Common

  /** One slot of `buf` is always unused, so that a full ring differs from an empty one. */
  datatype Ring<T> = Ring(buf: seq<T>, first: nat, last: nat)

  ghost predicate ValidRing<T>(r: Ring<T>) {
    r.first < |r.buf| && r.last < |r.buf|
  }

  predicate IsEmpty<T>(r: Ring<T>) { r.first == r.last }

  predicate IsFull<T>(r: Ring<T>)
    requires |r.buf| > 0
  {
    r.first == (r.last + 1) % |r.buf|
  }

  /** What the ring holds, oldest first. */
  ghost function Items<T>(r: Ring<T>): (s: seq<T>)
    requires ValidRing(r)
    ensures |s| < |r.buf|
  {
    if r.first <= r.last then r.buf[r.first..r.last] else r.buf[r.first..] + r.buf[..r.last]
  }

  lemma EmptyFull<T>(r: Ring<T>)
    requires ValidRing(r)
    ensures IsEmpty(r) <==> Items(r) == []
    ensures IsFull(r) <==> |Items(r)| == |r.buf| - 1
  {
    Around(r.last, |r.buf|);
    assert |Items(r)| == if r.first <= r.last then r.last - r.first else |r.buf| - r.first + r.last;
  }

  /** One slot further, around the end of the array. */
  lemma Around(i: nat, n: nat)
    requires i < n
    ensures (i + 1) % n == if i + 1 == n then 0 else i + 1
  {
  }

  lemma InsertItems<T>(r: Ring<T>, x: T, r': Ring<T>)
    requires ValidRing(r) && !IsFull(r) && r' == Ring(r.buf[r.last := x], r.first, (r.last + 1) % |r.buf|)
    ensures ValidRing(r') && Items(r') == Items(r) + [x]
  {
    Around(r.last, |r.buf|);
    if r.first <= r.last {
      assert r'.buf[r.first..r.last + 1] == r.buf[r.first..r.last] + [x];
      if r.last + 1 == |r.buf| {
        assert r'.buf[r.first..] + r'.buf[..0] == r'.buf[r.first..r.last + 1];
      }
    } else {
      assert r'.buf[r.first..] == r.buf[r.first..];
      assert r'.buf[..r.last + 1] == r.buf[..r.last] + [x];
    }
  }

  lemma RemoveItems<T>(r: Ring<T>, r': Ring<T>)
    requires ValidRing(r) && !IsEmpty(r) && r' == Ring(r.buf, (r.first + 1) % |r.buf|, r.last)
    ensures ValidRing(r') && Items(r) == [r.buf[r.first]] + Items(r')
  {
    Around(r.first, |r.buf|);
    if r.first <= r.last {
      assert r.buf[r.first..r.last] == [r.buf[r.first]] + r.buf[r.first + 1..r.last];
    } else {
      assert r.buf[r.first..] == [r.buf[r.first]] + r.buf[r.first + 1..];
      if r.first + 1 == |r.buf| {
        assert r.buf[r.first + 1..] == [];
        assert r.buf[0..r.last] == r.buf[..r.last];
      }
    }
  }

  /** Insert at the tail; nothing is done when the ring is full. */
  function Insert<T>(r: Ring<T>, x: T): (r': Option<Ring<T>>)
    requires ValidRing(r)
    ensures r'.Some? ==> ValidRing(r'.value) && |r'.value.buf| == |r.buf| && Items(r'.value) == Items(r) + [x]
    ensures r'.None? <==> |Items(r)| == |r.buf| - 1
  {
    EmptyFull(r);
    if IsFull(r) then None
    else
      var r' := Ring(r.buf[r.last := x], r.first, (r.last + 1) % |r.buf|);
      InsertItems(r, x, r');
      Some(r')
  }

  /** Take from the head; nothing is done when the ring is empty. */
  function Remove<T>(r: Ring<T>): (r': Option<(T, Ring<T>)>)
    requires ValidRing(r)
    ensures r'.Some? ==> ValidRing(r'.value.1) && |r'.value.1.buf| == |r.buf| && Items(r) == [r'.value.0] + Items(r'.value.1)
    ensures r'.None? <==> Items(r) == []
  {
    EmptyFull(r);
    if IsEmpty(r) then None
    else
      var r' := Ring(r.buf, (r.first + 1) % |r.buf|, r.last);
      RemoveItems(r, r');
      Some((r.buf[r.first], r'))
  }

  /** The two critical sections, in place. */
  class CyclicArray<T(0)> {
    var buf: array<T>
    var first: nat
    var last: nat

    ghost function View(): (r: Ring<T>)
      reads this, buf
    {
      Ring(buf[..], first, last)
    }

    ghost predicate Valid()
      reads this, buf
    {
      ValidRing(View())
    }

    constructor (queueSize: nat)
      ensures Valid() && Items(View()) == [] && buf.Length == queueSize + 1 && fresh(buf)
    {
      buf := new T[queueSize + 1];
      first, last := 0, 0;
    }

    method Put(x: T) returns (ok: bool)
      requires Valid()
      modifies this`last, buf
      ensures Valid() && buf == old(buf) && ok == (|old(Items(View()))| < buf.Length - 1)
      ensures Items(View()) == if ok then old(Items(View())) + [x] else old(Items(View()))
      ensures Insert(old(View()), x) == if ok then Some(View()) else None
    {
      EmptyFull(View());
      ghost var r := Insert(View(), x);
      if first == (last + 1) % buf.Length {
        return false;
      }
      buf[last] := x;
      last := (last + 1) % buf.Length;
      assert r == Some(View());
      return true;
    }

    method Take(dflt: T) returns (ok: bool, x: T)
      requires Valid()
      modifies this`first
      ensures Valid() && buf == old(buf) && ok == (old(Items(View())) != [])
      ensures if ok then old(Items(View())) == [x] + Items(View()) else Items(View()) == []
      ensures Remove(old(View())) == if ok then Some((x, View())) else None
    {
      EmptyFull(View());
      ghost var r := Remove(View());
      if first == last {
        return false, dflt;
      }
      x := buf[first];
      first := (first + 1) % buf.Length;
      assert r == Some((x, View()));
      return true, x;
    }
  }

  /* ---- any number of producers and consumers ---- */

  /** Where a thread is between two of its atomic steps. */
  datatype Phase<T> = Reserved(x: T) | Inserted | Claimed | Removed | Failed

  datatype Sys<T> = Sys(ring: Ring<T>, semEmpty: nat, semFull: nat, threads: map<nat, Phase<T>>, input: seq<T>, output: seq<T>)

  datatype Event<T> =
    | WaitEmpty(t: nat, x: T) | PutItem(t: nat) | PostFull(t: nat)
    | WaitFull(t: nat) | TakeItem(t: nat) | PostEmpty(t: nat)

  ghost predicate Enabled<T>(s: Sys<T>, e: Event<T>) {
    match e
    case WaitEmpty(t, x) => t !in s.threads && s.semEmpty > 0
    case PutItem(t) => t in s.threads && s.threads[t].Reserved?
    case PostFull(t) => t in s.threads && s.threads[t].Inserted?
    case WaitFull(t) => t !in s.threads && s.semFull > 0
    case TakeItem(t) => t in s.threads && s.threads[t].Claimed?
    case PostEmpty(t) => t in s.threads && s.threads[t].Removed?
  }

  ghost function Next<T>(s: Sys<T>, e: Event<T>): (s': Sys<T>)
    requires ValidRing(s.ring) && Enabled(s, e)
  {
    match e
    case WaitEmpty(t, x) => s.(semEmpty := s.semEmpty - 1, threads := s.threads[t := Reserved(x)])
    case PutItem(t) =>
      var x := s.threads[t].x;
      var r := Insert(s.ring, x);
      if r.None? then s.(threads := s.threads[t := Failed])
      else s.(ring := r.value, threads := s.threads[t := Inserted], input := s.input + [x])
    case PostFull(t) => s.(semFull := s.semFull + 1, threads := s.threads - {t})
    case WaitFull(t) => s.(semFull := s.semFull - 1, threads := s.threads[t := Claimed])
    case TakeItem(t) =>
      var r := Remove(s.ring);
      if r.None? then s.(threads := s.threads[t := Failed])
      else s.(ring := r.value.1, threads := s.threads[t := Removed], output := s.output + [r.value.0])
    case PostEmpty(t) => s.(semEmpty := s.semEmpty + 1, threads := s.threads - {t})
  }

  ghost predicate Init<T>(size: nat, s: Sys<T>) {
    && ValidRing(s.ring) && |s.ring.buf| == size + 1 && s.ring.first == 0 && s.ring.last == 0
    && s.semEmpty == size && s.semFull == 0 && s.threads == map[] && s.input == [] && s.output == []
  }

  ghost predicate IsRun<T>(size: nat, states: seq<Sys<T>>, events: seq<Event<T>>) {
    && |states| == |events| + 1 && Init(size, states[0])
    && forall i :: 0 <= i < |events| ==>
         ValidRing(states[i].ring) && Enabled(states[i], events[i]) && states[i + 1] == Next(states[i], events[i])
  }

  /** A thread counts as one by the name of its phase. */
  datatype Mark = MReserved | MInserted | MClaimed | MRemoved | MFailed

  function MarkOf<T>(p: Phase<T>): (m: Mark) {
    match p
    case Reserved(_) => MReserved
    case Inserted => MInserted
    case Claimed => MClaimed
    case Removed => MRemoved
    case Failed => MFailed
  }

  ghost function In<T>(threads: map<nat, Phase<T>>, m: Mark): (r: set<nat>) {
    set t | t in threads && MarkOf(threads[t]) == m
  }

  /** Semaphores and threads in between account for every slot. */
  ghost predicate Inv<T>(size: nat, s: Sys<T>) {
    && ValidRing(s.ring) && |s.ring.buf| == size + 1
    && In(s.threads, MFailed) == {}
    && s.semEmpty + |In(s.threads, MReserved)| + |Items(s.ring)| + |In(s.threads, MRemoved)| == size
    && |Items(s.ring)| == s.semFull + |In(s.threads, MClaimed)| + |In(s.threads, MInserted)|
    && s.input == s.output + Items(s.ring)
  }

  lemma SizeWithout(s: set<nat>, t: nat)
    ensures |s - {t}| == |s| - (if t in s then 1 else 0)
  {
    if t !in s {
      assert s - {t} == s;
    }
  }

  lemma PhaseSet<T>(threads: map<nat, Phase<T>>, t: nat, p: Phase<T>, m: Mark)
    ensures |In(threads[t := p], m)|
      == |In(threads, m)| - (if t in threads && MarkOf(threads[t]) == m then 1 else 0) + (if MarkOf(p) == m then 1 else 0)
  {
    var before, after := In(threads, m), In(threads[t := p], m);
    assert after - {t} == before - {t};
    SizeWithout(before, t);
    SizeWithout(after, t);
  }

  lemma PhaseGone<T>(threads: map<nat, Phase<T>>, t: nat, m: Mark)
    requires t in threads
    ensures |In(threads - {t}, m)| == |In(threads, m)| - (if MarkOf(threads[t]) == m then 1 else 0)
  {
    assert In(threads - {t}, m) == In(threads, m) - {t};
  }

  lemma EventKeepsInv<T>(size: nat, s: Sys<T>, e: Event<T>)
    requires Inv(size, s) && Enabled(s, e)
    ensures Inv(size, Next(s, e))
  {
    var s' := Next(s, e);
    forall m: Mark ensures |In(s'.threads, m)| ==
      |In(s.threads, m)| - (if e.t in s.threads && MarkOf(s.threads[e.t]) == m then 1 else 0)
      + (if e.t in s'.threads && MarkOf(s'.threads[e.t]) == m then 1 else 0)
    {
      if e.PostFull? || e.PostEmpty? {
        PhaseGone(s.threads, e.t, m);
      } else {
        PhaseSet(s.threads, e.t, s'.threads[e.t], m);
      }
    }
    assert |In(s.threads, MReserved)| > 0 || !e.PutItem? by {
      assert e.PutItem? ==> e.t in In(s.threads, MReserved);
    }
    assert |In(s.threads, MClaimed)| > 0 || !e.TakeItem? by {
      assert e.TakeItem? ==> e.t in In(s.threads, MClaimed);
    }
  }

  lemma {:induction false} RunInv<T>(size: nat, states: seq<Sys<T>>, events: seq<Event<T>>, n: nat)
    requires IsRun(size, states, events) && n < |states|
    ensures Inv(size, states[n])
  {
    if n == 0 {
      var none: map<nat, Phase<T>> := map[];
      assert forall m :: In(none, m) == {};
    } else {
      RunInv(size, states, events, n - 1);
      EventKeepsInv(size, states[n - 1], events[n - 1]);
    }
  }

  /** No thread ever finds the queue full when it inserts or empty when it takes. */
  lemma NeverFullNorEmpty<T>(size: nat, states: seq<Sys<T>>, events: seq<Event<T>>, n: nat, t: nat)
    requires IsRun(size, states, events) && n < |states| && t in states[n].threads
    ensures !states[n].threads[t].Failed?
  {
    RunInv(size, states, events, n);
    assert t !in In(states[n].threads, MFailed);
  }

  /** Items come out in the order in which they went in, none lost and none twice; at most `size` wait. */
  lemma FirstInFirstOut<T>(size: nat, states: seq<Sys<T>>, events: seq<Event<T>>, n: nat)
    requires IsRun(size, states, events) && n < |states|
    ensures states[n].output <= states[n].input && |states[n].input| - |states[n].output| <= size
    ensures ValidRing(states[n].ring) && states[n].input == states[n].output + Items(states[n].ring)
  {
    RunInv(size, states, events, n);
  }
}
