/** Definitions and facts about sequences and sets that several components share. */
module Common {

  datatype Option<+T> = None | Some(value: T)

  /** Comparators of the configuration language; the last one stands for a command. */
  datatype Operator = OpEqual | OpDiff | OpGt | OpGtEq | OpLt | OpLtEq | OpCmd

  /** The number of values of a 64-bit word. */
  const WORD: nat := 0x1_0000_0000_0000_0000

  /** The value of `k`, if there is one. */
  function Get<K, V>(m: map<K, V>, k: K): (r: Option<V>) {
    if k in m then Some(m[k]) else None
  }

  /** `m` with the value of `k` set, or removed. */
  function Put<K, V>(m: map<K, V>, k: K, v: Option<V>): (r: map<K, V>) {
    if v.Some? then m[k := v.value] else m - {k}
  }

  ghost predicate Increasing(s: seq<nat>) {
    forall i, j :: 0 <= i < j < |s| ==> s[i] < s[j]
  }

  ghost predicate Distinct<T>(s: seq<T>) {
    forall i, j :: 0 <= i < j < |s| ==> s[i] != s[j]
  }

  ghost function Elems<T>(s: seq<T>): (r: set<T>) {
    set x | x in s
  }

  /** `s` with every member of `gone` deleted, order kept. */
  function Without(s: seq<nat>, gone: set<nat>): (r: seq<nat>)
    ensures forall x :: x in r <==> x in s && x !in gone
  {
    if s == [] then []
    else (if s[0] in gone then [] else [s[0]]) + Without(s[1..], gone)
  }

  lemma {:induction false} WithoutConcat(a: seq<nat>, b: seq<nat>, gone: set<nat>)
    ensures Without(a + b, gone) == Without(a, gone) + Without(b, gone)
  {
    if a == [] {
      assert a + b == b;
    } else {
      var head := if a[0] in gone then [] else [a[0]];
      calc {
        Without(a + b, gone);
        { assert (a + b)[1..] == a[1..] + b; }
        head + Without(a[1..] + b, gone);
        { WithoutConcat(a[1..], b, gone); }
        head + (Without(a[1..], gone) + Without(b, gone));
        (head + Without(a[1..], gone)) + Without(b, gone);
        Without(a, gone) + Without(b, gone);
      }
    }
  }

  lemma {:induction false} WithoutIncreasing(s: seq<nat>, gone: set<nat>)
    requires Increasing(s)
    ensures Increasing(Without(s, gone))
  {
    if s != [] {
      WithoutIncreasing(s[1..], gone);
      var rest := Without(s[1..], gone);
      assert forall i :: 0 <= i < |rest| ==> rest[i] in s[1..];
    }
  }

  lemma {:induction false} WithoutDistinct(s: seq<nat>, gone: set<nat>)
    requires Distinct(s)
    ensures Distinct(Without(s, gone))
  {
    if s != [] {
      WithoutDistinct(s[1..], gone);
      assert s[0] !in s[1..];
    }
  }

  lemma {:induction false} WithoutNothing(s: seq<nat>, gone: set<nat>)
    requires forall x :: x in s ==> x !in gone
    ensures Without(s, gone) == s
  {
    if s != [] {
      WithoutNothing(s[1..], gone);
    }
  }

  lemma {:induction false} WithoutAll(s: seq<nat>, gone: set<nat>)
    requires forall x :: x in s ==> x in gone
    ensures Without(s, gone) == []
  {
    if s != [] {
      WithoutAll(s[1..], gone);
    }
  }

  lemma {:induction false} WithoutTwice(s: seq<nat>, a: set<nat>, b: set<nat>)
    ensures Without(Without(s, a), b) == Without(s, a + b)
  {
    if s != [] {
      WithoutTwice(s[1..], a, b);
      WithoutConcat(if s[0] in a then [] else [s[0]], Without(s[1..], a), b);
    }
  }

  /** `s` with only the members of `keep`, order kept. */
  function Only(s: seq<nat>, keep: set<nat>): (r: seq<nat>)
    ensures forall x :: x in r <==> x in s && x in keep
  {
    if s == [] then []
    else (if s[0] in keep then [s[0]] else []) + Only(s[1..], keep)
  }

  lemma {:induction false} OnlyConcat(a: seq<nat>, b: seq<nat>, keep: set<nat>)
    ensures Only(a + b, keep) == Only(a, keep) + Only(b, keep)
  {
    if a == [] {
      assert a + b == b;
    } else {
      OnlyConcat(a[1..], b, keep);
      assert (a + b)[1..] == a[1..] + b;
      var head := if a[0] in keep then [a[0]] else [];
      assert head + (Only(a[1..], keep) + Only(b, keep)) == (head + Only(a[1..], keep)) + Only(b, keep);
    }
  }

  lemma OnlyOne(x: nat, keep: set<nat>)
    ensures Only([x], keep) == if x in keep then [x] else []
  {
    assert [x][1..] == [];
  }

  lemma {:induction false} OnlyWithout(s: seq<nat>, gone: set<nat>, keep: set<nat>)
    ensures Only(Without(s, gone), keep) == Without(Only(s, keep), gone)
  {
    if s != [] {
      OnlyWithout(s[1..], gone, keep);
      var head := if s[0] in gone then [] else [s[0]];
      OnlyConcat(head, Without(s[1..], gone), keep);
      var head' := if s[0] in keep then [s[0]] else [];
      WithoutConcat(head', Only(s[1..], keep), gone);
    }
  }

  lemma {:induction false} OnlyDistinct(s: seq<nat>, keep: set<nat>)
    requires Distinct(s)
    ensures Distinct(Only(s, keep))
  {
    if s != [] {
      OnlyDistinct(s[1..], keep);
      assert s[0] !in s[1..];
    }
  }

  lemma {:induction false} OnlyIncreasing(s: seq<nat>, keep: set<nat>)
    requires Increasing(s)
    ensures Increasing(Only(s, keep))
  {
    if s != [] {
      OnlyIncreasing(s[1..], keep);
      var rest := Only(s[1..], keep);
      assert forall i :: 0 <= i < |rest| ==> rest[i] in s[1..];
    }
  }

  /** `Only` depends on the members of `keep` that occur in `s`. */
  lemma {:induction false} OnlySame(s: seq<nat>, keep: set<nat>, keep': set<nat>)
    requires forall x :: x in s ==> (x in keep <==> x in keep')
    ensures Only(s, keep) == Only(s, keep')
  {
    if s != [] {
      OnlySame(s[1..], keep, keep');
    }
  }

  lemma DistinctConcat<T>(a: seq<T>, b: seq<T>)
    requires Distinct(a) && Distinct(b) && forall x :: x in a ==> x !in b
    ensures Distinct(a + b)
  {
    var c := a + b;
    forall i, j | 0 <= i < j < |c| ensures c[i] != c[j] {
      if i < |a| <= j {
        assert c[i] in a && c[j] in b;
      }
    }
  }

  lemma {:induction false} ElemsSize<T>(s: seq<T>)
    requires Distinct(s)
    ensures |Elems(s)| == |s|
  {
    if s != [] {
      ElemsSize(s[1..]);
      assert Elems(s) == {s[0]} + Elems(s[1..]);
      assert s[0] !in s[1..];
    }
  }

  lemma SizeMinus<T>(whole: set<T>, part: set<T>, rest: set<T>)
    requires part <= whole && rest == whole - part
    ensures |rest| == |whole| - |part|
  {
    SubsetSize(part, whole);
  }

  lemma SizePlus<T>(a: set<T>, b: set<T>, whole: set<T>)
    requires a !! b && whole == a + b
    ensures |whole| == |a| + |b|
  {
  }

  lemma SubsetSize<T>(a: set<T>, b: set<T>)
    requires a <= b
    ensures |a| <= |b| && |b - a| == |b| - |a|
  {
    assert b == a + (b - a);
  }

  /** Steps labelled `labels` lead from `s` to `s'`. */
  ghost predicate Chain<S(!new)>(step: (S, nat, S) -> bool, s: S, labels: seq<nat>, s': S)
    decreases labels
  {
    if labels == [] then s == s'
    else exists mid :: step(s, labels[0], mid) && Chain(step, mid, labels[1..], s')
  }

  lemma {:induction false} ChainConcat<S(!new)>(step: (S, nat, S) -> bool, s: S, a: seq<nat>, s1: S, b: seq<nat>, s2: S)
    requires Chain(step, s, a, s1) && Chain(step, s1, b, s2)
    ensures Chain(step, s, a + b, s2)
    decreases a
  {
    if a == [] {
      assert a + b == b;
    } else {
      var mid :| step(s, a[0], mid) && Chain(step, mid, a[1..], s1);
      ChainConcat(step, mid, a[1..], s1, b, s2);
      assert (a + b)[1..] == a[1..] + b;
    }
  }

  lemma ChainOne<S(!new)>(step: (S, nat, S) -> bool, s: S, a: nat, s': S)
    requires step(s, a, s')
    ensures Chain(step, s, [a], s')
  {
    assert [a][1..] == [] && Chain(step, s', [], s');
  }

  /** What every step keeps, a chain keeps. */
  lemma {:induction false} ChainKeeps<S(!new)>(step: (S, nat, S) -> bool, keeps: S -> bool, s: S, labels: seq<nat>, s': S)
    requires Chain(step, s, labels, s') && keeps(s)
    requires forall x, a, y :: a in labels && keeps(x) && step(x, a, y) ==> keeps(y)
    ensures keeps(s')
    decreases labels
  {
    if labels != [] {
      var mid :| step(s, labels[0], mid) && Chain(step, mid, labels[1..], s');
      assert labels[0] in labels;
      ChainKeeps(step, keeps, mid, labels[1..], s');
    }
  }

  /** A map of states that every step commutes with carries a chain over. */
  lemma {:induction false} ChainMap<S(!new)>(step: (S, nat, S) -> bool, f: S -> S, s: S, labels: seq<nat>, s': S)
    requires Chain(step, s, labels, s')
    requires forall x, a, y :: a in labels && step(x, a, y) ==> step(f(x), a, f(y))
    ensures Chain(step, f(s), labels, f(s'))
    decreases labels
  {
    if labels != [] {
      var mid :| step(s, labels[0], mid) && Chain(step, mid, labels[1..], s');
      assert labels[0] in labels;
      forall x, a, y | a in labels[1..] && step(x, a, y) ensures step(f(x), a, f(y)) {
        assert a in labels;
      }
      ChainMap(step, f, mid, labels[1..], s');
    }
  }

  /** `s'` is `s` without the element at `a`. */
  ghost predicate CutAt<T>(s: seq<T>, a: nat, s': seq<T>) {
    && a < |s| && |s'| == |s| - 1
    && (forall i :: 0 <= i < a ==> s'[i] == s[i])
    && (forall i :: a <= i < |s'| ==> s'[i] == s[i + 1])
  }
}
