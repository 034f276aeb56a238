/** Order of the operations in the stage lists: no event ever reorders two of them. */
module PipelineOrder {
  import opened Common
  import opened PipelineState

  lemma {:induction false} FlowMember(ss: seq<Stage>, p: nat)
    ensures p in Flow(ss) <==> exists j :: 0 <= j < |ss| && p in ss[j].entries
  {
    if ss != [] {
      FlowMember(ss[1..], p);
      if p in Flow(ss[1..]) {
        var j :| 0 <= j < |ss[1..]| && p in ss[1..][j].entries;
        assert p in ss[j + 1].entries;
      }
      if j :| 0 <= j < |ss| && p in ss[j].entries {
        if j > 0 {
          assert p in ss[1..][j - 1].entries;
        }
      }
    }
  }

  /** Appending to a stage below which everything is empty appends to the flow. */
  lemma {:induction false} FlowAppend(ss: seq<Stage>, d: nat, st: Stage, more: seq<nat>)
    requires d < |ss| && st.entries == ss[d].entries + more
    requires forall j :: 0 <= j < d ==> ss[j].entries == []
    ensures Flow(ss[d := st]) == Flow(ss) + more
  {
    if d == 0 {
      assert ss[0 := st][1..] == ss[1..];
      assert Flow(ss[1..]) + st.entries == Flow(ss[1..]) + ss[0].entries + more;
    } else {
      FlowAppend(ss[1..], d - 1, st, more);
      assert ss[d := st][1..] == ss[1..][d - 1 := st];
    }
  }

  /** Changing stages without changing their lists keeps the flow. */
  lemma {:induction false} FlowSame(ss: seq<Stage>, ss': seq<Stage>)
    requires |ss| == |ss'|
    requires forall j :: 0 <= j < |ss| ==> ss[j].entries == ss'[j].entries
    ensures Flow(ss) == Flow(ss')
  {
    if ss != [] {
      FlowSame(ss[1..], ss'[1..]);
    }
  }

  /** Moving a prefix up over empty stages to the tail of `d` keeps the flow. */
  lemma {:induction false} FlowMove(ss: seq<Stage>, src: nat, d: nat, k: nat, low: Stage, high: Stage)
    requires src < d < |ss| && k <= |ss[src].entries|
    requires forall j :: src < j < d ==> ss[j].entries == []
    requires low.entries == ss[src].entries[k..]
    requires high.entries == ss[d].entries + ss[src].entries[..k]
    ensures Flow(ss[src := low][d := high]) == Flow(ss)
  {
    var ss' := ss[src := low][d := high];
    if src == 0 {
      FlowAppend(ss[1..], d - 1, high, ss[0].entries[..k]);
      assert ss'[1..] == ss[1..][d - 1 := high];
      assert ss[0].entries == ss[0].entries[..k] + ss[0].entries[k..];
    } else {
      FlowMove(ss[1..], src - 1, d - 1, k, low, high);
      assert ss'[1..] == ss[1..][src - 1 := low][d - 1 := high];
    }
  }

  lemma FlowUntouched(ss: seq<Stage>, gone: set<nat>)
    requires forall j, p :: 0 <= j < |ss| && p in ss[j].entries ==> p !in gone
    ensures Without(Flow(ss), gone) == Flow(ss)
  {
    forall p | p in Flow(ss) ensures p !in gone {
      FlowMember(ss, p);
    }
    WithoutNothing(Flow(ss), gone);
  }

  /** Deleting operations of one stage deletes them from the flow. */
  lemma {:induction false} FlowWithout(ss: seq<Stage>, at: nat, st: Stage, gone: set<nat>)
    requires at < |ss| && st.entries == Without(ss[at].entries, gone)
    requires forall j, p :: 0 <= j < |ss| && j != at && p in ss[j].entries ==> p !in gone
    ensures Flow(ss[at := st]) == Without(Flow(ss), gone)
  {
    WithoutConcat(Flow(ss[1..]), ss[0].entries, gone);
    if at == 0 {
      assert ss[0 := st][1..] == ss[1..];
      FlowUntouched(ss[1..], gone);
    } else {
      assert ss[at := st][1..] == ss[1..][at - 1 := st];
      assert forall j, p :: 0 <= j < |ss[1..]| && j != at - 1 && p in ss[1..][j].entries ==>
          p in ss[j + 1].entries;
      FlowWithout(ss[1..], at - 1, st, gone);
      WithoutNothing(ss[0].entries, gone);
    }
  }

  lemma FlowParts(ss: seq<Stage>)
    requires ss != [] && Increasing(Flow(ss))
    ensures Increasing(Flow(ss[1..])) && Increasing(ss[0].entries)
    ensures forall p, q :: p in ss[0].entries && q in Flow(ss[1..]) ==> q < p
  {
    var up, f := Flow(ss[1..]), Flow(ss);
    assert up == f[..|up|] && ss[0].entries == f[|up|..];
    forall p, q | p in ss[0].entries && q in up ensures q < p {
      var a :| 0 <= a < |up| && up[a] == q;
      var b :| 0 <= b < |ss[0].entries| && ss[0].entries[b] == p;
      assert f[a] == q && f[|up| + b] == p;
    }
  }

  lemma {:induction false} FlowListsIncreasing(ss: seq<Stage>)
    requires Increasing(Flow(ss))
    ensures forall j :: 0 <= j < |ss| ==> Increasing(ss[j].entries)
  {
    if ss != [] {
      FlowParts(ss);
      FlowListsIncreasing(ss[1..]);
      forall j | 0 <= j < |ss| ensures Increasing(ss[j].entries) {
        if j > 0 {
          assert ss[j] == ss[1..][j - 1];
        }
      }
    }
  }

  /** An operation of a later stage was pushed before. */
  lemma {:induction false} FlowAcross(ss: seq<Stage>, j: nat, l: nat, p: nat, q: nat)
    requires Increasing(Flow(ss)) && j < l < |ss| && p in ss[j].entries && q in ss[l].entries
    ensures q < p
  {
    FlowParts(ss);
    assert ss[l] == ss[1..][l - 1];
    if j > 0 {
      assert ss[j] == ss[1..][j - 1];
      FlowAcross(ss[1..], j - 1, l - 1, p, q);
    } else {
      FlowMember(ss[1..], q);
    }
  }

  /** What an increasing flow says about the lists. */
  lemma FlowIncreasing(ss: seq<Stage>)
    requires Increasing(Flow(ss))
    ensures forall j :: 0 <= j < |ss| ==> Increasing(ss[j].entries)
    ensures forall j, l, p, q :: 0 <= j < l < |ss| && p in ss[j].entries && q in ss[l].entries ==> q < p
    ensures forall j, l, p :: 0 <= j < |ss| && 0 <= l < |ss| && j != l && p in ss[j].entries ==> p !in ss[l].entries
  {
    FlowListsIncreasing(ss);
    forall j, l, p, q | 0 <= j < l < |ss| && p in ss[j].entries && q in ss[l].entries ensures q < p {
      FlowAcross(ss, j, l, p, q);
    }
  }

  /** Every operation is listed once, and the lists read from last to first are in push order. */
  ghost predicate InOrder(s: State) {
    && Increasing(Flow(s.stages))
    && (forall p :: p in Flow(s.stages) <==> p in s.ops)
    && forall p :: p in s.ops ==> p < s.pushed
  }

  lemma PushKeepsOrder(c: Config, s: State, e: Event)
    requires WellShaped(c, s) && e.Push? && Enabled(c, s, e) && InOrder(s)
    ensures InOrder(Next(c, s, e))
    ensures Flow(Next(c, s, e).stages) == Flow(s.stages) + [s.pushed]
  {
    var s' := Next(c, s, e);
    var d := InsertStage(s.stages, 0, e.stage);
    FlowAppend(s.stages, d, s'.stages[d], [s.pushed]);
    assert forall p :: p in Flow(s'.stages) <==> p in Flow(s.stages) || p == s.pushed;
    assert forall i :: 0 <= i < |Flow(s.stages)| ==> Flow(s.stages)[i] in s.ops;
  }

  lemma MoveKeepsOrder(c: Config, s: State, src: nat)
    requires WellShaped(c, s) && Enabled(c, s, Move(src)) && InOrder(s)
    ensures InOrder(Next(c, s, Move(src)))
    ensures Flow(Next(c, s, Move(src)).stages) == Flow(s.stages)
  {
    var s' := Next(c, s, Move(src));
    var d := MoveTarget(c, s, src);
    var k := ReadyLen(s.stages[src].entries, s.ops, src);
    FlowMove(s.stages, src, d, k, s'.stages[src], s'.stages[d]);
  }

  lemma AckKeepsOrder(c: Config, s: State, t: nat, next: nat, remove: bool)
    requires WellShaped(c, s) && Enabled(c, s, Ack(t, next, remove)) && InOrder(s)
    requires forall p :: p in s.workers[t].ops ==> p in s.stages[s.workers[t].at].entries
    ensures InOrder(Next(c, s, Ack(t, next, remove)))
    ensures var gone := if remove then Elems(s.workers[t].ops) else {};
      Flow(Next(c, s, Ack(t, next, remove)).stages) == Without(Flow(s.stages), gone)
  {
    var s' := Next(c, s, Ack(t, next, remove));
    var at := s.workers[t].at;
    var gone := if remove then Elems(s.workers[t].ops) else {};
    if remove {
      FlowIncreasing(s.stages);
      FlowWithout(s.stages, at, s'.stages[at], gone);
      WithoutIncreasing(Flow(s.stages), gone);
    } else {
      FlowSame(s.stages, s'.stages);
      WithoutNothing(Flow(s.stages), gone);
    }
  }
}
