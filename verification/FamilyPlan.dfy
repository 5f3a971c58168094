/** The order in which an admitted continuation executes its plan, and what every prefix of that
    execution leaves behind. */
module FamilyPlan {
  import opened Sorted
  import opened FrameIndex
  import opened GraphState
  import opened Lineage

  // ---- the admission walk ----------------------------------------------------------------

  /** A child the walk descends into: a running, current activation of this owner. */
  predicate IsRunningChild(b: Binding, c: Binding) {
    && ParentOf(c).Nested?
    && ParentOf(c).activation.at == b.at
    && IsCurrentChild(b.state, ParentOf(c).activation)
    && c.state.status == Running
  }

  function RunningChildren(bs: seq<Binding>, b: Binding): (cs: seq<Binding>)
    ensures forall c :: c in cs <==> c in bs && IsRunningChild(b, c)
    ensures forall c :: c in cs ==> |c.at.scope| == |b.at.scope| + 1
  {
    if bs == [] then []
    else
      var n := |bs| - 1;
      assert bs == bs[..n] + [bs[n]];
      RunningChildren(bs[..n], b) + (if IsRunningChild(b, bs[n]) then [bs[n]] else [])
  }

  function Depth(bs: seq<Binding>): (d: nat)
    ensures forall b :: b in bs ==> |b.at.scope| <= d
  {
    if bs == [] then 0
    else
      var n := |bs| - 1;
      assert bs == bs[..n] + [bs[n]];
      if Depth(bs[..n]) < |bs[n].at.scope| then |bs[n].at.scope| else Depth(bs[..n])
  }

  /** The scopes the depth-first walk admits, in order, starting at one owner. */
  function Visit(bs: seq<Binding>, b: Binding): (vs: seq<Binding>)
    requires b in bs
    decreases Depth(bs) - |b.at.scope|, 1, 0
  {
    [b] + VisitAll(bs, b, RunningChildren(bs, b))
  }

  function VisitAll(bs: seq<Binding>, b: Binding, cs: seq<Binding>): (vs: seq<Binding>)
    requires b in bs && forall c :: c in cs ==> c in bs && |c.at.scope| == |b.at.scope| + 1
    decreases Depth(bs) - |b.at.scope|, 0, |cs|
  {
    if cs == [] then []
    else
      var n := |cs| - 1;
      VisitAll(bs, b, cs[..n]) + Visit(bs, cs[n])
  }

  ghost predicate DistinctAts(vs: seq<Binding>) {
    forall i, j :: 0 <= i < j < |vs| ==> vs[i].at != vs[j].at
  }

  lemma {:induction false} VisitMembers(bs: seq<Binding>, b: Binding)
    requires b in bs
    ensures forall v :: v in Visit(bs, b) ==> v in bs && b.at.scope <= v.at.scope
    ensures forall v :: v in Visit(bs, b) ==> v == b || v.state.status == Running
    decreases Depth(bs) - |b.at.scope|, 1, 0
  {
    VisitAllMembers(bs, b, RunningChildren(bs, b));
  }

  lemma {:induction false} VisitAllMembers(bs: seq<Binding>, b: Binding, cs: seq<Binding>)
    requires b in bs && forall c :: c in cs ==> c in bs && IsRunningChild(b, c) && |c.at.scope| == |b.at.scope| + 1
    ensures forall v :: v in VisitAll(bs, b, cs) ==>
                          && v in bs && v.state.status == Running
                          && b.at.scope <= v.at.scope && |b.at.scope| < |v.at.scope|
                          && exists c :: c in cs && c.at.scope <= v.at.scope
    decreases Depth(bs) - |b.at.scope|, 0, |cs|
  {
    if cs != [] {
      var n := |cs| - 1;
      VisitAllMembers(bs, b, cs[..n]);
      assert cs == cs[..n] + [cs[n]];
      VisitMembers(bs, cs[n]);
      assert b.at.scope <= cs[n].at.scope;
    }
  }

  /** Two running children of one owner live in different scopes. */
  lemma {:induction false} SiblingsDiverge(b: Binding, c: Binding, d: Binding)
    requires IsRunningChild(b, c) && IsRunningChild(b, d) && c.at != d.at
    ensures c.at.scope != d.at.scope && |c.at.scope| == |d.at.scope|
  {
    var x, y := ParentOf(c).activation, ParentOf(d).activation;
    assert c.at == ChildScopeRun(b.at, b.state.superstep, x.node);
    assert d.at == ChildScopeRun(b.at, b.state.superstep, y.node);
    assert c.at.scope[|b.at.scope|] == x.node && d.at.scope[|b.at.scope|] == y.node;
  }

  lemma {:induction false} ChildrenDistinct(bs: seq<Binding>, b: Binding)
    requires Ascending(ScopeRunLess, Ats(bs))
    ensures DistinctAts(RunningChildren(bs, b))
  {
    if bs != [] {
      var n := |bs| - 1;
      assert Ats(bs[..n]) == Ats(bs)[..n];
      ChildrenDistinct(bs[..n], b);
      var front := RunningChildren(bs[..n], b);
      forall i | 0 <= i < |front|
        ensures front[i].at != bs[n].at
      {
        assert front[i] in front;
        var j :| 0 <= j < n && bs[j] == front[i];
        ScopeRunOrder();
        assert ScopeRunLess(Ats(bs)[j], Ats(bs)[n]);
      }
    }
  }

  /** The walk admits no scope twice. */
  lemma {:induction false} VisitDistinct(bs: seq<Binding>, b: Binding)
    requires b in bs && Ascending(ScopeRunLess, Ats(bs))
    ensures DistinctAts(Visit(bs, b))
    decreases Depth(bs) - |b.at.scope|, 1, 0
  {
    var cs := RunningChildren(bs, b);
    ChildrenDistinct(bs, b);
    VisitAllDistinct(bs, b, cs);
    VisitAllMembers(bs, b, cs);
    var rest := VisitAll(bs, b, cs);
    forall i | 0 <= i < |rest|
      ensures rest[i].at != b.at
    {
      assert rest[i] in rest;
    }
  }

  lemma {:induction false} VisitAllDistinct(bs: seq<Binding>, b: Binding, cs: seq<Binding>)
    requires b in bs && Ascending(ScopeRunLess, Ats(bs)) && DistinctAts(cs)
    requires forall c :: c in cs ==> c in bs && IsRunningChild(b, c) && |c.at.scope| == |b.at.scope| + 1
    ensures DistinctAts(VisitAll(bs, b, cs))
    decreases Depth(bs) - |b.at.scope|, 0, |cs|
  {
    if cs != [] {
      var n := |cs| - 1;
      var front, last := VisitAll(bs, b, cs[..n]), Visit(bs, cs[n]);
      VisitAllDistinct(bs, b, cs[..n]);
      VisitDistinct(bs, cs[n]);
      forall v, w | v in front && w in last
        ensures v.at != w.at
      {
        VisitsApart(bs, b, cs, v, w);
      }
      JoinDistinct(front, last);
    }
  }

  lemma {:induction false} VisitsApart(bs: seq<Binding>, b: Binding, cs: seq<Binding>, v: Binding, w: Binding)
    requires b in bs && DistinctAts(cs) && cs != []
    requires forall c :: c in cs ==> c in bs && IsRunningChild(b, c) && |c.at.scope| == |b.at.scope| + 1
    requires v in VisitAll(bs, b, cs[..|cs| - 1]) && w in Visit(bs, cs[|cs| - 1])
    ensures v.at != w.at
  {
    var n := |cs| - 1;
    VisitMembers(bs, cs[n]);
    var i := VisitedBelow(bs, b, cs[..n], v);
    assert cs[i] in cs;
    SiblingsApart(b, cs[i], cs[n], v, w);
  }

  /** Everything visited below some children lies below one of them. */
  lemma {:induction false} VisitedBelow(bs: seq<Binding>, b: Binding, cs: seq<Binding>, v: Binding) returns (i: nat)
    requires b in bs && forall c :: c in cs ==> c in bs && IsRunningChild(b, c) && |c.at.scope| == |b.at.scope| + 1
    requires v in VisitAll(bs, b, cs)
    ensures i < |cs| && cs[i].at.scope <= v.at.scope
  {
    VisitAllMembers(bs, b, cs);
    var c :| c in cs && c.at.scope <= v.at.scope;
    i :| 0 <= i < |cs| && cs[i] == c;
  }

  lemma {:induction false} SiblingsApart(b: Binding, c: Binding, d: Binding, v: Binding, w: Binding)
    requires IsRunningChild(b, c) && IsRunningChild(b, d) && c.at != d.at && c.at.scope <= v.at.scope
    requires d.at.scope <= w.at.scope
    ensures v.at != w.at
  {
    SiblingsDiverge(b, c, d);
    PrefixesDiverge(c.at.scope, d.at.scope, v.at.scope, w.at.scope);
  }

  lemma {:induction false} PrefixesDiverge<T>(a: seq<T>, b: seq<T>, v: seq<T>, w: seq<T>)
    requires a <= v && b <= w && |a| == |b| && a != b
    ensures v != w
  {
    assert a == v[..|a|] && b == w[..|b|];
  }

  lemma {:induction false} JoinDistinct(a: seq<Binding>, b: seq<Binding>)
    requires DistinctAts(a) && DistinctAts(b)
    requires forall v, w :: v in a && w in b ==> v.at != w.at
    ensures DistinctAts(a + b)
  {
    forall i, j | 0 <= i < j < |a + b|
      ensures (a + b)[i].at != (a + b)[j].at
    {
      if i < |a| <= j {
        assert (a + b)[i] in a && (a + b)[j] in b;
      }
    }
  }

  /** Whatever the walk admits, it also admits the running children of. */
  lemma {:induction false} VisitClosed(bs: seq<Binding>, b: Binding, v: Binding, c: Binding)
    requires b in bs && v in Visit(bs, b) && c in RunningChildren(bs, v)
    ensures c in Visit(bs, b)
    decreases Depth(bs) - |b.at.scope|, 1, 0
  {
    if v == b {
      VisitsChild(bs, b, RunningChildren(bs, b), c);
    } else {
      VisitAllClosed(bs, b, RunningChildren(bs, b), v, c);
    }
  }

  lemma {:induction false} VisitAllClosed(bs: seq<Binding>, b: Binding, cs: seq<Binding>, v: Binding, c: Binding)
    requires b in bs && forall d :: d in cs ==> d in bs && |d.at.scope| == |b.at.scope| + 1
    requires v in VisitAll(bs, b, cs) && c in RunningChildren(bs, v)
    ensures c in VisitAll(bs, b, cs)
    decreases Depth(bs) - |b.at.scope|, 0, |cs|
  {
    var n := |cs| - 1;
    assert cs == cs[..n] + [cs[n]];
    if v in Visit(bs, cs[n]) {
      VisitClosed(bs, cs[n], v, c);
    } else {
      VisitAllClosed(bs, b, cs[..n], v, c);
    }
  }

  lemma {:induction false} VisitsChild(bs: seq<Binding>, b: Binding, cs: seq<Binding>, c: Binding)
    requires b in bs && forall d :: d in cs ==> d in bs && |d.at.scope| == |b.at.scope| + 1
    requires c in cs
    ensures c in VisitAll(bs, b, cs)
    decreases |cs|
  {
    var n := |cs| - 1;
    assert cs == cs[..n] + [cs[n]];
    if c != cs[n] {
      VisitsChild(bs, b, cs[..n], c);
    }
  }

  /** The walk reaches every running scope: a running child's parent is itself running and current,
      all the way up to the root. */
  lemma {:induction false} VisitReachesRunning(graph: Graph, bs: seq<Binding>, i: nat)
    requires CanonicalLineage(bs) && Plannable(graph, bs)
    requires i < |bs| && bs[i].state.status == Running
    ensures bs[i] in Visit(bs, bs[0])
    decreases |bs[i].at.scope|
  {
    assert FenceAdmissible(graph, bs, bs[i]);
    if i > 0 {
      var a := ParentOf(bs[i]).activation;
      var parent := BindingAt(bs, a.at).value;
      var k :| 0 <= k < |bs| && bs[k] == parent;
      assert |a.at.scope| < |bs[i].at.scope|;
      VisitReachesRunning(graph, bs, k);
      assert IsRunningChild(parent, bs[i]);
      VisitClosed(bs, bs[0], parent, bs[i]);
    }
  }
}
