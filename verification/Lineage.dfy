/** The scoped lineage of one graph family and the planning of fences over it. */
module Lineage {
  import opened Sorted
  import opened FrameIndex
  import opened GraphState

  /** How a node gets its input: the frame it takes, and whether a predecessor supplies part of it. */
  datatype NodeInput = NodeInput(descriptor: nat, predecessorBound: bool)

  /** The part of a compiled graph that planning reads: its nodes and the graphs nested in them. */
  datatype Graph = Graph(nodes: map<Text, NodeInput>, nested: map<Text, Graph>)

  function GraphAt(graph: Graph, scope: seq<Text>): (r: Option<Graph>)
    decreases scope
  {
    if scope == [] then Some(graph)
    else if scope[0] in graph.nested then GraphAt(graph.nested[scope[0]], scope[1..])
    else None
  }

  // ---- bindings --------------------------------------------------------------------------

  datatype Binding = Binding(at: ScopeRun, state: State)

  datatype Parentage = Malformed | IsRoot | Nested(activation: StableActivation)

  /** Validate and project the parent activation a state carries. */
  function ParentOf(b: Binding): (p: Parentage)
    ensures p.Nested? ==>
              && b.at == ChildScopeRun(p.activation.at, p.activation.superstep, p.activation.node)
              && b.state.parent == Some(Activation(p.activation.at.run, p.activation.superstep, p.activation.node))
    ensures p.IsRoot? ==> b.at.scope == []
  {
    if b.state.run != b.at.run then Malformed
    else
      match b.state.parent
      case None => if b.at.scope != [] then Malformed else IsRoot
      case Some(parent) =>
        if b.at.scope == [] || b.at.scope[|b.at.scope| - 1] != parent.node then Malformed
        else
          var parentAt := ScopeRun(b.at.scope[..|b.at.scope| - 1], parent.run);
          if ChildScopeRun(parentAt, parent.superstep, parent.node) != b.at then Malformed
          else Nested(StableActivation(parentAt, parent.superstep, parent.node))
  }

  datatype Evidence = Bound(binding: Binding) | Uncreated(scopeRun: ScopeRun) {
    function At(): (at: ScopeRun) {
      match this
      case Bound(b) => b.at
      case Uncreated(at) => at
    }
  }

  function Ats(bindings: seq<Binding>): (ats: seq<ScopeRun>)
    ensures |ats| == |bindings| && forall i :: 0 <= i < |bindings| ==> ats[i] == bindings[i].at
  {
    seq(|bindings|, i requires 0 <= i < |bindings| => bindings[i].at)
  }

  function EvidenceAts(runs: seq<Evidence>): (ats: seq<ScopeRun>)
    ensures |ats| == |runs| && forall i :: 0 <= i < |runs| ==> ats[i] == runs[i].At()
  {
    seq(|runs|, i requires 0 <= i < |runs| => runs[i].At())
  }

  function BoundRuns(runs: seq<Evidence>): (bs: seq<Binding>)
    ensures forall b :: b in bs <==> Bound(b) in runs
  {
    if runs == [] then []
    else
      var rest := BoundRuns(runs[..|runs| - 1]);
      var last := runs[|runs| - 1];
      assert runs == runs[..|runs| - 1] + [last];
      if last.Bound? then rest + [last.binding] else rest
  }

  function UncreatedRuns(runs: seq<Evidence>): (ats: set<ScopeRun>)
    ensures forall at :: at in ats <==> Uncreated(at) in runs
  {
    set e | e in runs && e.Uncreated? :: e.scopeRun
  }

  datatype PlannedLineage = PlannedLineage(bindings: seq<Binding>, uncreated: set<ScopeRun>)

  predicate AdmissibleEvidence(e: Evidence) {
    e.At().scope != [] && (e.Bound? ==> !ParentOf(e.binding).Malformed?)
  }

  /** `lineage_states`: admit the child evidence and put the root in front of it. The children are
      already in canonical order and nested, so prefixing the root is the canonical sort. */
  function LineageStates(root: State, runs: seq<Evidence>): (r: Option<PlannedLineage>) {
    if !Pairwise(ScopeRunLess, EvidenceAts(runs)) || exists i :: 0 <= i < |runs|
                                                                 && !AdmissibleEvidence(runs[i]) then None
    else Some(PlannedLineage([Binding(RootScopeRun(root.run), root)] + BoundRuns(runs), UncreatedRuns(runs)))
  }

  ghost predicate CanonicalLineage(bs: seq<Binding>) {
    && bs != []
    && Ascending(ScopeRunLess, Ats(bs))
    && bs[0].at == RootScopeRun(bs[0].state.run)
    && (forall i :: 0 < i < |bs| ==> bs[i].at.scope != [] && !ParentOf(bs[i]).Malformed?)
  }

  lemma {:induction false} BoundRunsAscend(runs: seq<Evidence>)
    requires Ascending(ScopeRunLess, EvidenceAts(runs))
    ensures Ascending(ScopeRunLess, Ats(BoundRuns(runs)))
  {
    if runs != [] {
      var n := |runs| - 1;
      var front, last := runs[..n], runs[n];
      assert EvidenceAts(front) == EvidenceAts(runs)[..n];
      BoundRunsAscend(front);
      var bs := BoundRuns(front);
      forall i | 0 <= i < |bs|
        ensures ScopeRunLess(bs[i].at, last.At())
      {
        assert bs[i] in bs;
        var j :| 0 <= j < n && runs[j] == Bound(bs[i]);
        assert ScopeRunLess(EvidenceAts(runs)[j], EvidenceAts(runs)[n]);
      }
    }
  }

  /** Every admitted lineage is strictly ordered, and the root is always element 0. */
  lemma {:induction false} LineageIsCanonical(root: State, runs: seq<Evidence>)
    requires LineageStates(root, runs).Some?
    ensures CanonicalLineage(LineageStates(root, runs).value.bindings)
    ensures Ascending(ScopeRunLess, EvidenceAts(runs))
  {
    ScopeRunOrder();
    PairwiseIsAscending(ScopeRunLess, EvidenceAts(runs));
    BoundRunsAscend(runs);
    var bs := LineageStates(root, runs).value.bindings;
    var children := BoundRuns(runs);
    forall i | 0 <= i < |children|
      ensures children[i].at.scope != [] && !ParentOf(children[i]).Malformed?
      ensures ScopeRunLess(bs[0].at, Ats(children)[i])
    {
      assert Bound(children[i]) in runs;
      RootPrecedesNested(bs[0].at, children[i].at);
    }
    PrependAscending(ScopeRunLess, bs[0].at, Ats(children));
    assert Ats(bs) == [bs[0].at] + Ats(children);
  }

  // ---- lookup and replacement ------------------------------------------------------------

  function Position(bs: seq<Binding>, at: ScopeRun): (p: Option<nat>)
    ensures p.Some? ==> p.value < |bs| && bs[p.value].at == at
  {
    var p := Bisect(ScopeRunLess, Ats(bs), at, 0, |bs|);
    if p == |bs| || bs[p].at != at then None else Some(p)
  }

  function BindingAt(bs: seq<Binding>, at: ScopeRun): (b: Option<Binding>)
    ensures b.Some? ==> b.value in bs && b.value.at == at
  {
    match Position(bs, at)
    case None => None
    case Some(p) => Some(bs[p])
  }

  function Replace(bs: seq<Binding>, b: Binding): (r: Option<seq<Binding>>) {
    match Position(bs, b.at)
    case None => None
    case Some(p) => Some(bs[..p] + [b] + bs[p + 1..])
  }

  /** The binary search finds a binding exactly when it is present, at its only position. */
  lemma {:induction false} PositionSpec(bs: seq<Binding>, i: nat)
    requires Ascending(ScopeRunLess, Ats(bs)) && i < |bs|
    ensures Position(bs, bs[i].at) == Some(i)
    ensures BindingAt(bs, bs[i].at) == Some(bs[i])
  {
    ScopeRunOrder();
    BisectFinds(ScopeRunLess, Ats(bs), bs[i].at);
    assert Ats(bs)[i] == bs[i].at;
  }

  lemma {:induction false} AbsentSpec(bs: seq<Binding>, at: ScopeRun)
    requires Ascending(ScopeRunLess, Ats(bs))
    ensures BindingAt(bs, at).None? <==> at !in Ats(bs)
  {
    if at in Ats(bs) {
      var i :| 0 <= i < |Ats(bs)| && Ats(bs)[i] == at;
      PositionSpec(bs, i);
    }
  }

  /** Replacement changes the binding at its own key and nothing else. */
  lemma {:induction false} ReplaceSpec(bs: seq<Binding>, i: nat, b: Binding)
    requires Ascending(ScopeRunLess, Ats(bs)) && i < |bs| && b.at == bs[i].at
    ensures Replace(bs, b) == Some(bs[i := b])
    ensures Ats(bs[i := b]) == Ats(bs)
  {
    PositionSpec(bs, i);
    assert bs[..i] + [b] + bs[i + 1..] == bs[i := b];
  }

  // ---- planning fences -------------------------------------------------------------------

  predicate IsCurrentChild(parent: State, a: StableActivation) {
    parent.status == Running && a.superstep == parent.superstep && IsPending(parent.frontier, a.node)
  }

  /** The compiled-graph compatibility of one snapshot. */
  predicate SnapshotMatches(graph: Graph, b: Binding) {
    && Valid(b.state)
    && (forall i :: 0 <= i < |b.state.frontier| ==> b.state.frontier[i].node in graph.nodes)
    && b.state.run == b.at.run
    && (if b.at.scope == [] then b.state.parent.None?
        else b.state.parent.Some? && b.state.parent.value.node == b.at.scope[|b.at.scope| - 1])
  }

  /** The checks `plan_fences` makes of one binding against the whole lineage. */
  predicate FenceAdmissible(graph: Graph, bs: seq<Binding>, b: Binding) {
    && GraphAt(graph, b.at.scope).Some?
    && SnapshotMatches(GraphAt(graph, b.at.scope).value, b)
    && match ParentOf(b)
       case Malformed => false
       case IsRoot => true
       case Nested(a) =>
         var parent := BindingAt(bs, a.at);
         && parent.Some?
         && a.superstep <= parent.value.state.superstep
         && (b.state.status == Running ==> IsCurrentChild(parent.value.state, a))
  }

  predicate Plannable(graph: Graph, bs: seq<Binding>) {
    forall i :: 0 <= i < |bs| ==> FenceAdmissible(graph, bs, bs[i])
  }

  // ---- when planning accepts, said of the snapshots ---------------------------------------

  /** The snapshot is a valid state of its own run over nodes of its own graph. */
  ghost predicate FitsGraph(graph: Graph, b: Binding) {
    && GraphAt(graph, b.at.scope).Some? && Valid(b.state) && b.state.run == b.at.run
    && (forall i :: 0 <= i < |b.state.frontier| ==>
                      b.state.frontier[i].node in GraphAt(graph, b.at.scope).value.nodes)
  }

  /** The child of an activation its parent has reached; a running one is the child of a node that is pending
      in a running parent. */
  ghost predicate FitsUnder(b: Binding, a: Activation, parent: Binding) {
    && b.at == ChildScopeRun(parent.at, a.superstep, a.node) && a.run == parent.at.run
    && a.superstep <= parent.state.superstep
    && (b.state.status == Running ==>
          && parent.state.status == Running && parent.state.superstep == a.superstep
          && exists k :: 0 <= k < |parent.state.frontier|
                         && parent.state.frontier[k].node == a.node && parent.state.frontier[k].settlement.Pending?)
  }

  /** The root has no parent; every other run fits under a parent that is bound. */
  ghost predicate FitsLineage(bs: seq<Binding>, b: Binding) {
    if b.at.scope == [] then b.state.parent.None?
    else b.state.parent.Some? && exists j :: 0 <= j < |bs| && FitsUnder(b, b.state.parent.value, bs[j])
  }

  lemma {:induction false} ParentOfFits(b: Binding, a: Activation, parent: Binding)
    requires b.state.run == b.at.run && b.state.parent == Some(a)
    requires b.at == ChildScopeRun(parent.at, a.superstep, a.node) && a.run == parent.at.run
    ensures ParentOf(b) == Nested(StableActivation(parent.at, a.superstep, a.node))
  {
    assert b.at.scope[..|b.at.scope| - 1] == parent.at.scope;
  }

  /** The planner's test of one binding is exactly this. */
  lemma {:induction false} FenceAdmissibleIff(graph: Graph, bs: seq<Binding>, b: Binding)
    requires Ascending(ScopeRunLess, Ats(bs))
    ensures FenceAdmissible(graph, bs, b) <==> FitsGraph(graph, b) && FitsLineage(bs, b)
  {
    if FitsGraph(graph, b) && FitsLineage(bs, b) && b.at.scope != [] {
      var a := b.state.parent.value;
      var j :| 0 <= j < |bs| && FitsUnder(b, a, bs[j]);
      ParentOfFits(b, a, bs[j]);
      PositionSpec(bs, j);
    }
    if FenceAdmissible(graph, bs, b) && b.at.scope != [] {
      var act := ParentOf(b).activation;
      var j := Position(bs, act.at).value;
      assert FitsUnder(b, b.state.parent.value, bs[j]);
    }
  }

  ghost predicate EveryRunFits(graph: Graph, bs: seq<Binding>) {
    forall i :: 0 <= i < |bs| ==> FitsGraph(graph, bs[i]) && FitsLineage(bs, bs[i])
  }

  lemma {:induction false} PlannableIff(graph: Graph, bs: seq<Binding>)
    requires Ascending(ScopeRunLess, Ats(bs))
    ensures Plannable(graph, bs) <==> EveryRunFits(graph, bs)
  {
    forall i | 0 <= i < |bs|
      ensures FenceAdmissible(graph, bs, bs[i]) <==> FitsGraph(graph, bs[i]) && FitsLineage(bs, bs[i])
    {
      FenceAdmissibleIff(graph, bs, bs[i]);
    }
  }

  /** A finished child of an activation that is not in its parent's future never blocks planning. */
  lemma {:induction false} FinishedChildNeverBlocks(graph: Graph, bs: seq<Binding>, b: Binding, j: nat)
    requires Ascending(ScopeRunLess, Ats(bs)) && FitsGraph(graph, b) && j < |bs|
    requires b.state.status != Running && b.state.parent.Some? && b.state.parent.value.run == bs[j].at.run
    requires b.at == ChildScopeRun(bs[j].at, b.state.parent.value.superstep, b.state.parent.value.node)
    requires b.state.parent.value.superstep <= bs[j].state.superstep
    ensures FenceAdmissible(graph, bs, b)
  {
    assert FitsUnder(b, b.state.parent.value, bs[j]);
    FenceAdmissibleIff(graph, bs, b);
  }

  datatype PlannedFence = PlannedFence(at: ScopeRun, command: Command)

  function FencedState(s: State): (t: State) {
    if s.lease.None? then s else s.(lease := None, revision := s.revision + 1)
  }

  function FencedBindings(bs: seq<Binding>): (r: seq<Binding>)
    ensures |r| == |bs|
    ensures forall i :: 0 <= i < |bs| ==> r[i] == Binding(bs[i].at, FencedState(bs[i].state))
  {
    seq(|bs|, i requires 0 <= i < |bs| => Binding(bs[i].at, FencedState(bs[i].state)))
  }

  function FenceFor(b: Binding): (fence: PlannedFence)
    requires b.state.lease.Some?
  {
    PlannedFence(b.at, Fence(b.state.revision, b.state.lease.value))
  }

  /** The fences of a lineage: one for each leased scope, in lineage order. */
  function FenceList(bs: seq<Binding>): (fences: seq<PlannedFence>) {
    if bs == [] then []
    else
      var n := |bs| - 1;
      FenceList(bs[..n]) + (if bs[n].state.lease.Some? then [FenceFor(bs[n])] else [])
  }

  /** The lineage after the first `n` bindings have been planned. */
  function FencedPrefix(bs: seq<Binding>, n: nat): (r: seq<Binding>)
    requires n <= |bs|
    ensures |r| == |bs|
    ensures forall i :: 0 <= i < |bs| ==> r[i] == if i < n then Binding(bs[i].at, FencedState(bs[i].state)) else bs[i]
  {
    seq(|bs|, i requires 0 <= i < |bs| => if i < n then Binding(bs[i].at, FencedState(bs[i].state)) else bs[i])
  }

  lemma {:induction false} FencedPrefixStep(bs: seq<Binding>, i: nat)
    requires Ascending(ScopeRunLess, Ats(bs)) && i < |bs|
    ensures bs[i].state.lease.None? ==> FencedPrefix(bs, i) == FencedPrefix(bs, i + 1)
    ensures Replace(FencedPrefix(bs, i), Binding(bs[i].at, FencedState(bs[i].state))) == Some(FencedPrefix(bs, i + 1))
  {
    var planned, b := FencedPrefix(bs, i), Binding(bs[i].at, FencedState(bs[i].state));
    assert Ats(planned) == Ats(bs);
    ReplaceSpec(planned, i, b);
    assert planned[i := b] == FencedPrefix(bs, i + 1);
  }

  lemma {:induction false} FencedEnds(bs: seq<Binding>)
    ensures FencedPrefix(bs, 0) == bs && FencedPrefix(bs, |bs|) == FencedBindings(bs)
    ensures bs[..0] == [] && bs[..|bs|] == bs
  {
  }

  lemma {:induction false} FenceListStep(bs: seq<Binding>, i: nat)
    requires i < |bs|
    ensures FenceList(bs[..i + 1]) == FenceList(bs[..i]) + (if bs[i].state.lease.Some? then [FenceFor(bs[i])] else [])
  {
    assert bs[..i + 1][..i] == bs[..i];
  }

  /** The work of one iteration: the lineage with the binding's fence applied and the fence itself. */
  function PlanFence(planned: seq<Binding>, b: Binding): (r: Option<(seq<Binding>, seq<PlannedFence>)>) {
    if b.state.lease.None? then Some((planned, []))
    else
      match Reduce(Some(b.state), FenceFor(b).command)
      case None => None
      case Some(candidate) =>
        match Replace(planned, Binding(b.at, candidate))
        case None => None
        case Some(replaced) => Some((replaced, [FenceFor(b)]))
  }

  predicate AdmissibleTo(graph: Graph, bs: seq<Binding>, n: nat)
    requires n <= |bs|
  {
    forall j :: 0 <= j < n ==> FenceAdmissible(graph, bs, bs[j])
  }

  lemma {:induction false} AdmissibleNext(graph: Graph, bs: seq<Binding>, i: nat)
    requires i < |bs| && AdmissibleTo(graph, bs, i) && FenceAdmissible(graph, bs, bs[i])
    ensures AdmissibleTo(graph, bs, i + 1) && Valid(bs[i].state)
  {
    AdmissibleIsValid(graph, bs, bs[i]);
  }

  lemma {:induction false} AdmissibleIsValid(graph: Graph, bs: seq<Binding>, b: Binding)
    requires FenceAdmissible(graph, bs, b)
    ensures Valid(b.state)
  {
  }

  lemma {:induction false} PlanFenceStep(bs: seq<Binding>, i: nat)
    requires Ascending(ScopeRunLess, Ats(bs)) && i < |bs| && Valid(bs[i].state)
    ensures PlanFence(FencedPrefix(bs, i), bs[i])
         == Some((FencedPrefix(bs, i + 1), if bs[i].state.lease.Some? then [FenceFor(bs[i])] else []))
  {
    FencedPrefixStep(bs, i);
    if bs[i].state.lease.Some? {
      PlanFenceOf(FencedPrefix(bs, i), bs[i], FencedPrefix(bs, i + 1));
    } else {
      PlanNoFence(FencedPrefix(bs, i), bs[i]);
    }
  }

  lemma {:induction false} PlanNoFence(planned: seq<Binding>, b: Binding)
    requires b.state.lease.None?
    ensures PlanFence(planned, b) == Some((planned, []))
  {
  }

  lemma {:induction false} PlanFenceOf(planned: seq<Binding>, b: Binding, replaced: seq<Binding>)
    requires Valid(b.state) && b.state.lease.Some?
    requires Replace(planned, Binding(b.at, FencedState(b.state))) == Some(replaced)
    ensures PlanFence(planned, b) == Some((replaced, [FenceFor(b)]))
  {
    FenceAlwaysAdmitted(b.state);
  }

  /** The planning loop: it accepts exactly the plannable lineages, fences exactly the leased scopes
      and leaves every other scope as it was. */
  method PlanFences(graph: Graph, bs: seq<Binding>) returns (r: Option<(seq<Binding>, seq<PlannedFence>)>)
    requires CanonicalLineage(bs)
    ensures r.Some? <==> EveryRunFits(graph, bs)
    ensures r.Some? <==> Plannable(graph, bs)
    ensures r.Some? ==> r.value == (FencedBindings(bs), FenceList(bs))
  {
    var planned, fences := bs, [];
    var i := 0;
    PlannableIff(graph, bs);
    FencedEnds(bs);
    while i < |bs|
      invariant 0 <= i <= |bs|
      invariant AdmissibleTo(graph, bs, i)
      invariant planned == FencedPrefix(bs, i)
      invariant fences == FenceList(bs[..i])
    {
      if !FenceAdmissible(graph, bs, bs[i]) {
        return None;
      }
      AdmissibleNext(graph, bs, i);
      PlanFenceStep(bs, i);
      FenceListStep(bs, i);
      var next := PlanFence(planned, bs[i]);
      planned, fences := next.value.0, fences + next.value.1;
      i := i + 1;
    }
    return Some((planned, fences));
  }

  /** Fencing keeps a lineage canonical. */
  lemma {:induction false} FencedIsCanonical(bs: seq<Binding>)
    requires CanonicalLineage(bs)
    ensures CanonicalLineage(FencedBindings(bs))
  {
    var fenced := FencedBindings(bs);
    assert Ats(fenced) == Ats(bs);
    forall i | 0 < i < |bs|
      ensures fenced[i].at.scope != [] && !ParentOf(fenced[i]).Malformed?
    {
      assert ParentOf(fenced[i]) == ParentOf(bs[i]);
    }
  }

  lemma {:induction false} FenceListMembers(bs: seq<Binding>)
    ensures forall f :: f in FenceList(bs)
                        <==> exists i :: 0 <= i < |bs| && bs[i].state.lease.Some? && f == FenceFor(bs[i])
  {
    if bs != [] {
      var n := |bs| - 1;
      FenceListMembers(bs[..n]);
      forall f
        ensures f in FenceList(bs) <==> exists i :: 0 <= i < |bs| && bs[i].state.lease.Some? && f == FenceFor(bs[i])
      {
        if f in FenceList(bs[..n]) {
          var i :| 0 <= i < n && bs[..n][i].state.lease.Some? && f == FenceFor(bs[..n][i]);
          assert bs[i].state.lease.Some? && f == FenceFor(bs[i]);
        }
        if i :| 0 <= i < |bs| && bs[i].state.lease.Some? && f == FenceFor(bs[i]) {
          assert i < n ==> bs[..n][i] == bs[i];
        }
      }
    }
  }
}
