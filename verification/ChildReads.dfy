/** Which child runs a recovered lineage must still prove, and why one reread settles them. */
module ChildReads {
  import opened Sorted
  import opened FrameIndex
  import opened GraphState
  import opened Lineage
  import opened FamilyEvidence

  // ---- what one binding requires ---------------------------------------------------------

  /** The children of settled activations. */
  function SettledChildren(g: Graph, b: Binding): (ats: set<ScopeRun>) {
    set a | a in b.state.ledger && a.node in g.nested :: ChildScopeRun(b.at, a.superstep, a.node)
  }

  function FrontierChildren(g: Graph, b: Binding): (ats: set<ScopeRun>) {
    set n | n in b.state.frontier && n.node in g.nested :: ChildScopeRun(b.at, b.state.superstep, n.node)
  }

  /** The children that may not have been created yet. */
  function PendingChildren(g: Graph, b: Binding): (ats: set<ScopeRun>) {
    set n | n in b.state.frontier && n.node in g.nested
            && n.settlement.Pending? :: ChildScopeRun(b.at, b.state.superstep, n.node)
  }

  /** Every nested activation belongs to the run of its binding. */
  predicate Readable(graph: Graph, b: Binding) {
    && GraphAt(graph, b.at.scope).Some?
    && var g := GraphAt(graph, b.at.scope).value;
    && (forall a :: a in b.state.ledger && a.node in g.nested ==> a.run == b.at.run)
    && (forall n :: n in b.state.frontier && n.node in g.nested ==> b.state.run == b.at.run)
  }

  function Required(graph: Graph, bs: seq<Binding>): (ats: set<ScopeRun>) {
    if bs == [] then {}
    else
      var n := |bs| - 1;
      var g := GraphAt(graph, bs[n].at.scope);
      Required(graph, bs[..n])
      + (if g.None? then {} else SettledChildren(g.value, bs[n]) + FrontierChildren(g.value, bs[n]))
  }

  function Allowed(graph: Graph, bs: seq<Binding>): (ats: set<ScopeRun>) {
    if bs == [] then {}
    else
      var n := |bs| - 1;
      var g := GraphAt(graph, bs[n].at.scope);
      Allowed(graph, bs[..n]) + (if g.None? then {} else PendingChildren(g.value, bs[n]))
  }

  function Existing(bs: seq<Binding>): (ats: set<ScopeRun>) {
    set b | b in bs && b.at.scope != [] :: b.at
  }

  lemma {:induction false} AllowedIsRequired(graph: Graph, bs: seq<Binding>)
    ensures Allowed(graph, bs) <= Required(graph, bs)
  {
    if bs != [] {
      AllowedIsRequired(graph, bs[..|bs| - 1]);
    }
  }

  // ---- the same, said of one coordinate --------------------------------------------------

  /** The coordinate of the child of a nested activation this run has settled. */
  ghost predicate SettledUnder(g: Graph, b: Binding, at: ScopeRun) {
    exists a :: a in b.state.ledger && a.node in g.nested && at == ChildScopeRun(b.at, a.superstep, a.node)
  }

  /** The coordinate of the child of a nested node on the frontier of this run. */
  ghost predicate OnFrontierOf(g: Graph, b: Binding, at: ScopeRun) {
    exists k :: 0 <= k < |b.state.frontier| && b.state.frontier[k].node in g.nested
                && at == ChildScopeRun(b.at, b.state.superstep, b.state.frontier[k].node)
  }

  ghost predicate PendingUnder(g: Graph, b: Binding, at: ScopeRun) {
    exists k :: 0 <= k < |b.state.frontier| && b.state.frontier[k].node in g.nested
                && b.state.frontier[k].settlement.Pending?
                && at == ChildScopeRun(b.at, b.state.superstep, b.state.frontier[k].node)
  }

  ghost predicate IsSettledChild(graph: Graph, bs: seq<Binding>, at: ScopeRun) {
    exists i :: 0 <= i < |bs| && GraphAt(graph, bs[i].at.scope).Some?
                && SettledUnder(GraphAt(graph, bs[i].at.scope).value, bs[i], at)
  }

  ghost predicate IsFrontierChild(graph: Graph, bs: seq<Binding>, at: ScopeRun) {
    exists i :: 0 <= i < |bs| && GraphAt(graph, bs[i].at.scope).Some?
                && OnFrontierOf(GraphAt(graph, bs[i].at.scope).value, bs[i], at)
  }

  ghost predicate IsPendingChild(graph: Graph, bs: seq<Binding>, at: ScopeRun) {
    exists i :: 0 <= i < |bs| && GraphAt(graph, bs[i].at.scope).Some?
                && PendingUnder(GraphAt(graph, bs[i].at.scope).value, bs[i], at)
  }

  ghost predicate IsBound(bs: seq<Binding>, at: ScopeRun) {
    exists i :: 0 <= i < |bs| && bs[i].at == at
  }

  lemma {:induction false} UnderBinding(g: Graph, b: Binding, at: ScopeRun)
    ensures at in SettledChildren(g, b) <==> SettledUnder(g, b, at)
    ensures at in FrontierChildren(g, b) <==> OnFrontierOf(g, b, at)
    ensures at in PendingChildren(g, b) <==> PendingUnder(g, b, at)
  {
    if at in FrontierChildren(g, b) {
      var n :| n in b.state.frontier && n.node in g.nested && at == ChildScopeRun(b.at, b.state.superstep, n.node);
      var k :| 0 <= k < |b.state.frontier| && b.state.frontier[k] == n;
    }
    if at in PendingChildren(g, b) {
      var n :| n in b.state.frontier && n.node in g.nested && n.settlement.Pending?
               && at == ChildScopeRun(b.at, b.state.superstep, n.node);
      var k :| 0 <= k < |b.state.frontier| && b.state.frontier[k] == n;
    }
  }

  /** A coordinate is required exactly as the child of a settled activation or of a frontier node, and may be
      uncreated exactly as the child of a pending one. */
  lemma {:induction false} RequiredIff(graph: Graph, bs: seq<Binding>, at: ScopeRun)
    ensures at in Required(graph, bs) <==> IsSettledChild(graph, bs, at) || IsFrontierChild(graph, bs, at)
    ensures at in Allowed(graph, bs) <==> IsPendingChild(graph, bs, at)
  {
    if bs != [] {
      var n := |bs| - 1;
      RequiredIff(graph, bs[..n], at);
      var g := GraphAt(graph, bs[n].at.scope);
      if g.Some? {
        UnderBinding(g.value, bs[n], at);
      }
      ChildSnoc(graph, bs, at);
    }
  }

  lemma {:induction false} ChildSnoc(graph: Graph, bs: seq<Binding>, at: ScopeRun)
    requires bs != []
    ensures var front, b, g := bs[..|bs| - 1], bs[|bs| - 1], GraphAt(graph, bs[|bs| - 1].at.scope);
            && (IsSettledChild(graph, bs, at)
                <==> IsSettledChild(graph, front, at) || (g.Some? && SettledUnder(g.value, b, at)))
            && (IsFrontierChild(graph, bs, at)
                <==> IsFrontierChild(graph, front, at) || (g.Some? && OnFrontierOf(g.value, b, at)))
            && (IsPendingChild(graph, bs, at)
                <==> IsPendingChild(graph, front, at) || (g.Some? && PendingUnder(g.value, b, at)))
  {
    var front := bs[..|bs| - 1];
    assert forall i :: 0 <= i < |front| ==> front[i] == bs[i];
  }

  // ---- the reads -------------------------------------------------------------------------

  predicate AllReadable(graph: Graph, bs: seq<Binding>) {
    forall i :: 0 <= i < |bs| ==> Readable(graph, bs[i])
  }

  function Missing(graph: Graph, bs: seq<Binding>, uncreated: set<ScopeRun>): (ats: set<ScopeRun>) {
    Required(graph, bs) - Existing(bs) - uncreated
  }

  /** The evidence matches the parent activations; only pending activations may lack a snapshot. */
  predicate Consistent(graph: Graph, bs: seq<Binding>, uncreated: set<ScopeRun>) {
    && AllReadable(graph, bs)
    && uncreated <= Allowed(graph, bs)
    && Existing(bs) !! uncreated
    && Existing(bs) <= Required(graph, bs)
    && Missing(graph, bs, uncreated) <= Allowed(graph, bs)
  }

  lemma {:induction false} ReadStep(graph: Graph, bs: seq<Binding>, i: nat)
    requires i < |bs| && Readable(graph, bs[i])
    ensures var g := GraphAt(graph, bs[i].at.scope).value;
            && Required(graph, bs[..i + 1])
               == Required(graph, bs[..i]) + SettledChildren(g, bs[i]) + FrontierChildren(g, bs[i])
            && Allowed(graph, bs[..i + 1]) == Allowed(graph, bs[..i]) + PendingChildren(g, bs[i])
    ensures AllReadable(graph, bs[..i]) ==> AllReadable(graph, bs[..i + 1])
  {
    var front, b := bs[..i], bs[i];
    assert bs[..i + 1] == front + [b];
    RequiredSnoc(graph, front, b);
    AllowedSnoc(graph, front, b);
    if AllReadable(graph, front) {
      assert AllReadable(graph, front + [b]);
    }
  }

  lemma {:induction false} RequiredSnoc(graph: Graph, bs: seq<Binding>, b: Binding)
    requires GraphAt(graph, b.at.scope).Some?
    ensures var g := GraphAt(graph, b.at.scope).value;
            Required(graph, bs + [b]) == Required(graph, bs) + SettledChildren(g, b) + FrontierChildren(g, b)
  {
    assert (bs + [b])[..|bs|] == bs;
  }

  lemma {:induction false} AllowedSnoc(graph: Graph, bs: seq<Binding>, b: Binding)
    requires GraphAt(graph, b.at.scope).Some?
    ensures Allowed(graph, bs + [b]) == Allowed(graph, bs) + PendingChildren(GraphAt(graph, b.at.scope).value, b)
  {
    assert (bs + [b])[..|bs|] == bs;
  }

  /** The child of a settled activation or a frontier node that is neither bound nor proven uncreated. */
  ghost predicate Unproven(graph: Graph, lineage: PlannedLineage, at: ScopeRun) {
    && (IsSettledChild(graph, lineage.bindings, at) || IsFrontierChild(graph, lineage.bindings, at))
    && !IsBound(lineage.bindings, at) && at !in lineage.uncreated
  }

  /** A run of the graph whose nested activations, settled or current, are its own. */
  ghost predicate OwnRun(graph: Graph, b: Binding) {
    && GraphAt(graph, b.at.scope).Some?
    && var nested := GraphAt(graph, b.at.scope).value.nested;
    && (forall a :: a in b.state.ledger && a.node in nested ==> a.run == b.at.run)
    && (forall k :: 0 <= k < |b.state.frontier| && b.state.frontier[k].node in nested ==> b.state.run == b.at.run)
  }

  lemma {:induction false} OwnRunIff(graph: Graph, b: Binding)
    ensures OwnRun(graph, b) <==> Readable(graph, b)
  {
    assert forall n :: n in b.state.frontier <==> exists k :: 0 <= k < |b.state.frontier| && b.state.frontier[k] == n;
  }

  /** The evidence fits the activations: what is called uncreated is the child of a pending node and not bound,
      what is bound is the child of a settled activation or a frontier node, and only the child of a pending
      node may be without proof. */
  ghost predicate Fits(graph: Graph, lineage: PlannedLineage) {
    && (forall i :: 0 <= i < |lineage.bindings| ==> OwnRun(graph, lineage.bindings[i]))
    && (forall at :: at in lineage.uncreated ==>
                       IsPendingChild(graph, lineage.bindings, at) && !IsBound(lineage.bindings, at))
    && (forall i :: 0 <= i < |lineage.bindings| && lineage.bindings[i].at.scope != [] ==>
                      || IsSettledChild(graph, lineage.bindings, lineage.bindings[i].at)
                      || IsFrontierChild(graph, lineage.bindings, lineage.bindings[i].at))
    && (forall at :: Unproven(graph, lineage, at) ==> IsPendingChild(graph, lineage.bindings, at))
  }

  lemma {:induction false} ExistingIff(bs: seq<Binding>, at: ScopeRun)
    ensures at in Existing(bs) <==> IsBound(bs, at) && at.scope != []
  {
  }

  lemma {:induction false} MissingIff(graph: Graph, lineage: PlannedLineage, at: ScopeRun)
    ensures at in Missing(graph, lineage.bindings, lineage.uncreated) <==> Unproven(graph, lineage, at)
  {
    RequiredIff(graph, lineage.bindings, at);
    ExistingIff(lineage.bindings, at);
  }

  lemma {:induction false} FitsIffConsistent(graph: Graph, lineage: PlannedLineage)
    ensures Fits(graph, lineage) <==> Consistent(graph, lineage.bindings, lineage.uncreated)
  {
    var bs, uncreated := lineage.bindings, lineage.uncreated;
    forall i | 0 <= i < |bs|
      ensures OwnRun(graph, bs[i]) <==> Readable(graph, bs[i])
    {
      OwnRunIff(graph, bs[i]);
    }
    forall at
      ensures at in Required(graph, bs) <==> IsSettledChild(graph, bs, at) || IsFrontierChild(graph, bs, at)
      ensures at in Allowed(graph, bs) <==> IsPendingChild(graph, bs, at)
      ensures at in Existing(bs) <==> IsBound(bs, at) && at.scope != []
      ensures at in Missing(graph, bs, uncreated) <==> Unproven(graph, lineage, at)
    {
      RequiredIff(graph, bs, at);
      ExistingIff(bs, at);
      MissingIff(graph, lineage, at);
    }
    if Fits(graph, lineage) {
      forall at | at in Existing(bs)
        ensures at in Required(graph, bs)
      {
        var i :| 0 <= i < |bs| && bs[i].at == at;
      }
    } else if Consistent(graph, bs, uncreated) {
      forall i | 0 <= i < |bs| && bs[i].at.scope != []
        ensures IsSettledChild(graph, bs, bs[i].at) || IsFrontierChild(graph, bs, bs[i].at)
      {
        assert bs[i].at in Existing(bs);
      }
      assert Fits(graph, lineage);
    }
  }

  /** `child_run_reads`: the coordinates still to be proven, in order. */
  method ChildRunReads(graph: Graph, lineage: PlannedLineage, complete: bool) returns (r: Option<seq<ScopeRun>>)
    ensures r.Some? <==> Fits(graph, lineage) && (complete ==> forall at :: !Unproven(graph, lineage, at))
    ensures r.Some? ==> Ascending(ScopeRunLess, r.value)
    ensures r.Some? ==> forall at :: at in r.value <==> Unproven(graph, lineage, at)
  {
    var bs := lineage.bindings;
    FitsIffConsistent(graph, lineage);
    forall at
      ensures at in Missing(graph, bs, lineage.uncreated) <==> Unproven(graph, lineage, at)
    {
      MissingIff(graph, lineage, at);
    }
    var required: set<ScopeRun>, allowed: set<ScopeRun> := {}, {};
    var i := 0;
    while i < |bs|
      invariant 0 <= i <= |bs|
      invariant AllReadable(graph, bs[..i])
      invariant required == Required(graph, bs[..i]) && allowed == Allowed(graph, bs[..i])
    {
      if !Readable(graph, bs[i]) {
        assert !AllReadable(graph, bs);
        return None;
      }
      var g := GraphAt(graph, bs[i].at.scope).value;
      required := required + SettledChildren(g, bs[i]) + FrontierChildren(g, bs[i]);
      allowed := allowed + PendingChildren(g, bs[i]);
      ReadStep(graph, bs, i);
      i := i + 1;
    }
    assert bs[..|bs|] == bs;
    var existing := Existing(bs);
    if !(lineage.uncreated <= allowed) || !(existing !! lineage.uncreated) || !(existing <= required) {
      return None;
    }
    var missing := required - existing - lineage.uncreated;
    if !(missing <= allowed) || (complete && missing != {}) {
      return None;
    }
    var sorted := SortedKeys(missing);
    return Some(sorted);
  }

  // ---- settled activations ---------------------------------------------------------------

  /** In a lineage of valid runs the child of a settled activation is not the child of a pending node. */
  lemma {:induction false} SettledIsNotPending(graph: Graph, bs: seq<Binding>, at: ScopeRun)
    requires Ascending(ScopeRunLess, Ats(bs)) && AllReadable(graph, bs)
    requires forall i :: 0 <= i < |bs| ==> Valid(bs[i].state) && bs[i].state.run == bs[i].at.run
    requires IsSettledChild(graph, bs, at)
    ensures !IsPendingChild(graph, bs, at)
  {
    if IsPendingChild(graph, bs, at) {
      var i :| 0 <= i < |bs| && GraphAt(graph, bs[i].at.scope).Some?
               && SettledUnder(GraphAt(graph, bs[i].at.scope).value, bs[i], at);
      var j :| 0 <= j < |bs| && GraphAt(graph, bs[j].at.scope).Some?
               && PendingUnder(GraphAt(graph, bs[j].at.scope).value, bs[j], at);
      SameParent(GraphAt(graph, bs[i].at.scope).value, bs[i], GraphAt(graph, bs[j].at.scope).value, bs[j], at);
      ScopeRunOrder();
      assert Ats(bs)[i] == Ats(bs)[j];
      AscendingDistinct(ScopeRunLess, Ats(bs), i, j);
      assert Readable(graph, bs[i]);
      SettledApart(GraphAt(graph, bs[i].at.scope).value, bs[i], at);
    }
  }

  lemma {:induction false} SameParent(g: Graph, b: Binding, h: Graph, c: Binding, at: ScopeRun)
    requires SettledUnder(g, b, at) && PendingUnder(h, c, at)
    ensures b.at == c.at
  {
    var a :| a in b.state.ledger && a.node in g.nested && at == ChildScopeRun(b.at, a.superstep, a.node);
    var k :| 0 <= k < |c.state.frontier| && c.state.frontier[k].node in h.nested
             && at == ChildScopeRun(c.at, c.state.superstep, c.state.frontier[k].node);
    ChildScopeRunInjective(b.at, a.superstep, a.node, c.at, c.state.superstep, c.state.frontier[k].node);
  }

  lemma {:induction false} SettledApart(g: Graph, b: Binding, at: ScopeRun)
    requires Valid(b.state) && b.state.run == b.at.run && SettledUnder(g, b, at)
    ensures !PendingUnder(g, b, at)
  {
    if PendingUnder(g, b, at) {
      var a :| a in b.state.ledger && a.node in g.nested && at == ChildScopeRun(b.at, a.superstep, a.node);
      var k :| 0 <= k < |b.state.frontier| && b.state.frontier[k].node in g.nested
               && b.state.frontier[k].settlement.Pending?
               && at == ChildScopeRun(b.at, b.state.superstep, b.state.frontier[k].node);
      ChildScopeRunInjective(b.at, a.superstep, a.node, b.at, b.state.superstep, b.state.frontier[k].node);
      assert a == CurrentActivation(b.state, a.node);
      PendingIsNotInLedger(b.state, a.node);
    }
  }

  /** A settled activation without the snapshot of its child is always refused; with it, the child is never
      what the reads are refused for. */
  lemma {:induction false} SettledNeedsSnapshot(graph: Graph, lineage: PlannedLineage, at: ScopeRun)
    requires Ascending(ScopeRunLess, Ats(lineage.bindings))
    requires forall i :: 0 <= i < |lineage.bindings| ==>
                           Valid(lineage.bindings[i].state)
                           && lineage.bindings[i].state.run == lineage.bindings[i].at.run
    requires IsSettledChild(graph, lineage.bindings, at)
    ensures !IsBound(lineage.bindings, at) ==> !Fits(graph, lineage)
    ensures IsBound(lineage.bindings, at) ==> !Unproven(graph, lineage, at) && at in Required(graph, lineage.bindings)
  {
    RequiredIff(graph, lineage.bindings, at);
    if !IsBound(lineage.bindings, at) && Fits(graph, lineage) {
      assert at in lineage.uncreated || Unproven(graph, lineage, at);
      SettledIsNotPending(graph, lineage.bindings, at);
    }
  }

  // ---- the reread ------------------------------------------------------------------------

  /** `admit_child_reads`: the family is unchanged and exactly the requested coordinates are now
      proven uncreated as well. */
  predicate RereadAdmitted(before: PlannedLineage, after: PlannedLineage, children: set<ScopeRun>) {
    after.bindings == before.bindings && after.uncreated == before.uncreated + children
  }

  /** After a first read, an admitted reread makes the complete read succeed exactly when it proves the
      missing coordinates and nothing beyond the uncreated ones. */
  lemma {:induction false} RereadCompletesIff(graph: Graph, before: PlannedLineage, after: PlannedLineage,
                                              children: set<ScopeRun>)
    requires Consistent(graph, before.bindings, before.uncreated) && RereadAdmitted(before, after, children)
    ensures Consistent(graph, after.bindings, after.uncreated) && Missing(graph, after.bindings, after.uncreated) == {}
       <==> Missing(graph, before.bindings, before.uncreated) <= children <= before.uncreated
            + Missing(graph, before.bindings, before.uncreated)
  {
    AllowedIsRequired(graph, before.bindings);
    var bs := before.bindings;
    var missing, left := Missing(graph, bs, before.uncreated), Missing(graph, bs, after.uncreated);
    assert forall c :: c in left <==> c in missing && c !in children;
    if Consistent(graph, bs, after.uncreated) && left == {} {
      assert forall c :: c in missing ==> c in children by {
        assert forall c :: c in missing && c !in children ==> c in left;
      }
      assert forall c :: c in children ==> c in after.uncreated && c in Allowed(graph, bs) && c !in Existing(bs);
      assert forall c :: c in children ==> c in before.uncreated + missing;
    }
    if missing <= children <= before.uncreated + missing {
      assert left == {};
      assert forall c :: c in after.uncreated ==> c in before.uncreated || c in missing;
      assert Consistent(graph, bs, after.uncreated);
    }
  }

  /** The two-step read completes: rereading exactly the missing coordinates leaves nothing missing,
      and the required coordinates split disjointly into bound and proven-uncreated ones. */
  lemma {:induction false} TwoStepReadCompletes(graph: Graph, before: PlannedLineage, after: PlannedLineage)
    requires Consistent(graph, before.bindings, before.uncreated)
    requires RereadAdmitted(before, after, Missing(graph, before.bindings, before.uncreated))
    ensures Consistent(graph, after.bindings, after.uncreated) && Missing(graph, after.bindings, after.uncreated) == {}
    ensures Required(graph, after.bindings) == Existing(after.bindings) + after.uncreated
    ensures Existing(after.bindings) !! after.uncreated
  {
    RereadCompletesIff(graph, before, after, Missing(graph, before.bindings, before.uncreated));
    AllowedIsRequired(graph, after.bindings);
  }
}
