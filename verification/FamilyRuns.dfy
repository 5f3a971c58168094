/** The families the driver reaches, and that every one of them can be planned. */
module FamilyRuns {
  import opened Sorted
  import opened FrameIndex
  import opened GraphState
  import opened GraphRuns
  import opened Lineage
  import opened GraphCommit

  // ---- what the driver transitions, scope by scope ---------------------------------------

  function ParentAt(at: ScopeRun, a: Activation): (parent: ScopeRun)
    requires at.scope != []
  {
    ScopeRun(at.scope[..|at.scope| - 1], a.run)
  }

  /** A start: the root of a new family, or the child of a nested node that is pending in a running parent. */
  ghost predicate StartsRun(graph: Graph, states: map<ScopeRun, State>, at: ScopeRun, c: Command)
    requires c.Start?
  {
    && GraphAt(graph, at.scope).Some? && at !in states
    && (forall i :: 0 <= i < |c.nodes| ==> c.nodes[i] in GraphAt(graph, at.scope).value.nodes)
    && (if at.scope == [] then states == map[] && c.parent.None?
        else
          && c.parent.Some? && ParentAt(at, c.parent.value) in states
          && var parent := states[ParentAt(at, c.parent.value)];
          && at == ChildScopeRun(ParentAt(at, c.parent.value), parent.superstep, c.parent.value.node)
          && c.parent.value.superstep == parent.superstep
          && parent.status == Running && IsPending(parent.frontier, c.parent.value.node))
  }

  /** A nested node settles only once its child has ended, and a run aborts only after its children. */
  ghost predicate ChildrenEnded(states: map<ScopeRun, State>, at: ScopeRun, c: Command) {
    forall child :: child in states && child.scope != [] && states[child].parent.Some?
                    && ParentAt(child, states[child].parent.value) == at ==>
                      || states[child].status != Running
                      || (!c.Abort? && (c.Settle? ==> c.outcome.node != states[child].parent.value.node))
  }

  ghost predicate DriverMoves(graph: Graph, states: map<ScopeRun, State>, at: ScopeRun, c: Command) {
    && (c.Start? ==> StartsRun(graph, states, at, c))
    && (c.Advance? ==> GraphAt(graph, at.scope).Some?
                       && forall i :: 0 <= i < |c.nodes| ==> c.nodes[i] in GraphAt(graph, at.scope).value.nodes)
    && ChildrenEnded(states, at, c)
  }

  // ---- the invariant ---------------------------------------------------------------------

  ghost predicate GraphFits(graph: Graph, at: ScopeRun, s: State) {
    && GraphAt(graph, at.scope).Some? && Valid(s) && s.run == at.run
    && (forall i :: 0 <= i < |s.frontier| ==> s.frontier[i].node in GraphAt(graph, at.scope).value.nodes)
  }

  ghost predicate ParentFits(states: map<ScopeRun, State>, at: ScopeRun, s: State) {
    if at.scope == [] then s.parent.None?
    else
      && s.parent.Some? && ParentAt(at, s.parent.value) in states
      && var a, parent := s.parent.value, states[ParentAt(at, s.parent.value)];
      && at == ChildScopeRun(ParentAt(at, a), a.superstep, a.node) && a.superstep <= parent.superstep
      && (s.status == Running ==>
            parent.status == Running && parent.superstep == a.superstep && IsPending(parent.frontier, a.node))
  }

  ghost predicate OneRoot(states: map<ScopeRun, State>) {
    forall a, b :: a in states && b in states && a.scope == [] && b.scope == [] ==> a == b
  }

  ghost predicate FamilyFits(graph: Graph, states: map<ScopeRun, State>) {
    && OneRoot(states)
    && (forall at :: at in states ==> GraphFits(graph, at, states[at]))
    && (forall at :: at in states ==> ParentFits(states, at, states[at]))
  }

  // ---- one move --------------------------------------------------------------------------

  /** What a command leaves of the nodes a running child depends on. */
  lemma {:induction false} PendingStays(s: State, c: Command, t: State, node: Text)
    requires Reduce(Some(s), c) == Some(t) && s.status == Running && IsPending(s.frontier, node)
    requires !c.Abort? && (c.Settle? ==> c.outcome.node != node)
    ensures t.status == Running && t.superstep == s.superstep && IsPending(t.frontier, node)
  {
    match c
    case Claim(e, attempt) => ClaimMeaning(s, e, attempt);
    case Fence(e, token) => FenceMeaning(s, e, token);
    case Settle(_, _, _, _) => OthersStayPending(s, c, t, node);
    case Resume(_, actions) => ResumeFacts(s, actions);
    case Advance(e, nodes) => AdvanceMeaning(s, e, nodes);
    case Complete(e, route) => CompleteMeaning(s, e, route);
  }

  lemma {:induction false} OthersStayPending(s: State, c: Command, t: State, node: Text)
    requires c.Settle? && Reduce(Some(s), c) == Some(t) && IsPending(s.frontier, node) && c.outcome.node != node
    ensures t.status == Running && t.superstep == s.superstep && IsPending(t.frontier, node)
  {
    SettlementMeaning(s, c);
    var i :| 0 <= i < |s.frontier| && s.frontier[i].node == node && s.frontier[i].settlement.Pending?;
    assert t.frontier[i].node == node && t.frontier[i].settlement.Pending?;
  }

  /** A command keeps a run on the nodes of its graph, and never makes an ended run run again. */
  lemma {:induction false} GraphStillFits(graph: Graph, at: ScopeRun, s: State, c: Command, t: State)
    requires GraphFits(graph, at, s) && Reduce(Some(s), c) == Some(t)
    requires c.Advance? ==> forall i :: 0 <= i < |c.nodes| ==> c.nodes[i] in GraphAt(graph, at.scope).value.nodes
    ensures GraphFits(graph, at, t) && t.parent == s.parent && t.superstep >= s.superstep
    ensures t.status == Running ==> s.status == Running
  {
    StepKeepsIdentity(s, c);
    match c
    case Claim(e, attempt) => ClaimMeaning(s, e, attempt);
    case Fence(e, token) => FenceMeaning(s, e, token);
    case Settle(_, _, _, _) =>
      SettlementMeaning(s, c);
      SameNodes(s, c, t);
    case Resume(_, actions) =>
      ResumeFacts(s, actions);
      assert forall i :: 0 <= i < |t.frontier| ==> NodeIds(t.frontier)[i] == NodeIds(s.frontier)[i];
    case Advance(e, nodes) => AdvanceMeaning(s, e, nodes);
    case Complete(e, route) => CompleteMeaning(s, e, route);
    case Abort(e, reason) => AbortMeaning(s, e, reason);
  }

  lemma {:induction false} SameNodes(s: State, c: Command, t: State)
    requires c.Settle? && Reduce(Some(s), c) == Some(t)
    ensures |t.frontier| == |s.frontier| && forall i :: 0 <= i < |s.frontier| ==>
                                                          t.frontier[i].node == s.frontier[i].node
  {
    SettlementMeaning(s, c);
  }

  lemma {:induction false} StartFits(graph: Graph, states: map<ScopeRun, State>, at: ScopeRun, c: Command, t: State)
    requires FamilyFits(graph, states) && c.Start? && StartsRun(graph, states, at, c)
    requires Reduce(None, c) == Some(t) && t.run == at.run
    ensures FamilyFits(graph, states[at := t])
  {
    StartedGraphFits(graph, at, c, t);
    var after := states[at := t];
    forall x | x in after
      ensures GraphFits(graph, x, after[x]) && ParentFits(after, x, after[x])
    {
      if x != at {
        assert GraphFits(graph, x, states[x]) && ParentFits(states, x, states[x]);
        UnchangedFits(states, at, t, x);
      } else {
        StartedUnderParent(graph, states, at, c, t);
      }
    }
  }

  lemma {:induction false} StartedUnderParent(graph: Graph, states: map<ScopeRun, State>, at: ScopeRun, c: Command,
                                              t: State)
    requires c.Start? && StartsRun(graph, states, at, c) && t.parent == c.parent
    ensures ParentFits(states[at := t], at, t)
  {
  }

  lemma {:induction false} StartedGraphFits(graph: Graph, at: ScopeRun, c: Command, t: State)
    requires c.Start? && Reduce(None, c) == Some(t) && t.run == at.run && GraphAt(graph, at.scope).Some?
    requires forall i :: 0 <= i < |c.nodes| ==> c.nodes[i] in GraphAt(graph, at.scope).value.nodes
    ensures GraphFits(graph, at, t) && t.parent == c.parent && t.status == Running
  {
    StartMeaning(c);
  }

  lemma {:induction false} UnchangedFits(states: map<ScopeRun, State>, at: ScopeRun, t: State, x: ScopeRun)
    requires at !in states && x in states && ParentFits(states, x, states[x])
    ensures ParentFits(states[at := t], x, states[x])
  {
  }

  lemma {:induction false} StepFits(graph: Graph, states: map<ScopeRun, State>, at: ScopeRun, c: Command, t: State)
    requires FamilyFits(graph, states) && at in states && DriverMoves(graph, states, at, c)
    requires Reduce(Some(states[at]), c) == Some(t)
    ensures FamilyFits(graph, states[at := t])
  {
    assert GraphFits(graph, at, states[at]);
    GraphStillFits(graph, at, states[at], c, t);
    forall x | x in states
      ensures ParentFits(states[at := t], x, states[at := t][x])
    {
      assert ParentFits(states, x, states[x]);
      ParentStillFits(graph, states, at, c, t, x);
    }
    UpdateFits(graph, states, at, t);
  }

  lemma {:induction false} UpdateFits(graph: Graph, states: map<ScopeRun, State>, at: ScopeRun, t: State)
    requires FamilyFits(graph, states) && at in states && GraphFits(graph, at, t)
    requires forall x :: x in states ==> ParentFits(states[at := t], x, states[at := t][x])
    ensures FamilyFits(graph, states[at := t])
  {
    var after := states[at := t];
    assert after.Keys == states.Keys;
    forall x | x in after
      ensures GraphFits(graph, x, after[x])
    {
      assert x in states && GraphFits(graph, x, states[x]);
    }
  }

  lemma {:induction false} ParentStillFits(graph: Graph, states: map<ScopeRun, State>, at: ScopeRun, c: Command,
                                           t: State, x: ScopeRun)
    requires at in states && x in states && ParentFits(states, x, states[x]) && ChildrenEnded(states, at, c)
    requires Reduce(Some(states[at]), c) == Some(t) && t.parent == states[at].parent
    requires t.superstep >= states[at].superstep
    requires t.status == Running ==> states[at].status == Running
    ensures ParentFits(states[at := t], x, states[at := t][x])
  {
    if x.scope != [] {
      var a := states[x].parent.value;
      assert |ParentAt(x, a).scope| < |x.scope|;
      if x != at && ParentAt(x, a) == at && states[x].status == Running {
        PendingStays(states[at], c, t, a.node);
      }
    }
  }

  // ---- every reached family --------------------------------------------------------------

  /** The driver's moves over one graph. */
  ghost function Driven<V>(graph: Graph, schema: Schema, moves: seq<Move<V>>): (r: Option<Live<V>>) {
    if moves == [] then Some(NewFamily())
    else
      var n := |moves| - 1;
      var before, e := Driven(graph, schema, moves[..n]), EventOf(moves[n]);
      if before.None? || e.None? || !DriverMoves(graph, before.value.states, e.value.at, e.value.command) then None
      else Confirm(schema, before.value, e.value)
  }

  lemma {:induction false} DrivenFits<V>(graph: Graph, schema: Schema, moves: seq<Move<V>>)
    requires Driven(graph, schema, moves).Some?
    ensures FamilyFits(graph, Driven(graph, schema, moves).value.states)
  {
    if moves != [] {
      var n := |moves| - 1;
      DrivenFits(graph, schema, moves[..n]);
      MoveFits(graph, schema, Driven(graph, schema, moves[..n]).value, EventOf(moves[n]).value);
    }
  }

  lemma {:induction false} MoveFits<V>(graph: Graph, schema: Schema, live: Live<V>, e: Event<V>)
    requires FamilyFits(graph, live.states) && DriverMoves(graph, live.states, e.at, e.command)
    requires Confirm(schema, live, e).Some?
    ensures FamilyFits(graph, Confirm(schema, live, e).value.states)
  {
    var t := ConfirmedCandidate(schema, live, e);
    if e.at in live.states {
      StepFits(graph, live.states, e.at, e.command, t);
    } else {
      NothingBefore(schema, live, e);
      StartFits(graph, live.states, e.at, e.command, t);
    }
  }

  lemma {:induction false} NothingBefore<V>(schema: Schema, live: Live<V>, e: Event<V>)
    requires Confirm(schema, live, e).Some? && e.at !in live.states
    ensures e.command.Start? && Confirm(schema, live, e).value.states[e.at].run == e.at.run
  {
  }

  /** A lineage that lists exactly the runs of a family. */
  ghost predicate Lists(bs: seq<Binding>, states: map<ScopeRun, State>) {
    && Ascending(ScopeRunLess, Ats(bs))
    && (forall i :: 0 <= i < |bs| ==> bs[i].at in states && bs[i].state == states[bs[i].at])
    && (forall at :: at in states ==> at in Ats(bs))
  }

  lemma {:induction false} RunFits(graph: Graph, states: map<ScopeRun, State>, bs: seq<Binding>, i: nat)
    requires FamilyFits(graph, states) && Lists(bs, states) && i < |bs|
    ensures FitsGraph(graph, bs[i]) && FitsLineage(bs, bs[i])
  {
    var b := bs[i];
    assert GraphFits(graph, b.at, states[b.at]) && ParentFits(states, b.at, states[b.at]);
    if b.at.scope != [] {
      var a := b.state.parent.value;
      var parent := ParentAt(b.at, a);
      assert parent in Ats(bs);
      var j :| 0 <= j < |bs| && Ats(bs)[j] == parent;
      FitsParent(b, a, bs[j]);
    }
  }

  lemma {:induction false} FitsParent(b: Binding, a: Activation, parent: Binding)
    requires b.at == ChildScopeRun(parent.at, a.superstep, a.node) && a.run == parent.at.run
    requires a.superstep <= parent.state.superstep
    requires b.state.status == Running ==>
               && parent.state.status == Running && parent.state.superstep == a.superstep
               && IsPending(parent.state.frontier, a.node)
    ensures FitsUnder(b, a, parent)
  {
  }

  /** Every family the driver reaches over its own graph can be planned: root and nested starts, claims,
      settlements, advances, completions, aborts, fences and resumes never lead to a lineage that planning
      refuses, whatever children have ended. */
  lemma {:induction false} ReachedIsPlannable<V>(graph: Graph, schema: Schema, moves: seq<Move<V>>, bs: seq<Binding>)
    requires Driven(graph, schema, moves).Some? && Lists(bs, Driven(graph, schema, moves).value.states)
    ensures EveryRunFits(graph, bs) && Plannable(graph, bs)
  {
    DrivenFits(graph, schema, moves);
    forall i | 0 <= i < |bs|
      ensures FitsGraph(graph, bs[i]) && FitsLineage(bs, bs[i])
    {
      RunFits(graph, Driven(graph, schema, moves).value.states, bs, i);
    }
    PlannableIff(graph, bs);
  }
}
