/** When a resume request is accepted, said of the lineage and frames it is given. */
module ResumeAcceptance {
  import opened Sorted
  import opened Identity
  import opened FrameIndex
  import opened GraphState
  import opened Lineage
  import opened ScopedFrames
  import opened Resumption

  // ---- one scope -------------------------------------------------------------------------

  predicate NamesNode<V>(actions: seq<RequestedAction<V>>, node: Text) {
    exists m :: 0 <= m < |actions| && actions[m].node == node
  }

  /** The action names the interrupt its node is waiting on. */
  predicate AnswersNode<V>(s: State, a: RequestedAction<V>) {
    exists k :: 0 <= k < |s.frontier| && s.frontier[k].node == a.node && s.frontier[k].settlement.Interrupted?
                && var id := s.frontier[k].settlement.identity; a.interruptId
                                                                == InterruptId(id.run, id.superstep, id.node,
                                                                               id.generation)
  }

  ghost predicate AscendingNodes<V>(actions: seq<RequestedAction<V>>) {
    forall i, j :: 0 <= i < j < |actions| ==> TextLess(actions[i].node, actions[j].node)
  }

  /** The run is quiescent, and the actions name distinct nodes in order, each with its current interrupt. */
  ghost predicate Answers<V>(s: State, actions: seq<RequestedAction<V>>) {
    && s.status == Running && s.lease.None? && actions != [] && AscendingNodes(actions)
    && (forall i :: 0 <= i < |actions| ==> AnswersNode(s, actions[i]))
  }

  lemma {:induction false} AscendingIds<V>(s: State, actions: seq<RequestedAction<V>>)
    ensures Pairwise(TextLess, ActionIds(CommandOf(s, actions).actions)) <==> AscendingNodes(actions)
  {
    var ids := ActionIds(CommandOf(s, actions).actions);
    TextOrder();
    PairwiseIsAscending(TextLess, ids);
    assert forall i :: 0 <= i < |ids| ==> ids[i] == actions[i].node;
    if AscendingNodes(actions) {
      assert forall i, j :: 0 <= i < j < |ids| ==> TextLess(actions[i].node, actions[j].node);
    }
    if Ascending(TextLess, ids) {
      forall i, j | 0 <= i < j < |actions|
        ensures TextLess(actions[i].node, actions[j].node)
      {
        assert TextLess(ids[i], ids[j]);
      }
    }
  }

  lemma {:induction false} FrontierDistinct(s: State, i: nat, j: nat)
    requires Valid(s) && i < |s.frontier| && j < |s.frontier| && s.frontier[i].node == s.frontier[j].node
    ensures i == j
  {
    TextOrder();
    PairwiseIsAscending(TextLess, NodeIds(s.frontier));
    assert NodeIds(s.frontier)[i] == NodeIds(s.frontier)[j];
    AscendingDistinct(TextLess, NodeIds(s.frontier), i, j);
  }

  lemma {:induction false} ActionOf<V>(s: State, actions: seq<RequestedAction<V>>, m: nat)
    requires AscendingNodes(actions) && m < |actions|
    ensures ActionFor(CommandOf(s, actions).actions, actions[m].node) == Some(CommandOf(s, actions).actions[m])
  {
    var list := CommandOf(s, actions).actions;
    var a := ActionFor(list, actions[m].node);
    assert list[m].node == actions[m].node;
    var k :| 0 <= k < |list| && list[k] == a.value;
    TextOrder();
  }

  lemma {:induction false} ResumableIffAnswers<V>(s: State, actions: seq<RequestedAction<V>>, m: nat)
    requires Valid(s) && AscendingNodes(actions) && m < |actions| && actions[m].node in NodeIds(s.frontier)
    ensures AnswersNode(s, actions[m])
       <==> forall i :: 0 <= i < |s.frontier| && s.frontier[i].node == actions[m].node ==>
                          Resumable(s.frontier[i], CommandOf(s, actions).actions[m])
  {
    var k :| 0 <= k < |NodeIds(s.frontier)| && NodeIds(s.frontier)[k] == actions[m].node;
    assert s.frontier[k].node == actions[m].node;
    forall i | 0 <= i < |s.frontier| && s.frontier[i].node == actions[m].node
      ensures i == k
    {
      FrontierDistinct(s, i, k);
    }
  }

  /** The reducer accepts the command of one scope exactly when the actions answer its interrupts. */
  lemma {:induction false} ResumeAcceptedIff<V>(s: State, actions: seq<RequestedAction<V>>)
    requires Valid(s)
    ensures Reduce(Some(s), CommandOf(s, actions)).Some? <==> Answers(s, actions)
  {
    var c := CommandOf(s, actions);
    if GraphState.Transition(s, c).Some? {
      ValidationRejectsOnlyConflictingCompletion(s, c);
    }
    AscendingIds(s, actions);
    if AscendingNodes(actions) {
      if ResumeNodes(s, c.actions).Some? {
        ResumedAnswers(s, actions);
      }
      if Answers(s, actions) {
        AnswersResume(s, actions);
      }
    }
  }

  lemma {:induction false} ResumedAnswers<V>(s: State, actions: seq<RequestedAction<V>>)
    requires Valid(s) && AscendingNodes(actions) && ResumeNodes(s, CommandOf(s, actions).actions).Some?
    ensures Answers(s, actions)
  {
    var list := CommandOf(s, actions).actions;
    forall m | 0 <= m < |actions|
      ensures AnswersNode(s, actions[m])
    {
      assert list[m].node in NodeIds(s.frontier);
      ActionOf(s, actions, m);
      ResumableIffAnswers(s, actions, m);
    }
  }

  lemma {:induction false} AnswersResume<V>(s: State, actions: seq<RequestedAction<V>>)
    requires Valid(s) && Answers(s, actions)
    ensures ResumeNodes(s, CommandOf(s, actions).actions).Some?
  {
    var list := CommandOf(s, actions).actions;
    AscendingIds(s, actions);
    forall m | 0 <= m < |list|
      ensures list[m].node in NodeIds(s.frontier)
    {
      var k :| 0 <= k < |s.frontier| && s.frontier[k].node == actions[m].node;
      assert NodeIds(s.frontier)[k] == actions[m].node;
    }
    forall i | 0 <= i < |s.frontier| && ActionFor(list, s.frontier[i].node).Some?
      ensures Resumable(s.frontier[i], ActionFor(list, s.frontier[i].node).value)
    {
      AnsweredIsResumable(s, actions, i);
    }
  }

  lemma {:induction false} AnsweredIsResumable<V>(s: State, actions: seq<RequestedAction<V>>, i: nat)
    requires Valid(s) && Answers(s, actions) && i < |s.frontier|
    requires ActionFor(CommandOf(s, actions).actions, s.frontier[i].node).Some?
    ensures Resumable(s.frontier[i], ActionFor(CommandOf(s, actions).actions, s.frontier[i].node).value)
  {
    var list := CommandOf(s, actions).actions;
    var m :| 0 <= m < |list| && list[m] == ActionFor(list, s.frontier[i].node).value;
    ActionOf(s, actions, m);
    assert NodeIds(s.frontier)[i] == actions[m].node;
    ResumableIffAnswers(s, actions, m);
  }

  lemma {:induction false} ResumedFrontier<V>(s: State, actions: seq<RequestedAction<V>>, k: nat)
    requires Reduce(Some(s), CommandOf(s, actions)).Some? && k < |s.frontier|
    ensures var t := Reduce(Some(s), CommandOf(s, actions)).value;
            && |t.frontier| == |s.frontier| && t.frontier[k].node == s.frontier[k].node
            && (t.frontier[k].settlement.Pending?
                <==> s.frontier[k].settlement.Pending? || NamesNode(actions, s.frontier[k].node))
  {
    var list := CommandOf(s, actions).actions;
    var a := ActionFor(list, s.frontier[k].node);
    if a.Some? {
      var m :| 0 <= m < |list| && list[m] == a.value;
      assert actions[m].node == s.frontier[k].node;
    }
    if NamesNode(actions, s.frontier[k].node) {
      var m :| 0 <= m < |actions| && actions[m].node == s.frontier[k].node;
      assert list[m].node == s.frontier[k].node;
    }
  }

  lemma {:induction false} NamedIsInFrontier<V>(s: State, actions: seq<RequestedAction<V>>, node: Text) returns (k: nat)
    requires Reduce(Some(s), CommandOf(s, actions)).Some? && NamesNode(actions, node)
    ensures k < |s.frontier| && s.frontier[k].node == node
  {
    var list := CommandOf(s, actions).actions;
    var m :| 0 <= m < |actions| && actions[m].node == node;
    assert list[m].node in NodeIds(s.frontier);
    k :| 0 <= k < |s.frontier| && NodeIds(s.frontier)[k] == node;
  }

  /** Resuming makes exactly the answered nodes pending, besides those that were. */
  lemma {:induction false} ResumedPending<V>(s: State, actions: seq<RequestedAction<V>>, node: Text)
    requires Reduce(Some(s), CommandOf(s, actions)).Some?
    ensures var t := Reduce(Some(s), CommandOf(s, actions)).value;
            IsPending(t.frontier, node) <==> IsPending(s.frontier, node) || NamesNode(actions, node)
  {
    var t := Reduce(Some(s), CommandOf(s, actions)).value;
    forall k | 0 <= k < |s.frontier|
      ensures |t.frontier| == |s.frontier| && t.frontier[k].node == s.frontier[k].node
      ensures t.frontier[k].settlement.Pending?
         <==> s.frontier[k].settlement.Pending? || NamesNode(actions, s.frontier[k].node)
    {
      ResumedFrontier(s, actions, k);
    }
    ResumeFacts(s, CommandOf(s, actions).actions);
    assert |NodeIds(t.frontier)| == |NodeIds(s.frontier)|;
    PendingByNode(s.frontier, t.frontier, NamesNode(actions, node), node);
    if NamesNode(actions, node) {
      var k := NamedIsInFrontier(s, actions, node);
      assert t.frontier[k].node == node && t.frontier[k].settlement.Pending?;
    }
  }

  lemma {:induction false} PendingByNode(f: seq<FrontierNode>, g: seq<FrontierNode>, named: bool, node: Text)
    requires |g| == |f|
    requires forall k :: 0 <= k < |f| ==> g[k].node == f[k].node
    requires forall k :: 0 <= k < |f| && f[k].node == node ==>
                           (g[k].settlement.Pending? <==> f[k].settlement.Pending? || named)
    ensures IsPending(g, node) ==> IsPending(f, node) || named
    ensures IsPending(f, node) ==> IsPending(g, node)
  {
    if IsPending(g, node) {
      var k :| 0 <= k < |g| && g[k].node == node && g[k].settlement.Pending?;
      assert f[k].node == node;
    }
    if IsPending(f, node) {
      var k :| 0 <= k < |f| && f[k].node == node && f[k].settlement.Pending?;
      assert g[k].node == node && g[k].settlement.Pending?;
    }
  }

  // ---- the chain of runs a scope names ---------------------------------------------------

  /** This request answers the node in that scope. */
  predicate Answered<V>(groups: seq<ResumeGroup<V>>, scope: seq<Text>, node: Text) {
    exists g :: 0 <= g < |groups| && groups[g].scope == scope && NamesNode(groups[g].actions, node)
  }

  /** One segment further down: a nested node that is open, whose child run is bound. */
  function Child(graph: Option<Graph>, bs: seq<Binding>, at: ScopeRun, node: Text, open: bool): (r: Option<ScopeRun>)
    ensures r.Some? ==> r.value.scope == at.scope + [node] && BindingAt(bs, r.value).Some?
  {
    var b := BindingAt(bs, at);
    if graph.None? || b.None? || node !in graph.value.nested || !open then None
    else
      var child := ChildScopeRun(at, b.value.state.superstep, node);
      if BindingAt(bs, child).None? then None else Some(child)
  }

  predicate PendingAt(bs: seq<Binding>, at: ScopeRun, node: Text) {
    BindingAt(bs, at).Some? && IsPending(BindingAt(bs, at).value.state.frontier, node)
  }

  /** The run a scope names: from the root down, every segment a nested node that is pending or answered by
      this very request, and every child run bound. */
  function Reach<V>(graph: Graph, bs: seq<Binding>, groups: seq<ResumeGroup<V>>,
                    scope: seq<Text>): (r: Option<ScopeRun>)
    requires bs != []
  {
    if scope == [] then Some(bs[0].at)
    else
      var n := |scope| - 1;
      match Reach(graph, bs, groups, scope[..n])
      case None => None
      case Some(at) =>
        Child(GraphAt(graph, scope[..n]), bs, at, scope[n], PendingAt(bs, at, scope[n])
                                                            || Answered(groups, scope[..n], scope[n]))
  }

  /** Resolving segment by segment from the root is resolving all but the last and then the last. */
  lemma {:induction false} ResolveSnoc(graph: Graph, bs: seq<Binding>, at: ScopeRun, scope: seq<Text>, node: Text)
    ensures ResolveFrom(graph, bs, at, scope + [node])
         == match ResolveFrom(graph, bs, at, scope)
            case None => None
            case Some(c) => Child(GraphAt(graph, scope), bs, c, node, PendingAt(bs, c, node))
    decreases scope
  {
    if scope == [] {
      assert [node][1..] == [];
    } else {
      assert (scope + [node])[0] == scope[0] && (scope + [node])[1..] == scope[1..] + [node];
      var b := BindingAt(bs, at);
      if b.Some? && scope[0] in graph.nested {
        ResolveSnoc(graph.nested[scope[0]], bs, ChildScopeRun(at, b.value.state.superstep, scope[0]), scope[1..], node);
      }
    }
  }

  lemma {:induction false} ReachIsBound<V>(graph: Graph, bs: seq<Binding>, groups: seq<ResumeGroup<V>>,
                                           scope: seq<Text>)
    requires CanonicalLineage(bs) && Reach(graph, bs, groups, scope).Some?
    ensures var at := Reach(graph, bs, groups, scope).value; at.scope == scope && BindingAt(bs, at).Some?
  {
    if scope == [] {
      PositionSpec(bs, 0);
    } else {
      var up := scope[..|scope| - 1];
      ReachIsBound(graph, bs, groups, up);
      LastSegment(scope, scope);
    }
  }

  lemma {:induction false} LastSegment<T>(a: seq<T>, b: seq<T>)
    requires a != [] && a <= b
    ensures a == a[..|a| - 1] + [a[|a| - 1]] && a[..|a| - 1] < b
  {
  }

  // ---- planning in turn ------------------------------------------------------------------

  /** No answer of this scope is already recorded at its activation. */
  ghost predicate NotRecorded<V>(graph: Graph, resumes: seq<Record<V>>, at: ScopeRun, s: State,
                                 actions: seq<RequestedAction<V>>) {
    forall m :: 0 <= m < |actions| ==> !Has(resumes, AnswerKey(graph, at, s, actions[m].node))
  }

  /** The answers fit one run: its snapshot matches its graph, they may replace the inputs of their nodes,
      they answer the interrupts, and none is recorded yet. */
  ghost predicate BindingFits<V>(scoped: Graph, b: Binding, frames: Index<V>, actions: seq<RequestedAction<V>>) {
    && SnapshotMatches(scoped, b)
    && (forall m :: 0 <= m < |actions| ==>
                      actions[m].node in scoped.nodes && !scoped.nodes[actions[m].node].predecessorBound)
    && Answers(b.state, actions) && NotRecorded(scoped, frames.resumes, b.at, b.state, actions)
  }

  /** The answers of one scope fit the run it reaches. */
  ghost predicate GroupFits<V>(graph: Graph, bs: seq<Binding>, frames: Index<V>, groups: seq<ResumeGroup<V>>, i: nat)
    requires bs != [] && i < |groups|
  {
    var at := Reach(graph, bs, groups, groups[i].scope);
    && at.Some? && BindingAt(bs, at.value).Some? && GraphAt(graph, groups[i].scope).Some?
    && BindingFits(GraphAt(graph, groups[i].scope).value, BindingAt(bs, at.value).value, frames, groups[i].actions)
  }

  /** The first plans are those of the first groups, each for the run its scope reaches. */
  ghost predicate PlansReach<V>(graph: Graph, bs: seq<Binding>, groups: seq<ResumeGroup<V>>,
                                plans: seq<PlannedResume<V>>)
    requires bs != []
  {
    && |plans| <= |groups|
    && (forall k :: 0 <= k < |plans| ==>
                      && Reach(graph, bs, groups, groups[k].scope) == Some(plans[k].at)
                      && BindingAt(bs, plans[k].at).Some? && GraphAt(graph, groups[k].scope).Some?
                      && plans[k].command == CommandOf(BindingAt(bs, plans[k].at).value.state, groups[k].actions)
                      && plans[k].inputs == InputsOf(GraphAt(graph, groups[k].scope).value, plans[k].at,
                                                     BindingAt(bs, plans[k].at).value.state, groups[k].actions))
  }

  ghost predicate AtTurn<V>(graph: Graph, bs: seq<Binding>, frames: Index<V>, groups: seq<ResumeGroup<V>>, i: nat,
                            p: Progress<V>) {
    && CanonicalLineage(bs) && Canonical(frames.resumes) && Pairwise(ScopeLess, Scopes(groups)) && i <= |groups|
    && ResumePlan(bs, frames, Scopes(groups)[..i], p) && PlansReach(graph, bs, groups, p.plans)
  }

  lemma {:induction false} ScopePosition<V>(groups: seq<ResumeGroup<V>>, g: nat, i: nat)
    requires Pairwise(ScopeLess, Scopes(groups)) && g < |groups| && i < |groups|
    ensures g < i <==> ScopeLess(groups[g].scope, groups[i].scope)
    ensures g == i <==> groups[g].scope == groups[i].scope
  {
    var scopes := Scopes(groups);
    ScopeOrder();
    PairwiseIsAscending(ScopeLess, scopes);
    if g < i {
      assert ScopeLess(scopes[g], scopes[i]);
    } else if i < g {
      assert ScopeLess(scopes[i], scopes[g]);
    }
  }

  lemma {:induction false} PlannedBinding<V>(bs: seq<Binding>, plans: seq<PlannedResume<V>>, after: seq<Binding>,
                                             at: ScopeRun)
    requires Ascending(ScopeRunLess, Ats(bs)) && ResumedLineage(bs, plans, after)
    ensures BindingAt(after, at)
         == match BindingAt(bs, at)
            case None => None
            case Some(b) => Some(Binding(at, ResumedState(b, plans)))
  {
    assert Ats(after) == Ats(bs);
    AbsentSpec(bs, at);
    AbsentSpec(after, at);
    if BindingAt(bs, at).Some? {
      var k := Position(bs, at).value;
      PositionSpec(after, k);
    }
  }

  /** What the earlier plans made of a run on the way: its pending nodes, and those this request answers. */
  lemma {:induction false} PendingAtTurn<V>(graph: Graph, bs: seq<Binding>, frames: Index<V>,
                                            groups: seq<ResumeGroup<V>>, i: nat,
                                            p: Progress<V>, up: seq<Text>, node: Text)
    requires AtTurn(graph, bs, frames, groups, i, p) && i < |groups| && up < groups[i].scope
    requires Reach(graph, bs, groups, up).Some?
    ensures var at := Reach(graph, bs, groups, up).value;
            && BindingAt(bs, at).Some? && BindingAt(p.bindings, at).Some?
            && BindingAt(p.bindings, at).value.state.superstep == BindingAt(bs, at).value.state.superstep
            && (PendingAt(p.bindings, at, node) <==> PendingAt(bs, at, node) || Answered(groups, up, node))
  {
    var at := Reach(graph, bs, groups, up).value;
    ReachIsBound(graph, bs, groups, up);
    PlannedBinding(bs, p.plans, p.bindings, at);
    EarlierScope(up, groups[i].scope);
    var q := PlanFor(p.plans, at);
    if q.Some? {
      PlannedOnTheWay(graph, bs, frames, groups, i, p, up, node, q.value);
    } else {
      NotAnswered(graph, bs, frames, groups, i, p, up, node);
    }
  }

  lemma {:induction false} PlannedOnTheWay<V>(graph: Graph, bs: seq<Binding>, frames: Index<V>,
                                              groups: seq<ResumeGroup<V>>, i: nat,
                                              p: Progress<V>, up: seq<Text>, node: Text, q: PlannedResume<V>)
    requires AtTurn(graph, bs, frames, groups, i, p) && q in p.plans && q.at.scope == up && BindingAt(bs, q.at).Some?
    ensures var s := BindingAt(bs, q.at).value.state;
            && q.successor.superstep == s.superstep
            && (IsPending(q.successor.frontier, node) <==> IsPending(s.frontier, node) || Answered(groups, up, node))
  {
    var k :| 0 <= k < |p.plans| && p.plans[k] == q;
    var command := PlanAtTurn(graph, bs, frames, groups, i, p, k);
    AnsweredState(groups, k, BindingAt(bs, q.at).value.state, q.successor, node);
  }

  lemma {:induction false} PlanAtTurn<V>(graph: Graph, bs: seq<Binding>, frames: Index<V>, groups: seq<ResumeGroup<V>>,
                                         i: nat, p: Progress<V>, k: nat)
    returns (command: Command)
    requires AtTurn(graph, bs, frames, groups, i, p) && k < |p.plans| && BindingAt(bs, p.plans[k].at).Some?
    ensures |p.plans| == i && p.plans[k].at.scope == groups[k].scope && Pairwise(ScopeLess, Scopes(groups))
    ensures command == CommandOf(BindingAt(bs, p.plans[k].at).value.state, groups[k].actions)
    ensures Reduce(Some(BindingAt(bs, p.plans[k].at).value.state), command) == Some(p.plans[k].successor)
  {
    assert PlannedFrom(bs, frames, p.plans[k]) && Scopes(groups)[..i][k] == groups[k].scope;
    command := p.plans[k].command;
  }

  lemma {:induction false} AnsweredState<V>(groups: seq<ResumeGroup<V>>, k: nat, s: State, t: State, node: Text)
    requires Pairwise(ScopeLess, Scopes(groups)) && k < |groups|
    requires Reduce(Some(s), CommandOf(s, groups[k].actions)) == Some(t)
    ensures t.superstep == s.superstep
    ensures IsPending(t.frontier, node) <==> IsPending(s.frontier, node) || Answered(groups, groups[k].scope, node)
  {
    ResumedPending(s, groups[k].actions, node);
    ResumeFacts(s, CommandOf(s, groups[k].actions).actions);
    OnlyAnswered(groups, k, node);
  }

  lemma {:induction false} OnlyAnswered<V>(groups: seq<ResumeGroup<V>>, k: nat, node: Text)
    requires Pairwise(ScopeLess, Scopes(groups)) && k < |groups|
    ensures Answered(groups, groups[k].scope, node) <==> NamesNode(groups[k].actions, node)
  {
    if Answered(groups, groups[k].scope, node) {
      var g :| 0 <= g < |groups| && groups[g].scope == groups[k].scope && NamesNode(groups[g].actions, node);
      ScopePosition(groups, g, k);
    }
  }

  lemma {:induction false} NotAnswered<V>(graph: Graph, bs: seq<Binding>, frames: Index<V>, groups: seq<ResumeGroup<V>>,
                                          i: nat,
                                          p: Progress<V>, up: seq<Text>, node: Text)
    requires AtTurn(graph, bs, frames, groups, i, p) && i < |groups| && ScopeLess(up, groups[i].scope)
    requires Reach(graph, bs, groups, up).Some? && PlanFor(p.plans, Reach(graph, bs, groups, up).value).None?
    ensures !Answered(groups, up, node)
  {
    if Answered(groups, up, node) {
      var g :| 0 <= g < |groups| && groups[g].scope == up && NamesNode(groups[g].actions, node);
      ScopePosition(groups, g, i);
    }
  }

  /** One segment: descending in the lineage planned so far is descending in the given one. */
  lemma {:induction false} DescendsAsReached<V>(graph: Graph, bs: seq<Binding>, frames: Index<V>,
                                                groups: seq<ResumeGroup<V>>, i: nat,
                                                p: Progress<V>, up: seq<Text>, node: Text, at: ScopeRun)
    requires AtTurn(graph, bs, frames, groups, i, p) && i < |groups| && up < groups[i].scope
    requires Reach(graph, bs, groups, up) == Some(at)
    ensures Child(GraphAt(graph, up), p.bindings, at, node, PendingAt(p.bindings, at, node))
         == Child(GraphAt(graph, up), bs, at, node, PendingAt(bs, at, node) || Answered(groups, up, node))
  {
    PendingAtTurn(graph, bs, frames, groups, i, p, up, node);
    PlannedBinding(bs, p.plans, p.bindings, ChildScopeRun(at, BindingAt(bs, at).value.state.superstep, node));
  }

  lemma {:induction false} SameRoot<V>(graph: Graph, bs: seq<Binding>, frames: Index<V>, groups: seq<ResumeGroup<V>>,
                                       i: nat, p: Progress<V>)
    requires AtTurn(graph, bs, frames, groups, i, p)
    ensures bs != [] && p.bindings != [] && p.bindings[0].at == bs[0].at
  {
  }

  /** At its turn a scope resolves to the run it reaches. */
  lemma {:induction false} ResolvesAsReached<V>(graph: Graph, bs: seq<Binding>, frames: Index<V>,
                                                groups: seq<ResumeGroup<V>>, i: nat,
                                                p: Progress<V>, scope: seq<Text>)
    requires AtTurn(graph, bs, frames, groups, i, p) && i < |groups| && scope <= groups[i].scope
    ensures bs != [] && p.bindings != [] && ResolveScope(graph, p.bindings, scope) == Reach(graph, bs, groups, scope)
  {
    SameRoot(graph, bs, frames, groups, i, p);
    if scope != [] {
      var n := |scope| - 1;
      var up, node := scope[..n], scope[n];
      LastSegment(scope, groups[i].scope);
      ResolvesAsReached(graph, bs, frames, groups, i, p, up);
      ResolveSnoc(graph, p.bindings, p.bindings[0].at, up, node);
      if Reach(graph, bs, groups, up).Some? {
        DescendsAsReached(graph, bs, frames, groups, i, p, up, node, Reach(graph, bs, groups, up).value);
      }
    }
  }

  /** The inputs planned so far belong to other runs, so an answer is new exactly if it was not recorded. */
  lemma {:induction false} NewAtTurn<V>(scoped: Graph, frames: Index<V>, plans: seq<PlannedResume<V>>, after: Index<V>,
                                        at: ScopeRun, s: State,
                                        actions: seq<RequestedAction<V>>)
    requires ResumedFrames(frames, plans, after) && PlanFor(plans, at).None?
    requires forall k :: 0 <= k < |plans| ==> forall r :: r in plans[k].inputs ==>
                                                            r.coordinate.ResumeInputAt?
                                                            && r.coordinate.activation.at == plans[k].at
    ensures AllNew(after.resumes, InputsOf(scoped, at, s, actions))
       <==> NotRecorded(scoped, frames.resumes, at, s, actions)
  {
    var inputs := InputsOf(scoped, at, s, actions);
    forall m | 0 <= m < |actions|
      ensures Has(after.resumes, inputs[m].coordinate)
         <==> Has(frames.resumes, AnswerKey(scoped, at, s, actions[m].node))
    {
      var c := inputs[m].coordinate;
      HasMembers(after.resumes, c);
      HasMembers(frames.resumes, c);
      forall r | r in after.resumes && r.coordinate == c
        ensures r in frames.resumes
      {
        OthersInputs(plans, at, r);
      }
    }
  }

  lemma {:induction false} OthersInputs<V>(plans: seq<PlannedResume<V>>, at: ScopeRun, r: Record<V>)
    requires PlanFor(plans, at).None? && r.coordinate.ResumeInputAt? && r.coordinate.activation.at == at
    requires forall k :: 0 <= k < |plans| ==> forall r :: r in plans[k].inputs ==>
                                                            r.coordinate.ResumeInputAt?
                                                            && r.coordinate.activation.at == plans[k].at
    ensures !InSomePlan(plans, r)
  {
    forall k | 0 <= k < |plans|
      ensures r !in plans[k].inputs
    {
      assert plans[k] in plans;
    }
  }

  lemma {:induction false} DistinctInputs<V>(scoped: Graph, at: ScopeRun, s: State, actions: seq<RequestedAction<V>>)
    requires AscendingNodes(actions)
    ensures DistinctKeys(InputsOf(scoped, at, s, actions))
  {
    TextOrder();
    var inputs := InputsOf(scoped, at, s, actions);
    forall i, j | 0 <= i < j < |inputs|
      ensures inputs[i].coordinate != inputs[j].coordinate
    {
      assert TextLess(actions[i].node, actions[j].node);
    }
  }

  /** The run a scope reaches has no plan yet when its turn comes. */
  lemma {:induction false} UnplannedAtTurn<V>(graph: Graph, bs: seq<Binding>, frames: Index<V>,
                                              groups: seq<ResumeGroup<V>>, i: nat,
                                              p: Progress<V>, at: ScopeRun)
    requires AtTurn(graph, bs, frames, groups, i, p) && i < |groups|
    requires Reach(graph, bs, groups, groups[i].scope) == Some(at)
    ensures BindingAt(bs, at).Some? && BindingAt(p.bindings, at) == BindingAt(bs, at) && PlanFor(p.plans, at).None?
  {
    ReachIsBound(graph, bs, groups, groups[i].scope);
    NewScope(groups, i);
    NoEarlierPlan(Scopes(groups)[..i], p.plans, at);
    PlannedBinding(bs, p.plans, p.bindings, at);
  }

  /** At its turn a group is planned exactly when its answers fit. */
  lemma {:induction false} TurnPlansIff<V>(graph: Graph, bs: seq<Binding>, frames: Index<V>,
                                           groups: seq<ResumeGroup<V>>, i: nat, p: Progress<V>)
    requires AtTurn(graph, bs, frames, groups, i, p) && i < |groups|
    ensures PlanGroup(graph, p, groups[i]).Some? <==> GroupFits(graph, bs, frames, groups, i)
  {
    ResolvesAsReached(graph, bs, frames, groups, i, p, groups[i].scope);
    var reached := Reach(graph, bs, groups, groups[i].scope);
    if reached.Some? {
      ReachIsBound(graph, bs, groups, groups[i].scope);
      UnplannedAtTurn(graph, bs, frames, groups, i, p, reached.value);
      GroupIsBinding(graph, p, groups[i], reached.value);
      var scoped := GraphAt(graph, groups[i].scope);
      if scoped.Some? {
        OwnConditions(scoped.value, bs, frames, p, BindingAt(bs, reached.value).value, groups[i].actions);
      }
    }
  }

  /** Planning a group is planning its binding. */
  lemma {:induction false} GroupIsBinding<V>(graph: Graph, p: Progress<V>, group: ResumeGroup<V>, at: ScopeRun)
    requires ResolveScope(graph, p.bindings, group.scope) == Some(at) && BindingAt(p.bindings, at).Some?
    requires at.scope == group.scope
    ensures PlanGroup(graph, p, group)
         == (var scoped := GraphAt(graph, group.scope);
             if scoped.None? then None
             else PlanBinding(scoped.value, p, BindingAt(p.bindings, at).value, group.actions))
  {
  }

  lemma {:induction false} NextTurn<V>(graph: Graph, bs: seq<Binding>, frames: Index<V>, groups: seq<ResumeGroup<V>>,
                                       i: nat, p: Progress<V>)
    requires AtTurn(graph, bs, frames, groups, i, p) && i < |groups| && PlanGroup(graph, p, groups[i]).Some?
    ensures AtTurn(graph, bs, frames, groups, i + 1, PlanGroup(graph, p, groups[i]).value)
  {
    ResolvesAsReached(graph, bs, frames, groups, i, p, groups[i].scope);
    UnplannedAtTurn(graph, bs, frames, groups, i, p, Reach(graph, bs, groups, groups[i].scope).value);
    NextGroup(graph, bs, frames, groups, i, p);
    ReachIsBound(graph, bs, groups, groups[i].scope);
    var plan := GroupPlan(graph, p, groups[i]);
    assert |p.plans| == i;
    PlansReachNext(graph, bs, groups, p.plans, plan);
  }

  /** The plan a planned group appends. */
  lemma {:induction false} GroupPlan<V>(graph: Graph, p: Progress<V>, group: ResumeGroup<V>)
    returns (plan: PlannedResume<V>)
    requires PlanGroup(graph, p, group).Some?
    ensures PlanGroup(graph, p, group).value.plans == p.plans + [plan]
    ensures ResolveScope(graph, p.bindings, group.scope) == Some(plan.at) && BindingAt(p.bindings, plan.at).Some?
    ensures plan.command == CommandOf(BindingAt(p.bindings, plan.at).value.state, group.actions)
    ensures GraphAt(graph, plan.at.scope).Some?
    ensures plan.inputs == InputsOf(GraphAt(graph, plan.at.scope).value, plan.at,
                                    BindingAt(p.bindings, plan.at).value.state, group.actions)
  {
    plan := PlanGroup(graph, p, group).value.plans[|p.plans|];
  }

  lemma {:induction false} PlansReachNext<V>(graph: Graph, bs: seq<Binding>, groups: seq<ResumeGroup<V>>,
                                             plans: seq<PlannedResume<V>>, plan: PlannedResume<V>)
    requires bs != [] && PlansReach(graph, bs, groups, plans) && |plans| < |groups|
    requires Reach(graph, bs, groups, groups[|plans|].scope) == Some(plan.at) && BindingAt(bs, plan.at).Some?
    requires plan.command == CommandOf(BindingAt(bs, plan.at).value.state, groups[|plans|].actions)
    requires GraphAt(graph, groups[|plans|].scope).Some?
    requires plan.inputs == InputsOf(GraphAt(graph, groups[|plans|].scope).value, plan.at,
                                     BindingAt(bs, plan.at).value.state, groups[|plans|].actions)
    ensures PlansReach(graph, bs, groups, plans + [plan])
  {
  }

  lemma {:induction false} OwnConditions<V>(scoped: Graph, bs: seq<Binding>, frames: Index<V>, p: Progress<V>,
                                            b: Binding,
                                            actions: seq<RequestedAction<V>>)
    requires BindingAt(p.bindings, b.at) == Some(b) && PlanFor(p.plans, b.at).None?
    requires ResumedFrames(frames, p.plans, p.frames)
    requires forall k :: 0 <= k < |p.plans| ==> PlannedFrom(bs, frames, p.plans[k])
    ensures PlanBinding(scoped, p, b, actions).Some? <==> BindingFits(scoped, b, frames, actions)
  {
    BindingParts(scoped, p, b, actions);
    if SnapshotMatches(scoped, b) {
      ResumeAcceptedIff(b.state, actions);
      if AscendingNodes(actions) {
        DistinctInputs(scoped, b.at, b.state, actions);
      }
      InsertAllSpec(p.frames.resumes, InputsOf(scoped, b.at, b.state, actions));
      NewAtTurn(scoped, frames, p.plans, p.frames, b.at, b.state, actions);
    }
  }

  /** Planning a binding is its four checks. */
  lemma {:induction false} BindingParts<V>(scoped: Graph, p: Progress<V>, b: Binding, actions: seq<RequestedAction<V>>)
    requires BindingAt(p.bindings, b.at) == Some(b)
    ensures PlanBinding(scoped, p, b, actions).Some?
       <==> && SnapshotMatches(scoped, b) && Overridable(scoped, actions)
            && Reduce(Some(b.state), CommandOf(b.state, actions)).Some?
            && InsertAll(p.frames.resumes, InputsOf(scoped, b.at, b.state, actions)).Some?
  {
  }

  ghost predicate FitFrom<V>(graph: Graph, bs: seq<Binding>, frames: Index<V>, groups: seq<ResumeGroup<V>>, i: nat)
    requires bs != []
  {
    forall k :: i <= k < |groups| ==> GroupFits(graph, bs, frames, groups, k)
  }

  lemma {:induction false} FitNext<V>(graph: Graph, bs: seq<Binding>, frames: Index<V>, groups: seq<ResumeGroup<V>>,
                                      i: nat)
    requires bs != [] && i < |groups|
    ensures FitFrom(graph, bs, frames, groups, i)
       <==> GroupFits(graph, bs, frames, groups, i) && FitFrom(graph, bs, frames, groups, i + 1)
  {
  }

  lemma {:induction false} NextPlanned<V>(graph: Graph, p: Progress<V>, groups: seq<ResumeGroup<V>>, i: nat)
    requires i < |groups|
    ensures PlanGroups(graph, p, groups[i..])
         == match PlanGroup(graph, p, groups[i]) case None => None
                                                 case Some(next) => PlanGroups(graph, next, groups[i + 1..])
  {
    assert groups[i..][0] == groups[i] && groups[i..][1..] == groups[i + 1..];
  }

  lemma {:induction false} FromTurn<V>(graph: Graph, bs: seq<Binding>, frames: Index<V>, groups: seq<ResumeGroup<V>>,
                                       i: nat, p: Progress<V>)
    requires AtTurn(graph, bs, frames, groups, i, p)
    ensures bs != [] && (PlanGroups(graph, p, groups[i..]).Some? <==> FitFrom(graph, bs, frames, groups, i))
    decreases |groups| - i
  {
    SameRoot(graph, bs, frames, groups, i, p);
    if i == |groups| {
      assert groups[i..] == [];
    } else {
      TurnPlansIff(graph, bs, frames, groups, i, p);
      NextPlanned(graph, p, groups, i);
      if PlanGroup(graph, p, groups[i]).Some? {
        NextTurn(graph, bs, frames, groups, i, p);
        FromTurn(graph, bs, frames, groups, i + 1, PlanGroup(graph, p, groups[i]).value);
      }
      FitNext(graph, bs, frames, groups, i);
    }
  }

  /** A canonical request whose inputs were admitted is accepted exactly when the answers of every scope fit
      the lineage and frames it was given: its run is reached through nested nodes that are pending or answered
      by the request, it matches its graph and is quiescent, every answer names the current interrupt of a node
      without predecessor-bound input, and none is recorded already. */
  lemma {:induction false} RequestAcceptedIff<V>(graph: Graph, bs: seq<Binding>, frames: Index<V>,
                                                 groups: seq<ResumeGroup<V>>)
    requires CanonicalLineage(bs) && Canonical(frames.resumes) && Pairwise(ScopeLess, Scopes(groups))
    ensures PlanGroups(graph, Progress(bs, frames, []), groups).Some?
       <==> forall i :: 0 <= i < |groups| ==> GroupFits(graph, bs, frames, groups, i)
  {
    EmptyPlan(bs, frames);
    assert Scopes(groups)[..0] == [] && groups[0..] == groups;
    FromTurn(graph, bs, frames, groups, 0, Progress(bs, frames, []));
  }

  // ---- what an accepted request plans ----------------------------------------------------

  /** The record of one answer: at the activation of its node in the run its scope reaches, in the frame the
      node takes, the very value that was given. */
  ghost predicate IsAnswerRecord<V>(graph: Graph, bs: seq<Binding>, groups: seq<ResumeGroup<V>>, g: nat, i: nat,
                                    r: Record<V>)
    requires bs != [] && g < |groups| && i < |groups[g].actions|
  {
    var at, scoped, a := Reach(graph, bs, groups, groups[g].scope), GraphAt(graph, groups[g].scope),
                         groups[g].actions[i];
    && at.Some? && BindingAt(bs, at.value).Some? && scoped.Some? && a.node in scoped.value.nodes
    && r.coordinate == ResumeInputAt(StableActivation(at.value, BindingAt(bs, at.value).value.state.superstep, a.node),
                                     scoped.value.nodes[a.node].descriptor)
    && r.value == a.value
  }

  /** The frames gain exactly the records of the answers. */
  ghost predicate FramesAnswered<V>(graph: Graph, bs: seq<Binding>, frames: Index<V>, groups: seq<ResumeGroup<V>>,
                                    after: Index<V>)
    requires bs != []
  {
    && after == frames.(resumes := after.resumes) && Canonical(after.resumes)
    && (forall r :: r in frames.resumes ==> r in after.resumes)
    && (forall g, i :: 0 <= g < |groups| && 0 <= i < |groups[g].actions| ==>
                         AnswerIn(graph, bs, groups, g, i, after.resumes))
    && (forall r :: r in after.resumes ==> r in frames.resumes || IsSomeAnswer(graph, bs, groups, r))
  }

  ghost predicate AnswerIn<V>(graph: Graph, bs: seq<Binding>, groups: seq<ResumeGroup<V>>, g: nat, i: nat,
                              resumes: seq<Record<V>>)
    requires bs != [] && g < |groups| && i < |groups[g].actions|
  {
    exists r :: r in resumes && IsAnswerRecord(graph, bs, groups, g, i, r)
  }

  ghost predicate IsSomeAnswer<V>(graph: Graph, bs: seq<Binding>, groups: seq<ResumeGroup<V>>, r: Record<V>)
    requires bs != []
  {
    exists g, i :: 0 <= g < |groups| && 0 <= i < |groups[g].actions| && IsAnswerRecord(graph, bs, groups, g, i, r)
  }

  /** One run with its answers: each answered node is pending with its own payload, the others are untouched. */
  ghost predicate StateAnswered<V>(s: State, actions: seq<RequestedAction<V>>, t: State) {
    && t == s.(frontier := t.frontier, revision := s.revision + 1) && |t.frontier| == |s.frontier|
    && (forall j, m :: 0 <= j < |s.frontier| && 0 <= m < |actions| && s.frontier[j].node == actions[m].node ==>
                         t.frontier[j] == FrontierNode(actions[m].node, Pending(Some(actions[m].payload))))
    && (forall j :: 0 <= j < |s.frontier| && !NamesNode(actions, s.frontier[j].node) ==> t.frontier[j] == s.frontier[j])
  }

  /** The runs the scopes reach have their answers, the others are untouched. */
  ghost predicate LineageAnswered<V>(graph: Graph, bs: seq<Binding>, groups: seq<ResumeGroup<V>>, after: seq<Binding>)
    requires bs != []
  {
    && |after| == |bs|
    && (forall k :: 0 <= k < |bs| ==> after[k].at == bs[k].at)
    && (forall k, g :: 0 <= k < |bs| && 0 <= g < |groups|
                       && Reach(graph, bs, groups, groups[g].scope) == Some(bs[k].at) ==>
                         StateAnswered(bs[k].state, groups[g].actions, after[k].state))
    && (forall k :: 0 <= k < |bs|
                    && (forall g :: 0 <= g < |groups| ==>
                                      Reach(graph, bs, groups, groups[g].scope) != Some(bs[k].at)) ==>
                      after[k] == bs[k])
  }

  lemma {:induction false} ResumedIsAnswered<V>(s: State, actions: seq<RequestedAction<V>>, t: State)
    requires Reduce(Some(s), CommandOf(s, actions)) == Some(t)
    ensures StateAnswered(s, actions, t)
  {
    ResumeFacts(s, CommandOf(s, actions).actions);
    ResumeAcceptedIff(s, actions);
    forall j, m | 0 <= j < |s.frontier| && 0 <= m < |actions| && s.frontier[j].node == actions[m].node
      ensures t.frontier[j] == FrontierNode(actions[m].node, Pending(Some(actions[m].payload)))
    {
      ActionOf(s, actions, m);
    }
    forall j | 0 <= j < |s.frontier| && !NamesNode(actions, s.frontier[j].node)
      ensures t.frontier[j] == s.frontier[j]
    {
      NotNamed(s, actions, s.frontier[j].node);
    }
  }

  lemma {:induction false} NotNamed<V>(s: State, actions: seq<RequestedAction<V>>, node: Text)
    requires !NamesNode(actions, node)
    ensures ActionFor(CommandOf(s, actions).actions, node).None?
  {
    var list := CommandOf(s, actions).actions;
    assert forall m :: 0 <= m < |list| ==> list[m].node == actions[m].node;
  }

  lemma {:induction false} LastTurn<V>(graph: Graph, bs: seq<Binding>, frames: Index<V>, groups: seq<ResumeGroup<V>>,
                                       i: nat,
                                       p: Progress<V>, q: Progress<V>)
    requires AtTurn(graph, bs, frames, groups, i, p) && PlanGroups(graph, p, groups[i..]) == Some(q)
    ensures AtTurn(graph, bs, frames, groups, |groups|, q)
    decreases |groups| - i
  {
    if i == |groups| {
      assert groups[i..] == [];
    } else {
      NextPlanned(graph, p, groups, i);
      NextTurn(graph, bs, frames, groups, i, p);
      LastTurn(graph, bs, frames, groups, i + 1, PlanGroup(graph, p, groups[i]).value, q);
    }
  }

  lemma {:induction false} TurnAnswers<V>(graph: Graph, bs: seq<Binding>, frames: Index<V>, groups: seq<ResumeGroup<V>>,
                                          p: Progress<V>,
                                          g: nat, i: nat)
    requires AtTurn(graph, bs, frames, groups, |groups|, p) && g < |groups| && i < |groups[g].actions|
    requires GroupFits(graph, bs, frames, groups, g)
    ensures |p.plans| == |groups| && i < |p.plans[g].inputs|
    ensures IsAnswerRecord(graph, bs, groups, g, i, p.plans[g].inputs[i])
  {
  }

  lemma {:induction false} FramesHoldAnswers<V>(graph: Graph, bs: seq<Binding>, frames: Index<V>,
                                                groups: seq<ResumeGroup<V>>, p: Progress<V>)
    requires AtTurn(graph, bs, frames, groups, |groups|, p)
    requires forall g :: 0 <= g < |groups| ==> GroupFits(graph, bs, frames, groups, g)
    ensures FramesAnswered(graph, bs, frames, groups, p.frames)
  {
    forall g, i | 0 <= g < |groups| && 0 <= i < |groups[g].actions|
      ensures AnswerIn(graph, bs, groups, g, i, p.frames.resumes)
    {
      TurnAnswers(graph, bs, frames, groups, p, g, i);
      assert p.plans[g].inputs[i] in p.plans[g].inputs;
    }
    forall r | r in p.frames.resumes && r !in frames.resumes
      ensures IsSomeAnswer(graph, bs, groups, r)
    {
      var g :| 0 <= g < |p.plans| && r in p.plans[g].inputs;
      var i :| 0 <= i < |p.plans[g].inputs| && p.plans[g].inputs[i] == r;
      TurnAnswers(graph, bs, frames, groups, p, g, i);
    }
  }

  lemma {:induction false} LineageHoldsAnswers<V>(graph: Graph, bs: seq<Binding>, frames: Index<V>,
                                                  groups: seq<ResumeGroup<V>>,
                                                  p: Progress<V>)
    requires AtTurn(graph, bs, frames, groups, |groups|, p)
    ensures bs != [] && LineageAnswered(graph, bs, groups, p.bindings)
  {
    assert |p.plans| == |groups|;
    forall k | 0 <= k < |bs|
      ensures p.bindings[k].at == bs[k].at
      ensures forall g :: 0 <= g < |groups| && Reach(graph, bs, groups, groups[g].scope) == Some(bs[k].at) ==>
                            StateAnswered(bs[k].state, groups[g].actions, p.bindings[k].state)
      ensures (forall g :: 0 <= g < |groups| ==> Reach(graph, bs, groups, groups[g].scope) != Some(bs[k].at)) ==>
                p.bindings[k] == bs[k]
    {
      BindingHoldsAnswers(graph, bs, frames, groups, p, k);
    }
  }

  lemma {:induction false} BindingHoldsAnswers<V>(graph: Graph, bs: seq<Binding>, frames: Index<V>,
                                                  groups: seq<ResumeGroup<V>>,
                                                  p: Progress<V>, k: nat)
    requires AtTurn(graph, bs, frames, groups, |groups|, p) && k < |bs|
    ensures |p.bindings| == |bs| && p.bindings[k].at == bs[k].at
    ensures forall g :: 0 <= g < |groups| && Reach(graph, bs, groups, groups[g].scope) == Some(bs[k].at) ==>
                          StateAnswered(bs[k].state, groups[g].actions, p.bindings[k].state)
    ensures (forall g :: 0 <= g < |groups| ==> Reach(graph, bs, groups, groups[g].scope) != Some(bs[k].at)) ==>
              p.bindings[k] == bs[k]
  {
    var q := PlanFor(p.plans, bs[k].at);
    PositionSpec(bs, k);
    if q.Some? {
      var j :| 0 <= j < |p.plans| && p.plans[j] == q.value;
      assert PlannedFrom(bs, frames, p.plans[j]);
      ResumedIsAnswered(bs[k].state, groups[j].actions, q.value.successor);
      forall g | 0 <= g < |groups| && Reach(graph, bs, groups, groups[g].scope) == Some(bs[k].at)
        ensures g == j
      {
        ReachIsBound(graph, bs, groups, groups[g].scope);
        ReachIsBound(graph, bs, groups, groups[j].scope);
        ScopePosition(groups, g, j);
      }
    } else {
      forall g | 0 <= g < |groups|
        ensures Reach(graph, bs, groups, groups[g].scope) != Some(bs[k].at)
      {
        assert p.plans[g] in p.plans;
      }
    }
  }

  /** What an accepted request plans: exactly its answers, each at the activation of its own node, and each
      answered node pending with its own payload. */
  lemma {:induction false} AcceptedIsAnswered<V>(graph: Graph, bs: seq<Binding>, frames: Index<V>,
                                                 groups: seq<ResumeGroup<V>>,
                                                 p: Progress<V>)
    requires CanonicalLineage(bs) && Canonical(frames.resumes) && Pairwise(ScopeLess, Scopes(groups))
    requires PlanGroups(graph, Progress(bs, frames, []), groups) == Some(p)
    ensures FramesAnswered(graph, bs, frames, groups, p.frames) && LineageAnswered(graph, bs, groups, p.bindings)
    ensures ResumePlan(bs, frames, Scopes(groups), p)
  {
    RequestAcceptedIff(graph, bs, frames, groups);
    FirstTurn(graph, bs, frames, groups);
    assert groups[0..] == groups && Scopes(groups)[..|groups|] == Scopes(groups);
    LastTurn(graph, bs, frames, groups, 0, Progress(bs, frames, []), p);
    FramesHoldAnswers(graph, bs, frames, groups, p);
    LineageHoldsAnswers(graph, bs, frames, groups, p);
  }

  lemma {:induction false} FirstTurn<V>(graph: Graph, bs: seq<Binding>, frames: Index<V>, groups: seq<ResumeGroup<V>>)
    requires CanonicalLineage(bs) && Canonical(frames.resumes) && Pairwise(ScopeLess, Scopes(groups))
    ensures AtTurn(graph, bs, frames, groups, 0, Progress(bs, frames, []))
  {
    EmptyPlan(bs, frames);
    assert Scopes(groups)[..0] == [];
  }

  /** The planning loop. It accepts exactly the canonical requests whose every scope fits the given lineage and
      frames, and then plans exactly the answers: every answered node is pending with its own payload, every
      answer is recorded at its own activation, and nothing else changes. */
  method PlanResumes<V>(graph: Graph, bs: seq<Binding>, frames: Index<V>, groups: seq<ResumeGroup<V>>)
    returns (r: Option<Progress<V>>)
    requires CanonicalLineage(bs) && Canonical(frames.resumes)
    ensures r == if Pairwise(ScopeLess, Scopes(groups)) then PlanGroups(graph, Progress(bs, frames, []), groups)
                 else None
    ensures r.Some? <==> Pairwise(ScopeLess, Scopes(groups))
                         && forall i :: 0 <= i < |groups| ==> GroupFits(graph, bs, frames, groups, i)
    ensures r.Some? ==> LineageAnswered(graph, bs, groups, r.value.bindings)
    ensures r.Some? ==> FramesAnswered(graph, bs, frames, groups, r.value.frames)
    ensures r.Some? ==> ResumePlan(bs, frames, Scopes(groups), r.value)
  {
    if !Pairwise(ScopeLess, Scopes(groups)) {
      return None;
    }
    RequestAcceptedIff(graph, bs, frames, groups);
    var p := Progress(bs, frames, []);
    var i := 0;
    assert groups[0..] == groups;
    while i < |groups|
      invariant 0 <= i <= |groups|
      invariant PlanGroups(graph, Progress(bs, frames, []), groups) == PlanGroups(graph, p, groups[i..])
    {
      NextPlanned(graph, p, groups, i);
      var next := PlanGroup(graph, p, groups[i]);
      if next.None? {
        return None;
      }
      p := next.value;
      i := i + 1;
    }
    assert groups[i..] == [];
    AcceptedIsAnswered(graph, bs, frames, groups, p);
    return Some(p);
  }

  /** A node that was answered and interrupts again in the same superstep: the continuation still holds the
      first answer at that activation, so no second answer is accepted. */
  lemma {:induction false} SecondAnswerIsRejected<V>(graph: Graph, bs: seq<Binding>, frames: Index<V>,
                                                     groups: seq<ResumeGroup<V>>,
                                                     i: nat, m: nat)
    requires CanonicalLineage(bs) && Canonical(frames.resumes) && Pairwise(ScopeLess, Scopes(groups))
    requires i < |groups| && m < |groups[i].actions|
    requires Reach(graph, bs, groups, groups[i].scope).Some? && GraphAt(graph, groups[i].scope).Some?
    requires var b := BindingAt(bs, Reach(graph, bs, groups, groups[i].scope).value);
             b.Some? && Has(frames.resumes,
                            AnswerKey(GraphAt(graph, groups[i].scope).value, b.value.at, b.value.state,
                                      groups[i].actions[m].node))
    ensures PlanGroups(graph, Progress(bs, frames, []), groups).None?
  {
    RequestAcceptedIff(graph, bs, frames, groups);
    assert !GroupFits(graph, bs, frames, groups, i);
  }
}
