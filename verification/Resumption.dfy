/** Planning of node resumes over a fenced lineage. */
module Resumption {
  import opened Sorted
  import opened FrameIndex
  import opened GraphState
  import opened Lineage
  import opened ScopedFrames

  /** One requested answer: the interrupt it names, its encoded payload and the admitted input frame. */
  datatype RequestedAction<+V> = RequestedAction(node: Text, interruptId: Text, payload: Text, value: V)

  /** The answers addressed to one scope. */
  datatype ResumeGroup<+V> = ResumeGroup(scope: seq<Text>, actions: seq<RequestedAction<V>>)

  datatype PlannedResume<+V> = PlannedResume(at: ScopeRun, successor: State, command: Command, inputs: seq<Record<V>>)

  function CommandOf<V>(s: State, actions: seq<RequestedAction<V>>): (c: Command) {
    Resume(s.revision, seq(|actions|, i requires 0 <= i < |actions| =>
             ResumeAction(actions[i].node, actions[i].interruptId, actions[i].payload)))
  }

  /** Where the answer of a node is recorded: its activation and the frame its node takes. */
  function AnswerKey(graph: Graph, at: ScopeRun, s: State, node: Text): (c: Coordinate) {
    ResumeInputAt(StableActivation(at, s.superstep, node), if node in graph.nodes then graph.nodes[node].descriptor
                  else 0)
  }

  /** Every action names a node of the graph that takes no input from a predecessor. */
  predicate Overridable<V>(graph: Graph, actions: seq<RequestedAction<V>>) {
    forall i :: 0 <= i < |actions| ==> actions[i].node in graph.nodes && !graph.nodes[actions[i].node].predecessorBound
  }

  function InputsOf<V>(graph: Graph, at: ScopeRun, s: State, actions: seq<RequestedAction<V>>): (inputs: seq<Record<V>>)
    ensures |inputs| == |actions|
    ensures forall i :: 0 <= i < |inputs| ==>
                          && inputs[i].coordinate.ResumeInputAt?
                          && inputs[i].coordinate.activation == StableActivation(at, s.superstep, actions[i].node)
  {
    seq(|actions|, i requires 0 <= i < |actions| =>
      Record(AnswerKey(graph, at, s, actions[i].node), actions[i].value))
  }

  // ---- resolving a scope -----------------------------------------------------------------

  function ResolveFrom(graph: Graph, bs: seq<Binding>, at: ScopeRun, scope: seq<Text>): (r: Option<ScopeRun>)
    decreases scope
  {
    if scope == [] then Some(at)
    else
      match BindingAt(bs, at)
      case None => None
      case Some(b) =>
        if scope[0] !in graph.nested || !IsPending(b.state.frontier, scope[0]) then None
        else
          var child := ChildScopeRun(at, b.state.superstep, scope[0]);
          if BindingAt(bs, child).None? then None
          else ResolveFrom(graph.nested[scope[0]], bs, child, scope[1..])
  }

  function ResolveScope(graph: Graph, bs: seq<Binding>, scope: seq<Text>): (r: Option<ScopeRun>) {
    if bs == [] then None else ResolveFrom(graph, bs, bs[0].at, scope)
  }

  lemma {:induction false} ResolvedScope(graph: Graph, bs: seq<Binding>, at: ScopeRun, scope: seq<Text>)
    requires ResolveFrom(graph, bs, at, scope).Some? && BindingAt(bs, at).Some?
    ensures var r := ResolveFrom(graph, bs, at, scope).value;
            r.scope == at.scope + scope && BindingAt(bs, r).Some?
    decreases scope
  {
    if scope != [] {
      var child := ChildScopeRun(at, BindingAt(bs, at).value.state.superstep, scope[0]);
      ResolvedScope(graph.nested[scope[0]], bs, child, scope[1..]);
      ConsConcat(at.scope, scope);
    }
  }

  lemma {:induction false} ConsConcat<T>(a: seq<T>, b: seq<T>)
    requires b != []
    ensures a + [b[0]] + b[1..] == a + b
  {
  }

  // ---- the planning loop -----------------------------------------------------------------

  datatype Progress<+V> = Progress(bindings: seq<Binding>, frames: Index<V>, plans: seq<PlannedResume<V>>)

  /** Plan the answers of one scope against the lineage and frames planned so far. */
  function PlanGroup<V>(graph: Graph, p: Progress<V>, group: ResumeGroup<V>): (r: Option<Progress<V>>) {
    match ResolveScope(graph, p.bindings, group.scope)
    case None => None
    case Some(at) =>
      var b, scoped := BindingAt(p.bindings, at), GraphAt(graph, at.scope);
      if b.None? || scoped.None? then None else PlanBinding(scoped.value, p, b.value, group.actions)
  }

  /** `prepare_resume` of one run, and what planning makes of it. */
  function PlanBinding<V>(scoped: Graph, p: Progress<V>, b: Binding,
                          actions: seq<RequestedAction<V>>): (r: Option<Progress<V>>) {
    var command, inputs := CommandOf(b.state, actions), InputsOf(scoped, b.at, b.state, actions);
    if !SnapshotMatches(scoped, b) || !Overridable(scoped, actions) then None
    else
      match Reduce(Some(b.state), command)
      case None => None
      case Some(candidate) =>
        match InsertAll(p.frames.resumes, inputs)
        case None => None
        case Some(resumes) =>
          match Replace(p.bindings, Binding(b.at, candidate))
          case None => None
          case Some(bindings) =>
            Some(Progress(bindings, p.frames.(resumes := resumes),
                          p.plans + [PlannedResume(b.at, candidate, command, inputs)]))
  }

  /** Plan the scopes one after the other; the first one that cannot be planned fails the whole. */
  function PlanGroups<V>(graph: Graph, p: Progress<V>, groups: seq<ResumeGroup<V>>): (r: Option<Progress<V>>)
    decreases groups
  {
    if groups == [] then Some(p)
    else
      match PlanGroup(graph, p, groups[0])
      case None => None
      case Some(next) => PlanGroups(graph, next, groups[1..])
  }

  function Scopes<V>(groups: seq<ResumeGroup<V>>): (scopes: seq<seq<Text>>)
    ensures |scopes| == |groups| && forall i :: 0 <= i < |groups| ==> scopes[i] == groups[i].scope
  {
    seq(|groups|, i requires 0 <= i < |groups| => groups[i].scope)
  }

  /** The plan for a given one of the planned scopes. */
  function PlanFor<V>(plans: seq<PlannedResume<V>>, at: ScopeRun): (p: Option<PlannedResume<V>>)
    ensures p.Some? ==> p.value in plans && p.value.at == at
    ensures p.None? ==> forall q :: q in plans ==> q.at != at
  {
    if plans == [] then None
    else
      var n := |plans| - 1;
      if plans[n].at == at then Some(plans[n])
      else
        assert plans == plans[..n] + [plans[n]];
        PlanFor(plans[..n], at)
  }

  function ResumedState<V>(b: Binding, plans: seq<PlannedResume<V>>): (s: State) {
    match PlanFor(plans, b.at)
    case None => b.state
    case Some(p) => p.successor
  }

  /** A plan is a valid reducer step from the given lineage, with inputs of its own scope only. */
  ghost predicate PlannedFrom<V>(bs: seq<Binding>, frames: Index<V>, p: PlannedResume<V>) {
    && BindingAt(bs, p.at).Some?
    && Reduce(Some(BindingAt(bs, p.at).value.state), p.command) == Some(p.successor)
    && p.command.Resume? && p.command.expected == BindingAt(bs, p.at).value.state.revision
    && (forall r :: r in p.inputs ==> r.coordinate.ResumeInputAt? && r.coordinate.activation.at == p.at)
    && DistinctKeys(p.inputs) && AllNew(frames.resumes, p.inputs)
  }

  ghost predicate InSomePlan<V>(plans: seq<PlannedResume<V>>, r: Record<V>) {
    exists i :: 0 <= i < |plans| && r in plans[i].inputs
  }

  ghost predicate PlansFor<V>(bs: seq<Binding>, frames: Index<V>, scopes: seq<seq<Text>>,
                              plans: seq<PlannedResume<V>>) {
    && |plans| == |scopes|
    && (forall i :: 0 <= i < |scopes| ==> plans[i].at.scope == scopes[i])
    && (forall i :: 0 <= i < |plans| ==> PlannedFrom(bs, frames, plans[i]))
  }

  ghost predicate ResumedLineage<V>(bs: seq<Binding>, plans: seq<PlannedResume<V>>, after: seq<Binding>) {
    && |after| == |bs|
    && (forall i :: 0 <= i < |bs| ==> after[i] == Binding(bs[i].at, ResumedState(bs[i], plans)))
  }

  ghost predicate ResumedFrames<V>(frames: Index<V>, plans: seq<PlannedResume<V>>, after: Index<V>) {
    && after == frames.(resumes := after.resumes)
    && Canonical(after.resumes)
    && (forall r :: r in after.resumes ==> r in frames.resumes || InSomePlan(plans, r))
    && (forall r :: r in frames.resumes ==> r in after.resumes)
    && (forall i, r :: 0 <= i < |plans| && r in plans[i].inputs ==> r in after.resumes)
  }

  /** What a finished resume plan promises about the lineage and frames it started from. */
  ghost predicate ResumePlan<V>(bs: seq<Binding>, frames: Index<V>, scopes: seq<seq<Text>>, p: Progress<V>) {
    && PlansFor(bs, frames, scopes, p.plans)
    && ResumedLineage(bs, p.plans, p.bindings)
    && ResumedFrames(frames, p.plans, p.frames)
  }

  lemma {:induction false} InSomePlanSnoc<V>(plans: seq<PlannedResume<V>>, q: PlannedResume<V>, r: Record<V>)
    ensures InSomePlan(plans + [q], r) <==> InSomePlan(plans, r) || r in q.inputs
  {
    if InSomePlan(plans, r) {
      var i :| 0 <= i < |plans| && r in plans[i].inputs;
      assert r in (plans + [q])[i].inputs;
    }
    if r in q.inputs {
      assert (plans + [q])[|plans|] == q;
    }
  }

  /** A planned group replaces one binding and appends one plan for its own scope. */
  lemma {:induction false} PlanGroupShape<V>(graph: Graph, p: Progress<V>, group: ResumeGroup<V>)
    returns (k: nat, plan: PlannedResume<V>)
    requires p.bindings != [] && Ascending(ScopeRunLess, Ats(p.bindings)) && p.bindings[0].at.scope == []
    requires PlanGroup(graph, p, group).Some?
    ensures k < |p.bindings| && plan.at == p.bindings[k].at && plan.at.scope == group.scope
    ensures Reduce(Some(p.bindings[k].state), plan.command) == Some(plan.successor)
    ensures plan.command.Resume? && plan.command.expected == p.bindings[k].state.revision
    ensures forall r :: r in plan.inputs ==> r.coordinate.ResumeInputAt? && r.coordinate.activation.at == plan.at
    ensures InsertAll(p.frames.resumes, plan.inputs).Some?
    ensures PlanGroup(graph, p, group).value
         == Progress(p.bindings[k := Binding(plan.at, plan.successor)],
                     p.frames.(resumes := InsertAll(p.frames.resumes, plan.inputs).value),
                     p.plans + [plan])
  {
    var at := ResolveScope(graph, p.bindings, group.scope).value;
    PositionSpec(p.bindings, 0);
    ResolvedScope(graph, p.bindings, p.bindings[0].at, group.scope);
    assert [] + group.scope == group.scope;
    k := Position(p.bindings, at).value;
    plan := PlanGroup(graph, p, group).value.plans[|p.plans|];
    ReplaceSpec(p.bindings, k, Binding(at, plan.successor));
  }

  /** One more group extends the plan. */
  lemma {:induction false} PlanGroupExtends<V>(graph: Graph, bs: seq<Binding>, frames: Index<V>, scopes: seq<seq<Text>>,
                                               p: Progress<V>, group: ResumeGroup<V>)
    requires CanonicalLineage(bs) && ResumePlan(bs, frames, scopes, p)
    requires group.scope !in scopes && PlanGroup(graph, p, group).Some?
    ensures ResumePlan(bs, frames, scopes + [group.scope], PlanGroup(graph, p, group).value)
  {
    assert Ats(p.bindings) == Ats(bs);
    var k, plan := PlanGroupShape(graph, p, group);
    NoEarlierPlan(scopes, p.plans, plan.at);
    PlanExtends(bs, frames, scopes, p, k, plan);
  }

  lemma {:induction false} NoEarlierPlan<V>(scopes: seq<seq<Text>>, plans: seq<PlannedResume<V>>, at: ScopeRun)
    requires |plans| == |scopes| && forall i :: 0 <= i < |scopes| ==> plans[i].at.scope == scopes[i]
    requires at.scope !in scopes
    ensures PlanFor(plans, at).None?
  {
    forall i | 0 <= i < |plans|
      ensures plans[i].at != at
    {
      assert scopes[i] in scopes;
    }
  }

  lemma {:induction false} PlanExtends<V>(bs: seq<Binding>, frames: Index<V>, scopes: seq<seq<Text>>, p: Progress<V>,
                                          k: nat, plan: PlannedResume<V>)
    requires CanonicalLineage(bs) && ResumePlan(bs, frames, scopes, p) && k < |bs|
    requires plan.at == bs[k].at && PlanFor(p.plans, plan.at).None?
    requires Reduce(Some(p.bindings[k].state), plan.command) == Some(plan.successor)
    requires plan.command.Resume? && plan.command.expected == p.bindings[k].state.revision
    requires forall r :: r in plan.inputs ==> r.coordinate.ResumeInputAt? && r.coordinate.activation.at == plan.at
    requires InsertAll(p.frames.resumes, plan.inputs).Some?
    ensures ResumePlan(bs, frames, scopes + [plan.at.scope],
                       Progress(p.bindings[k := Binding(plan.at, plan.successor)],
                                p.frames.(resumes := InsertAll(p.frames.resumes, plan.inputs).value),
                                p.plans + [plan]))
  {
    FramesExtend(frames, p.plans, p.frames, plan);
    PositionSpec(bs, k);
    assert PlannedFrom(bs, frames, plan);
    PlansExtend(bs, frames, scopes, p.plans, plan);
    ExtendedStates(bs, p.plans, plan, k, p.bindings[k := Binding(plan.at, plan.successor)], p.bindings);
  }

  lemma {:induction false} PlansExtend<V>(bs: seq<Binding>, frames: Index<V>, scopes: seq<seq<Text>>,
                                          plans: seq<PlannedResume<V>>, plan: PlannedResume<V>)
    requires PlansFor(bs, frames, scopes, plans) && PlannedFrom(bs, frames, plan)
    ensures PlansFor(bs, frames, scopes + [plan.at.scope], plans + [plan])
  {
    var all := plans + [plan];
    forall i | 0 <= i < |all|
      ensures PlannedFrom(bs, frames, all[i])
    {
      assert all[i] == if i < |plans| then plans[i] else plan;
    }
  }

  lemma {:induction false} FramesExtend<V>(frames: Index<V>, plans: seq<PlannedResume<V>>, after: Index<V>,
                                           plan: PlannedResume<V>)
    requires ResumedFrames(frames, plans, after) && InsertAll(after.resumes, plan.inputs).Some?
    ensures ResumedFrames(frames, plans + [plan], after.(resumes := InsertAll(after.resumes, plan.inputs).value))
    ensures DistinctKeys(plan.inputs) && AllNew(frames.resumes, plan.inputs)
  {
    var resumes := InsertedMembers(after.resumes, plan.inputs);
    NewStaysNew(frames.resumes, after.resumes, plan.inputs);
    forall r | r in resumes
      ensures r in frames.resumes || InSomePlan(plans + [plan], r)
    {
      InSomePlanSnoc(plans, plan, r);
    }
    var all := plans + [plan];
    forall i, r | 0 <= i < |all| && r in all[i].inputs
      ensures r in resumes
    {
      assert all[i] == if i < |plans| then plans[i] else plan;
    }
  }

  lemma {:induction false} NewStaysNew<V>(small: seq<Record<V>>, large: seq<Record<V>>, more: seq<Record<V>>)
    requires (forall r :: r in small ==> r in large) && AllNew(large, more)
    ensures AllNew(small, more)
  {
    forall i | 0 <= i < |more|
      ensures !Has(small, more[i].coordinate)
    {
      HasMembers(small, more[i].coordinate);
      HasMembers(large, more[i].coordinate);
    }
  }

  lemma {:induction false} ExtendedStates<V>(bs: seq<Binding>, plans: seq<PlannedResume<V>>, plan: PlannedResume<V>,
                                             k: nat,
                                             after: seq<Binding>, before: seq<Binding>)
    requires Ascending(ScopeRunLess, Ats(bs)) && k < |bs| == |before| && plan.at == bs[k].at
    requires forall i :: 0 <= i < |bs| ==> before[i] == Binding(bs[i].at, ResumedState(bs[i], plans))
    requires after == before[k := Binding(plan.at, plan.successor)]
    ensures forall i :: 0 <= i < |bs| ==> after[i] == Binding(bs[i].at, ResumedState(bs[i], plans + [plan]))
  {
    assert (plans + [plan])[..|plans|] == plans;
    forall i | 0 <= i < |bs|
      ensures after[i] == Binding(bs[i].at, ResumedState(bs[i], plans + [plan]))
    {
      if bs[i].at == plan.at {
        ScopeRunOrder();
        AscendingDistinct(ScopeRunLess, Ats(bs), i, k);
      }
    }
  }

  lemma {:induction false} EmptyPlan<V>(bs: seq<Binding>, frames: Index<V>)
    requires CanonicalLineage(bs) && Canonical(frames.resumes)
    ensures ResumePlan(bs, frames, [], Progress(bs, frames, []))
  {
  }

  lemma {:induction false} NextGroup<V>(graph: Graph, bs: seq<Binding>, frames: Index<V>, groups: seq<ResumeGroup<V>>,
                                        i: nat, p: Progress<V>)
    requires CanonicalLineage(bs) && Pairwise(ScopeLess, Scopes(groups)) && i < |groups|
    requires ResumePlan(bs, frames, Scopes(groups)[..i], p) && PlanGroup(graph, p, groups[i]).Some?
    ensures ResumePlan(bs, frames, Scopes(groups)[..i + 1], PlanGroup(graph, p, groups[i]).value)
  {
    NewScope(groups, i);
    ScopesSnoc(groups, i);
    PlanGroupExtends(graph, bs, frames, Scopes(groups)[..i], p, groups[i]);
  }

  lemma {:induction false} ScopesSnoc<V>(groups: seq<ResumeGroup<V>>, i: nat)
    requires i < |groups|
    ensures Scopes(groups)[..i + 1] == Scopes(groups)[..i] + [groups[i].scope]
  {
  }

  lemma {:induction false} NewScope<V>(groups: seq<ResumeGroup<V>>, i: nat)
    requires Pairwise(ScopeLess, Scopes(groups)) && i < |groups|
    ensures groups[i].scope !in Scopes(groups)[..i]
  {
    ScopeOrder();
    PairwiseIsAscending(ScopeLess, Scopes(groups));
    forall j | 0 <= j < i
      ensures Scopes(groups)[j] != groups[i].scope
    {
      assert ScopeLess(Scopes(groups)[j], Scopes(groups)[i]);
    }
  }
}
