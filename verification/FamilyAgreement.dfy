/** Plan and execution agree: every prefix of the admission walk executes, every planned commit
    happens exactly once, and the whole walk reaches exactly the planned lineage. */
module FamilyAgreement {
  import opened Sorted
  import opened FrameIndex
  import opened GraphState
  import opened Lineage
  import opened ScopedFrames
  import opened Resumption
  import opened FamilyPlan
  import opened FamilySteps

  /** One suspended graph family: the root state, the scoped evidence below it and its frames. */
  datatype Family<+V> = Family(graph: Graph, root: State, runs: seq<Evidence>, frames: Index<V>) {
    function RootAt(): (at: ScopeRun) { RootScopeRun(root.run) }

    function Children(): (cs: seq<Binding>) { BoundRuns(runs) }

    function Bindings(): (bs: seq<Binding>)
      ensures bs != []
    {
      [Binding(RootAt(), root)] + Children()
    }

    function Owner(): (owner: Coordinate -> Option<ScopeRun>)
      ensures forall c :: owner(c) == OwnerOf(Children(), c)
    {
      c => OwnerOf(Children(), c)
    }

    /** What `_frames_for_owner` selects. */
    function OwnerFrames(at: ScopeRun): (part: Index<V>) {
      Index(Select(frames.inputs, Owner(), at), Select(frames.publications, Owner(), at),
            Select(frames.resumes, Owner(), at), Select(frames.boundaries, Owner(), at))
    }

    /** The owner the walk builds for a scope before any commit. */
    function PartAt(at: ScopeRun): (part: Part<V>) {
      var b := BindingAt(Bindings(), at);
      Part(if b.Some? then b.value.state else root, OwnerFrames(at))
    }

    function Parts(): (parts: map<ScopeRun, Part<V>>) {
      map at | at in Ats(Bindings()) :: PartAt(at)
    }
  }

  /** Every record belongs to a bound scope. */
  ghost predicate Belong<V>(records: seq<Record<V>>, owner: Coordinate -> Option<ScopeRun>, ats: seq<ScopeRun>) {
    forall r :: r in records ==> owner(r.coordinate).Some? && owner(r.coordinate).value in ats
  }

  ghost predicate FramesBelong<V>(f: Family<V>) {
    && Belong(f.frames.inputs, f.Owner(), Ats(f.Bindings()))
    && Belong(f.frames.publications, f.Owner(), Ats(f.Bindings()))
    && Belong(f.frames.resumes, f.Owner(), Ats(f.Bindings()))
    && Belong(f.frames.boundaries, f.Owner(), Ats(f.Bindings()))
    && (forall r :: r in f.frames.boundaries ==> r.coordinate.ChildBoundaryAt?)
  }

  /** An admitted continuation, before planning. */
  ghost predicate Admitted<V>(f: Family<V>) {
    && LineageStates(f.root, f.runs).Some?
    && Plannable(f.graph, f.Bindings())
    && CanonicalIndex(f.frames)
    && FramesBelong(f)
  }

  ghost predicate PlanFacts<V>(f: Family<V>, scopes: seq<seq<Text>>, p: Progress<V>) {
    && Admitted(f)
    && Ascending(ScopeLess, scopes)
    && ResumePlan(FencedBindings(f.Bindings()), f.frames, scopes, p)
  }

  /** The fences and resumes planned for an admitted continuation. */
  ghost predicate Planned<V>(f: Family<V>, scopes: seq<seq<Text>>, p: Progress<V>) {
    forall s: Seal :: s.Broken() ==> PlanFacts(f, scopes, p)
  }

  lemma {:induction false} OpenPlan<V>(f: Family<V>, scopes: seq<seq<Text>>, p: Progress<V>)
    requires Planned(f, scopes, p)
    ensures PlanFacts(f, scopes, p)
  {
    assert Seal.Seal.Broken();
  }

  lemma {:induction false} PlanIsAdmitted<V>(f: Family<V>, scopes: seq<seq<Text>>, p: Progress<V>)
    requires Planned(f, scopes, p)
    ensures Admitted(f) && CanonicalLineage(f.Bindings())
  {
    OpenPlan(f, scopes, p);
    FamilyIsCanonical(f);
  }

  lemma {:induction false} PlanLineage<V>(f: Family<V>, scopes: seq<seq<Text>>, p: Progress<V>)
    requires Planned(f, scopes, p)
    ensures LineageStates(f.root, f.runs).Some? && CanonicalLineage(f.Bindings())
  {
    PlanIsAdmitted(f, scopes, p);
  }

  function PlanOf<V>(f: Family<V>, p: Progress<V>): (plan: Plan<V>) {
    Plan(FenceList(f.Bindings()), p.plans)
  }

  /** The commits of the whole walk, in order. */
  function Whole<V>(f: Family<V>, p: Progress<V>): (steps: seq<Step<V>>) {
    var bs := f.Bindings();
    Flatten(PlanOf(f, p), Visit(bs, bs[0]))
  }

  // ---- one scope -------------------------------------------------------------------------

  lemma {:induction false} FamilyIsCanonical<V>(f: Family<V>)
    requires LineageStates(f.root, f.runs).Some?
    ensures CanonicalLineage(f.Bindings())
    ensures Ats(f.Bindings()) == [f.RootAt()] + Ats(f.Children())
  {
    LineageIsCanonical(f.root, f.runs);
  }

  lemma {:induction false} FenceAtSpec(bs: seq<Binding>, i: nat)
    requires Ascending(ScopeRunLess, Ats(bs)) && i < |bs|
    ensures FenceAt(FenceList(bs), bs[i].at)
         == if bs[i].state.lease.Some? then Some(FenceFor(bs[i])) else None
  {
    FenceListMembers(bs);
    ScopeRunOrder();
    var fence := FenceAt(FenceList(bs), bs[i].at);
    if bs[i].state.lease.Some? {
      assert FenceFor(bs[i]) in FenceList(bs);
    }
    if fence.Some? {
      var j :| 0 <= j < |bs| && bs[j].state.lease.Some? && fence.value == FenceFor(bs[j]);
      AscendingDistinct(ScopeRunLess, Ats(bs), i, j);
    }
  }

  /** The planned resume of a scope executes there and reaches its admitted successor. */
  lemma {:induction false} ResumeExecutes<V>(fenced: seq<Binding>, frames: Index<V>, plan: PlannedResume<V>,
                                             part: Part<V>)
    requires PlannedFrom(fenced, frames, plan) && Canonical(part.frames.resumes)
    requires part.state == BindingAt(fenced, plan.at).value.state
    requires forall r :: r in part.frames.resumes ==> r in frames.resumes
    ensures ApplyStep(part, ResumeStep(plan)).Some?
    ensures ApplyStep(part, ResumeStep(plan)).value.state == plan.successor
    ensures part.state.status == Running && part.state.lease.None? && plan.successor.lease.None?
  {
    NewStaysNew(part.frames.resumes, frames.resumes, plan.inputs);
    InsertAllSpec(part.frames.resumes, plan.inputs);
    ResumeFacts(part.state, plan.command.actions);
  }

  lemma {:induction false} PlanAt<V>(fenced: seq<Binding>, frames: Index<V>, scopes: seq<seq<Text>>,
                                     plans: seq<PlannedResume<V>>, at: ScopeRun)
    requires PlansFor(fenced, frames, scopes, plans) && PlanFor(plans, at).Some?
    ensures PlannedFrom(fenced, frames, PlanFor(plans, at).value)
  {
    var i :| 0 <= i < |plans| && plans[i] == PlanFor(plans, at).value;
  }

  /** The fence of a scope executes and leaves the fenced state. */
  lemma {:induction false} FenceExecutes<V>(b: Binding, frames: Index<V>)
    requires Valid(b.state) && b.state.lease.Some?
    ensures ApplyStep(Part(b.state, frames), FenceStep(FenceFor(b))) == Some(Part(FencedState(b.state), frames))
  {
    FenceAlwaysAdmitted(b.state);
  }

  function FenceSteps<V>(b: Binding): (steps: seq<Step<V>>) {
    if b.state.lease.Some? then [FenceStep(FenceFor(b))] else []
  }

  lemma {:induction false} FencesExecute<V>(b: Binding, frames: Index<V>)
    requires Valid(b.state)
    ensures RunLocal(Part(b.state, frames), FenceSteps(b)) == Some(Part(FencedState(b.state), frames))
  {
    if b.state.lease.Some? {
      FenceExecutes(b, frames);
      RunLocalSnoc(Part(b.state, frames), [], FenceStep(FenceFor(b)));
      assert [] + [FenceStep(FenceFor(b))] == FenceSteps<V>(b);
    }
  }

  lemma {:induction false} StepsOf<V>(f: Family<V>, p: Progress<V>, i: nat)
    requires Ascending(ScopeRunLess, Ats(f.Bindings())) && i < |f.Bindings()|
    ensures var b, resume := f.Bindings()[i], PlanFor(p.plans, f.Bindings()[i].at);
            StepsAt(PlanOf(f, p), b.at) == FenceSteps(b) + (if resume.Some? then [ResumeStep(resume.value)] else [])
  {
    FenceAtSpec(f.Bindings(), i);
  }

  /** At its own scope the plan executes from the suspended state and reaches the planned one. */
  lemma {:induction false} LocalPlanExecutes<V>(f: Family<V>, scopes: seq<seq<Text>>, p: Progress<V>, i: nat)
    returns (after: Part<V>)
    requires Planned(f, scopes, p) && i < |f.Bindings()|
    ensures var b := f.Bindings()[i];
            && f.PartAt(b.at).state == b.state
            && RunLocal(f.PartAt(b.at), StepsAt(PlanOf(f, p), b.at)) == Some(after)
            && |p.bindings| == |f.Bindings()| && p.bindings[i] == Binding(b.at, after.state)
  {
    PlanIsAdmitted(f, scopes, p);
    var b := f.Bindings()[i];
    PositionSpec(f.Bindings(), i);
    StepsOf(f, p, i);
    AdmissibleIsValid(f.graph, f.Bindings(), b);
    FencesExecute(b, f.OwnerFrames(b.at));
    var fenced := Part(FencedState(b.state), f.OwnerFrames(b.at));
    var resume := PlanFor(p.plans, b.at);
    PlannedBinding(f, scopes, p, i);
    after := fenced;
    if resume.Some? {
      PlannedResumeExecutes(f, scopes, p, i, fenced);
      RunLocalSnoc(f.PartAt(b.at), FenceSteps(b), ResumeStep(resume.value));
      after := ApplyStep(fenced, ResumeStep(resume.value)).value;
    } else {
      assert FenceSteps<V>(b) + [] == FenceSteps<V>(b);
    }
  }

  lemma {:induction false} PlannedBinding<V>(f: Family<V>, scopes: seq<seq<Text>>, p: Progress<V>, i: nat)
    requires Planned(f, scopes, p) && i < |f.Bindings()|
    ensures |p.bindings| == |f.Bindings()|
    ensures var b, resume := f.Bindings()[i], PlanFor(p.plans, f.Bindings()[i].at);
            p.bindings[i] == Binding(b.at, if resume.Some? then resume.value.successor else FencedState(b.state))
  {
    OpenPlan(f, scopes, p);
    assert FencedBindings(f.Bindings())[i] == Binding(f.Bindings()[i].at, FencedState(f.Bindings()[i].state));
  }

  lemma {:induction false} PlannedResumeExecutes<V>(f: Family<V>, scopes: seq<seq<Text>>, p: Progress<V>, i: nat,
                                                    fenced: Part<V>)
    requires Planned(f, scopes, p) && i < |f.Bindings()| && PlanFor(p.plans, f.Bindings()[i].at).Some?
    requires fenced == Part(FencedState(f.Bindings()[i].state), f.OwnerFrames(f.Bindings()[i].at))
    ensures var resume := PlanFor(p.plans, f.Bindings()[i].at).value;
            ApplyStep(fenced, ResumeStep(resume)).Some?
            && ApplyStep(fenced, ResumeStep(resume)).value.state == resume.successor
  {
    OpenPlan(f, scopes, p);
    FamilyIsCanonical(f);
    var bs, at := FencedBindings(f.Bindings()), f.Bindings()[i].at;
    assert Ats(bs) == Ats(f.Bindings());
    PositionSpec(bs, i);
    PlanAt(bs, f.frames, scopes, p.plans, at);
    SelectIsOwned(f.frames.resumes, f.Owner(), at);
    ResumeExecutes(bs, f.frames, PlanFor(p.plans, at).value, fenced);
  }

  // ---- the whole walk --------------------------------------------------------------------

  lemma {:induction false} ResumedIsRunning<V>(f: Family<V>, scopes: seq<seq<Text>>, p: Progress<V>, i: nat)
    requires Planned(f, scopes, p) && i < |f.Bindings()| && PlanFor(p.plans, f.Bindings()[i].at).Some?
    ensures f.Bindings()[i].state.status == Running
  {
    OpenPlan(f, scopes, p);
    FamilyIsCanonical(f);
    var fenced, at := FencedBindings(f.Bindings()), f.Bindings()[i].at;
    PlanAt(fenced, f.frames, scopes, p.plans, at);
    assert Ats(fenced) == Ats(f.Bindings());
    PositionSpec(fenced, i);
    ResumeFacts(fenced[i].state, PlanFor(p.plans, at).value.command.actions);
  }

  lemma {:induction false} LeasedIsRunning(graph: Graph, bs: seq<Binding>, i: nat)
    requires Plannable(graph, bs) && i < |bs|
    ensures bs[i].state.lease.Some? ==> bs[i].state.status == Running
  {
    assert FenceAdmissible(graph, bs, bs[i]);
  }

  lemma {:induction false} RunningIsVisited(graph: Graph, bs: seq<Binding>, i: nat)
    requires CanonicalLineage(bs) && Plannable(graph, bs) && i < |bs| && bs[i].state.status == Running
    ensures Visits(Visit(bs, bs[0]), bs[i].at)
  {
    VisitReachesRunning(graph, bs, i);
    VisitsMember(Visit(bs, bs[0]), bs[i]);
  }

  lemma {:induction false} VisitsMember(vs: seq<Binding>, b: Binding)
    requires b in vs
    ensures Visits(vs, b.at)
  {
    var j :| 0 <= j < |vs| && vs[j] == b;
  }

  /** A scope the walk does not visit has nothing planned. */
  lemma {:induction false} UnvisitedIsUnplanned<V>(f: Family<V>, scopes: seq<seq<Text>>, p: Progress<V>, i: nat)
    requires Planned(f, scopes, p) && i < |f.Bindings()|
    requires !Visits(Visit(f.Bindings(), f.Bindings()[0]), f.Bindings()[i].at)
    ensures StepsAt(PlanOf(f, p), f.Bindings()[i].at) == []
  {
    PlanIsAdmitted(f, scopes, p);
    LeasedIsRunning(f.graph, f.Bindings(), i);
    if f.Bindings()[i].state.status == Running {
      RunningIsVisited(f.graph, f.Bindings(), i);
    }
    StepsOf(f, p, i);
    if PlanFor(p.plans, f.Bindings()[i].at).Some? {
      ResumedIsRunning(f, scopes, p, i);
    }
  }

  /** Exactly-once execution: at every scope, the commits of the walk are exactly the planned ones. */
  lemma {:induction false} WalkExecutesPlanExactlyOnce<V>(f: Family<V>, scopes: seq<seq<Text>>, p: Progress<V>, i: nat)
    requires Planned(f, scopes, p) && i < |f.Bindings()|
    ensures Project(Whole(f, p), f.Bindings()[i].at) == StepsAt(PlanOf(f, p), f.Bindings()[i].at)
  {
    PlanLineage(f, scopes, p);
    var bs := f.Bindings();
    var vs := Visit(bs, bs[0]);
    VisitDistinct(bs, bs[0]);
    ProjectFlatten(PlanOf(f, p), vs, bs[i].at);
    if !Visits(vs, bs[i].at) {
      UnvisitedIsUnplanned(f, scopes, p, i);
    }
  }

  lemma {:induction false} WalkStaysInFamily<V>(f: Family<V>, p: Progress<V>, s: Step<V>)
    requires LineageStates(f.root, f.runs).Some? && s in Whole(f, p)
    ensures s.At() in Ats(f.Bindings())
  {
    var bs := f.Bindings();
    var vs := Visit(bs, bs[0]);
    FlattenAts(PlanOf(f, p), vs, s);
    var i :| 0 <= i < |vs| && vs[i].at == s.At();
    VisitMembers(bs, bs[0]);
    assert vs[i] in vs;
    BoundIsListed(bs, vs[i]);
  }

  lemma {:induction false} BoundIsListed(bs: seq<Binding>, b: Binding)
    requires b in bs
    ensures b.at in Ats(bs)
  {
    var j :| 0 <= j < |bs| && bs[j] == b;
    assert Ats(bs)[j] == b.at;
  }

  /** No commit of the walk is planned twice: a planned fence or resume occurs exactly once. */
  lemma {:induction false} PlannedOccursOnce<V>(f: Family<V>, scopes: seq<seq<Text>>, p: Progress<V>, i: nat,
                                                s: Step<V>)
    requires Planned(f, scopes, p) && i < |f.Bindings()| && s.At() == f.Bindings()[i].at
    ensures multiset(Whole(f, p))[s]
         == if s in StepsAt(PlanOf(f, p), s.At()) then 1 else 0
  {
    WalkExecutesPlanExactlyOnce(f, scopes, p, i);
    ProjectCounts(Whole(f, p), s);
    OccursOnce(StepsAt(PlanOf(f, p), s.At()), s);
  }

  lemma {:induction false} OccursOnce<T>(s: seq<T>, x: T)
    requires |s| <= 2 && (|s| == 2 ==> s[0] != s[1])
    ensures multiset(s)[x] == if x in s then 1 else 0
  {
    if |s| == 2 {
      assert s == [s[0], s[1]];
    } else if |s| == 1 {
      assert s == [s[0]];
    }
  }

  lemma {:induction false} PrefixMembers<T>(s: seq<T>, k: nat, x: T)
    requires k <= |s| && x in s[..k]
    ensures x in s
  {
  }

  /** Every prefix of the walk executes: no commit is rejected by the reducer, no input collides and
      the admitted-successor check never fires. */
  lemma {:induction false} EveryPrefixExecutes<V>(f: Family<V>, scopes: seq<seq<Text>>, p: Progress<V>, k: nat)
    returns (after: map<ScopeRun, Part<V>>)
    requires Planned(f, scopes, p) && k <= |Whole(f, p)|
    ensures RunSteps(f.Parts(), Whole(f, p)[..k]) == Some(after) && after.Keys == f.Parts().Keys
    ensures forall at :: at in Ats(f.Bindings()) ==>
                           at in after && RunLocal(f.PartAt(at), Project(Whole(f, p)[..k], at)) == Some(after[at])
  {
    PlanLineage(f, scopes, p);
    var steps := Whole(f, p)[..k];
    forall s | s in steps
      ensures s.At() in f.Parts()
    {
      PrefixMembers(Whole(f, p), k, s);
      WalkStaysInFamily(f, p, s);
    }
    forall at | at in f.Parts()
      ensures RunLocal(f.Parts()[at], Project(steps, at)).Some?
    {
      PrefixExecutesAt(f, scopes, p, k, at);
    }
    after := ScopesAreIndependent(f.Parts(), steps);
  }

  lemma {:induction false} RunLocalUpTo<V>(part: Part<V>, steps: seq<Step<V>>, done: seq<Step<V>>)
    requires done <= steps && RunLocal(part, steps).Some?
    ensures RunLocal(part, done).Some?
  {
    RunLocalPrefix(part, steps, |done|);
    assert steps[..|done|] == done;
  }

  lemma {:induction false} PrefixExecutesAt<V>(f: Family<V>, scopes: seq<seq<Text>>, p: Progress<V>, k: nat,
                                               at: ScopeRun)
    requires Planned(f, scopes, p) && k <= |Whole(f, p)| && at in Ats(f.Bindings())
    ensures RunLocal(f.PartAt(at), Project(Whole(f, p)[..k], at)).Some?
  {
    var i :| 0 <= i < |Ats(f.Bindings())| && Ats(f.Bindings())[i] == at;
    var own := StepsAt(PlanOf(f, p), at);
    var _ := LocalPlanExecutes(f, scopes, p, i);
    WalkExecutesPlanExactlyOnce(f, scopes, p, i);
    PrefixProjection(Whole(f, p), k, at);
    RunLocalUpTo(f.PartAt(at), own, Project(Whole(f, p)[..k], at));
  }

  lemma {:induction false} ReachesPlannedState<V>(f: Family<V>, scopes: seq<seq<Text>>, p: Progress<V>, i: nat,
                                                  after: Part<V>)
    requires Planned(f, scopes, p) && i < |f.Bindings()|
    requires RunLocal(f.PartAt(f.Bindings()[i].at), Project(Whole(f, p), f.Bindings()[i].at)) == Some(after)
    ensures |p.bindings| == |f.Bindings()| && p.bindings[i] == Binding(f.Bindings()[i].at, after.state)
  {
    var _ := LocalPlanExecutes(f, scopes, p, i);
    WalkExecutesPlanExactlyOnce(f, scopes, p, i);
  }

  function StatesOf<V>(bs: seq<Binding>, parts: map<ScopeRun, Part<V>>): (r: seq<Binding>)
    ensures |r| == |bs|
    ensures forall i :: 0 <= i < |bs| ==>
                          r[i] == if bs[i].at in parts then Binding(bs[i].at, parts[bs[i].at].state) else bs[i]
  {
    seq(|bs|, i requires 0 <= i < |bs| => if bs[i].at in parts then Binding(bs[i].at, parts[bs[i].at].state) else bs[i])
  }

  /** The whole walk reaches exactly the planned lineage. */
  lemma {:induction false} WalkReachesPlannedLineage<V>(f: Family<V>, scopes: seq<seq<Text>>, p: Progress<V>)
    returns (after: map<ScopeRun, Part<V>>)
    requires Planned(f, scopes, p)
    ensures RunSteps(f.Parts(), Whole(f, p)) == Some(after)
    ensures StatesOf(f.Bindings(), after) == p.bindings
  {
    var steps, bs := Whole(f, p), f.Bindings();
    after := EveryPrefixExecutes(f, scopes, p, |steps|);
    assert steps[..|steps|] == steps;
    forall i | 0 <= i < |bs|
      ensures |p.bindings| == |bs| && StatesOf(bs, after)[i] == p.bindings[i]
    {
      assert Ats(bs)[i] in Ats(bs);
      ReachesPlannedState(f, scopes, p, i, after[bs[i].at]);
    }
  }
}
