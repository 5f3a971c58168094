/** The commits of one admission walk, and why scopes can be reasoned about one at a time. */
module FamilySteps {
  import opened FrameIndex
  import opened GraphState
  import opened Lineage
  import opened ScopedFrames
  import opened Resumption
  import opened FamilyPlan

  /** What one scoped owner holds. */
  datatype Part<+V> = Part(state: State, frames: Index<V>)

  /** One planned commit. */
  datatype Step<+V> = FenceStep(fence: PlannedFence) | ResumeStep(resume: PlannedResume<V>) {
    function At(): (at: ScopeRun) {
      match this
      case FenceStep(f) => f.at
      case ResumeStep(p) => p.at
    }

    function Inputs(): (inputs: seq<Record<V>>) {
      match this
      case FenceStep(_) => []
      case ResumeStep(p) => p.inputs
    }
  }

  datatype Plan<+V> = Plan(fences: seq<PlannedFence>, resumes: seq<PlannedResume<V>>)

  /** The fence planned for a scope. */
  function FenceAt(fences: seq<PlannedFence>, at: ScopeRun): (f: Option<PlannedFence>)
    ensures f.Some? ==> f.value in fences && f.value.at == at
    ensures f.None? ==> forall g :: g in fences ==> g.at != at
  {
    if fences == [] then None
    else
      var n := |fences| - 1;
      if fences[n].at == at then Some(fences[n])
      else
        assert fences == fences[..n] + [fences[n]];
        FenceAt(fences[..n], at)
  }

  /** The commits of one scope: its fence first, then its resume. */
  function StepsAt<V>(plan: Plan<V>, at: ScopeRun): (steps: seq<Step<V>>)
    ensures forall s :: s in steps ==> s.At() == at
  {
    var fence, resume := FenceAt(plan.fences, at), PlanFor(plan.resumes, at);
    (if fence.Some? then [FenceStep(fence.value)] else []) + (if resume.Some? then [ResumeStep(resume.value)] else [])
  }

  /** The commits of the scopes visited, in order. */
  function Flatten<V>(plan: Plan<V>, vs: seq<Binding>): (steps: seq<Step<V>>) {
    if vs == [] then []
    else
      var n := |vs| - 1;
      Flatten(plan, vs[..n]) + StepsAt(plan, vs[n].at)
  }

  lemma {:induction false} Associative<T>(a: seq<T>, b: seq<T>, c: seq<T>)
    ensures a + b + c == a + (b + c)
  {
  }

  lemma {:induction false} FlattenSnoc<V>(plan: Plan<V>, a: seq<Binding>, b: Binding)
    ensures Flatten(plan, a + [b]) == Flatten(plan, a) + StepsAt(plan, b.at)
  {
    assert (a + [b])[..|a|] == a;
  }

  lemma {:induction false} FlattenConcat<V>(plan: Plan<V>, a: seq<Binding>, b: seq<Binding>)
    ensures Flatten(plan, a + b) == Flatten(plan, a) + Flatten(plan, b)
  {
    if b == [] {
      assert a + b == a;
    } else {
      var n := |b| - 1;
      FlattenConcat(plan, a, b[..n]);
      FlattenSnoc(plan, a + b[..n], b[n]);
      assert a + b == a + b[..n] + [b[n]];
      Associative(Flatten(plan, a), Flatten(plan, b[..n]), StepsAt(plan, b[n].at));
    }
  }

  // ---- executing steps -------------------------------------------------------------------

  /** One commit of one owner. A resume stages its inputs and must reach its admitted successor. */
  function ApplyStep<V>(part: Part<V>, step: Step<V>): (r: Option<Part<V>>) {
    match step
    case FenceStep(f) =>
      (match Reduce(Some(part.state), f.command)
       case None => None
       case Some(t) => Some(Part(t, part.frames)))
    case ResumeStep(p) =>
      match InsertAll(part.frames.resumes, p.inputs)
      case None => None
      case Some(resumes) =>
        if Reduce(Some(part.state), p.command) != Some(p.successor) then None
        else Some(Part(p.successor, part.frames.(resumes := resumes)))
  }

  function RunLocal<V>(part: Part<V>, steps: seq<Step<V>>): (r: Option<Part<V>>) {
    if steps == [] then Some(part)
    else
      var n := |steps| - 1;
      match RunLocal(part, steps[..n])
      case None => None
      case Some(p) => ApplyStep(p, steps[n])
  }

  /** Executing commits of many owners in sequence. */
  function RunSteps<V>(parts: map<ScopeRun, Part<V>>, steps: seq<Step<V>>): (r: Option<map<ScopeRun, Part<V>>>) {
    if steps == [] then Some(parts)
    else
      var n := |steps| - 1;
      match RunSteps(parts, steps[..n])
      case None => None
      case Some(now) =>
        var at := steps[n].At();
        if at !in now then None
        else
          match ApplyStep(now[at], steps[n])
          case None => None
          case Some(p) => Some(now[at := p])
  }

  /** The commits of one scope within a sequence of commits. */
  function Project<V>(steps: seq<Step<V>>, at: ScopeRun): (own: seq<Step<V>>) {
    if steps == [] then []
    else
      var n := |steps| - 1;
      Project(steps[..n], at) + (if steps[n].At() == at then [steps[n]] else [])
  }

  lemma {:induction false} ProjectMembers<V>(steps: seq<Step<V>>, at: ScopeRun, s: Step<V>)
    ensures s in Project(steps, at) <==> s in steps && s.At() == at
  {
    if steps != [] {
      var n := |steps| - 1;
      assert steps == steps[..n] + [steps[n]];
      ProjectMembers(steps[..n], at, s);
    }
  }

  lemma {:induction false} ProjectConcat<V>(a: seq<Step<V>>, b: seq<Step<V>>, at: ScopeRun)
    ensures Project(a + b, at) == Project(a, at) + Project(b, at)
  {
    if b == [] {
      assert a + b == a;
    } else {
      var n := |b| - 1;
      ProjectConcat(a, b[..n], at);
      assert (a + b)[..|a + b| - 1] == a + b[..n];
    }
  }

  lemma {:induction false} ProjectOwn<V>(steps: seq<Step<V>>, at: ScopeRun)
    ensures (forall s :: s in steps ==> s.At() == at) ==> Project(steps, at) == steps
    ensures (forall s :: s in steps ==> s.At() != at) ==> Project(steps, at) == []
  {
    if steps != [] {
      var n := |steps| - 1;
      assert steps == steps[..n] + [steps[n]];
      ProjectOwn(steps[..n], at);
    }
  }

  /** A projection keeps how often each commit of its scope occurs. */
  lemma {:induction false} ProjectCounts<V>(steps: seq<Step<V>>, s: Step<V>)
    ensures multiset(Project(steps, s.At()))[s] == multiset(steps)[s]
  {
    if steps != [] {
      var n := |steps| - 1;
      assert steps == steps[..n] + [steps[n]];
      ProjectCounts(steps[..n], s);
    }
  }

  /** The commits of a prefix at one scope are a prefix of its commits. */
  lemma {:induction false} PrefixProjection<V>(steps: seq<Step<V>>, k: nat, at: ScopeRun)
    requires k <= |steps|
    ensures Project(steps[..k], at) <= Project(steps, at)
  {
    assert steps == steps[..k] + steps[k..];
    ProjectConcat(steps[..k], steps[k..], at);
  }

  lemma {:induction false} RunLocalPrefix<V>(part: Part<V>, steps: seq<Step<V>>, k: nat)
    requires k <= |steps| && RunLocal(part, steps).Some?
    ensures RunLocal(part, steps[..k]).Some?
  {
    if k == |steps| {
      assert steps[..k] == steps;
    } else {
      var n := |steps| - 1;
      RunLocalPrefix(part, steps[..n], k);
      assert steps[..n][..k] == steps[..k];
    }
  }

  lemma {:induction false} RunLocalSnoc<V>(part: Part<V>, front: seq<Step<V>>, last: Step<V>)
    ensures RunLocal(part, front + [last])
         == match RunLocal(part, front) { case None => None case Some(p) => ApplyStep(p, last) }
  {
    assert (front + [last])[..|front|] == front;
  }

  lemma {:induction false} OwnSteps<V>(parts: map<ScopeRun, Part<V>>, front: seq<Step<V>>, last: Step<V>, at: ScopeRun)
    requires at in parts
    ensures RunLocal(parts[at], Project(front + [last], at))
         == if last.At() != at then RunLocal(parts[at], Project(front, at))
            else match RunLocal(parts[at], Project(front, at)) { case None => None
                                                                 case Some(p) => ApplyStep(p, last) }
  {
    assert (front + [last])[..|front|] == front;
    if last.At() == at {
      RunLocalSnoc(parts[at], Project(front, at), last);
    } else {
      assert Project(front + [last], at) == Project(front, at);
    }
  }

  /** Commits of different scopes do not interfere: if every scope can execute its own commits, the
      whole sequence executes, and each scope ends where its own commits lead. */
  lemma {:induction false} ScopesAreIndependent<V>(parts: map<ScopeRun, Part<V>>, steps: seq<Step<V>>)
    returns (after: map<ScopeRun, Part<V>>)
    requires forall s :: s in steps ==> s.At() in parts
    requires forall at :: at in parts ==> RunLocal(parts[at], Project(steps, at)).Some?
    ensures RunSteps(parts, steps) == Some(after) && after.Keys == parts.Keys
    ensures forall at :: at in parts ==> RunLocal(parts[at], Project(steps, at)) == Some(after[at])
  {
    after := parts;
    if steps != [] {
      var n := |steps| - 1;
      var front, last := steps[..n], steps[n];
      assert steps == front + [last];
      forall at | at in parts
        ensures RunLocal(parts[at], Project(front, at)).Some?
      {
        OwnSteps(parts, front, last, at);
      }
      var before := ScopesAreIndependent(parts, front);
      var own := last.At();
      OwnSteps(parts, front, last, own);
      after := before[own := ApplyStep(before[own], last).value];
      forall at | at in parts
        ensures RunLocal(parts[at], Project(steps, at)) == Some(after[at])
      {
        OwnSteps(parts, front, last, at);
      }
    }
  }

  // ---- the commits of distinct visits ----------------------------------------------------

  predicate Visits(vs: seq<Binding>, at: ScopeRun) {
    exists i :: 0 <= i < |vs| && vs[i].at == at
  }

  /** Visits of distinct scopes commit, at each visited scope, exactly its planned commits. */
  lemma {:induction false} ProjectFlatten<V>(plan: Plan<V>, vs: seq<Binding>, at: ScopeRun)
    requires DistinctAts(vs)
    ensures Project(Flatten(plan, vs), at) == if Visits(vs, at) then StepsAt(plan, at) else []
  {
    if vs != [] {
      var n := |vs| - 1;
      ProjectFlatten(plan, vs[..n], at);
      ProjectConcat(Flatten(plan, vs[..n]), StepsAt(plan, vs[n].at), at);
      ProjectOwn(StepsAt(plan, vs[n].at), at);
      VisitsSnoc(vs, at);
    }
  }

  lemma {:induction false} VisitsSnoc(vs: seq<Binding>, at: ScopeRun)
    requires vs != []
    ensures Visits(vs, at) <==> Visits(vs[..|vs| - 1], at) || vs[|vs| - 1].at == at
    ensures DistinctAts(vs) && vs[|vs| - 1].at == at ==> !Visits(vs[..|vs| - 1], at)
  {
    var front := vs[..|vs| - 1];
    if i :| 0 <= i < |vs| && vs[i].at == at {
      assert i < |front| ==> front[i].at == at;
    }
  }

  lemma {:induction false} FlattenAts<V>(plan: Plan<V>, vs: seq<Binding>, s: Step<V>)
    requires s in Flatten(plan, vs)
    ensures Visits(vs, s.At())
  {
    var n := |vs| - 1;
    VisitsSnoc(vs, s.At());
    if s in Flatten(plan, vs[..n]) {
      FlattenAts(plan, vs[..n], s);
    }
  }

  // ---- staged resume inputs --------------------------------------------------------------

  /** The resume inputs a sequence of commits stages. */
  function StepInputs<V>(steps: seq<Step<V>>): (inputs: seq<Record<V>>) {
    if steps == [] then []
    else
      var n := |steps| - 1;
      StepInputs(steps[..n]) + steps[n].Inputs()
  }

  lemma {:induction false} StepInputMembers<V>(steps: seq<Step<V>>, r: Record<V>)
    ensures r in StepInputs(steps) <==> exists s :: s in steps && r in s.Inputs()
  {
    if steps != [] {
      var n := |steps| - 1;
      StepInputMembers(steps[..n], r);
      assert steps == steps[..n] + [steps[n]];
    }
  }

  /** An owner's frames change in one way only: they gain the inputs of its own resumes. */
  lemma {:induction false} RunLocalFrames<V>(part: Part<V>, steps: seq<Step<V>>) returns (resumes: seq<Record<V>>)
    requires Canonical(part.frames.resumes) && RunLocal(part, steps).Some?
    ensures RunLocal(part, steps).value.frames == part.frames.(resumes := resumes)
    ensures Canonical(resumes)
    ensures forall r :: r in resumes <==> r in part.frames.resumes || r in StepInputs(steps)
  {
    resumes := part.frames.resumes;
    if steps != [] {
      var n := |steps| - 1;
      var before := RunLocalFrames(part, steps[..n]);
      resumes := before;
      if steps[n].ResumeStep? {
        resumes := InsertedMembers(before, steps[n].resume.inputs);
      }
    }
  }
}
