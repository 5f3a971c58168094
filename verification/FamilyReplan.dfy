/** Planning a partial continuation again: it is an admissible family whose fences are exactly the
    unconfirmed ones. */
module FamilyReplan {
  import opened Sorted
  import opened FrameIndex
  import opened GraphState
  import opened Lineage
  import opened ScopedFrames
  import opened Resumption
  import opened FamilySteps
  import opened FamilyAgreement
  import opened FamilyHandoff

  // ---- what admission commits keep -------------------------------------------------------

  /** What every fence and resume keeps of a state. */
  ghost predicate Progressed(s: State, t: State) {
    && Valid(t)
    && t.run == s.run && t.parent == s.parent && t.status == s.status && t.superstep == s.superstep
    && NodeIds(t.frontier) == NodeIds(s.frontier)
    && (forall node :: IsPending(s.frontier, node) ==> IsPending(t.frontier, node))
  }

  lemma {:induction false} FenceFacts(s: State, c: Command)
    requires c.Fence? && Reduce(Some(s), c).Some?
    ensures Reduce(Some(s), c).value == s.(lease := None, revision := s.revision + 1)
    ensures Progressed(s, Reduce(Some(s), c).value)
  {
    assert s.lease == Some(c.token);
  }

  lemma {:induction false} StepProgresses<V>(part: Part<V>, step: Step<V>)
    requires IsAdmissionStep(step) && ApplyStep(part, step).Some?
    ensures Progressed(part.state, ApplyStep(part, step).value.state)
    ensures ApplyStep(part, step).value.state.lease.None?
  {
    match step
    case FenceStep(f) => FenceFacts(part.state, f.command);
    case ResumeStep(p) => ResumeFacts(part.state, p.command.actions);
  }

  /** Admission commits progress the state; the first one leaves it without a lease for good. */
  lemma {:induction false} LocalProgress<V>(part: Part<V>, steps: seq<Step<V>>)
    requires Valid(part.state) && RunLocal(part, steps).Some?
    requires forall s :: s in steps ==> IsAdmissionStep(s)
    ensures Progressed(part.state, RunLocal(part, steps).value.state)
    ensures steps != [] ==> RunLocal(part, steps).value.state.lease.None?
  {
    if steps != [] {
      var n := |steps| - 1;
      LocalProgress(part, steps[..n]);
      StepProgresses(RunLocal(part, steps[..n]).value, steps[n]);
    }
  }

  // ---- the progressed lineage ------------------------------------------------------------

  ghost predicate ProgressedLineage(bs: seq<Binding>, after: seq<Binding>) {
    && |after| == |bs|
    && (forall i :: 0 <= i < |bs| ==> after[i].at == bs[i].at && Progressed(bs[i].state, after[i].state))
  }

  lemma {:induction false} SnapshotStillMatches(graph: Graph, b: Binding, c: Binding)
    requires SnapshotMatches(graph, b) && c.at == b.at && Progressed(b.state, c.state)
    ensures SnapshotMatches(graph, c)
    ensures ParentOf(c) == ParentOf(b)
  {
    forall i | 0 <= i < |c.state.frontier|
      ensures c.state.frontier[i].node in graph.nodes
    {
      assert NodeIds(c.state.frontier)[i] == NodeIds(b.state.frontier)[i];
    }
  }

  lemma {:induction false} ProgressedParent(bs: seq<Binding>, after: seq<Binding>, at: ScopeRun)
    requires Ascending(ScopeRunLess, Ats(bs)) && ProgressedLineage(bs, after) && BindingAt(bs, at).Some?
    ensures BindingAt(after, at).Some?
    ensures Progressed(BindingAt(bs, at).value.state, BindingAt(after, at).value.state)
  {
    var k := Position(bs, at).value;
    assert Ats(after) == Ats(bs);
    PositionSpec(after, k);
  }

  /** A plannable lineage stays plannable under admission commits. */
  lemma {:induction false} StillPlannable(graph: Graph, bs: seq<Binding>, after: seq<Binding>)
    requires Ascending(ScopeRunLess, Ats(bs)) && Plannable(graph, bs) && ProgressedLineage(bs, after)
    ensures Plannable(graph, after)
  {
    forall i | 0 <= i < |after|
      ensures FenceAdmissible(graph, after, after[i])
    {
      assert FenceAdmissible(graph, bs, bs[i]);
      SnapshotStillMatches(GraphAt(graph, bs[i].at.scope).value, bs[i], after[i]);
      if ParentOf(bs[i]).Nested? {
        ProgressedParent(bs, after, ParentOf(bs[i]).activation.at);
      }
    }
  }

  // ---- the remaining fences --------------------------------------------------------------

  /** The fences that a sequence of commits has not confirmed. */
  function Unconfirmed<V(==)>(fences: seq<PlannedFence>, steps: seq<Step<V>>): (rest: seq<PlannedFence>) {
    if fences == [] then []
    else
      var n := |fences| - 1;
      Unconfirmed(fences[..n], steps) + (if FenceStep(fences[n]) in steps then [] else [fences[n]])
  }

  lemma {:induction false} UnconfirmedSnoc<V>(fences: seq<PlannedFence>, f: PlannedFence, steps: seq<Step<V>>)
    ensures Unconfirmed(fences + [f], steps) == Unconfirmed(fences, steps) + (if FenceStep(f) in steps then [] else [f])
  {
    assert (fences + [f])[..|fences|] == fences;
  }

  ghost predicate LeaseAfter<V>(b: Binding, c: Binding, steps: seq<Step<V>>) {
    if b.state.lease.Some? && FenceStep(FenceFor(b)) !in steps then c == b else c.state.lease.None?
  }

  lemma {:induction false} RemainingFences<V>(bs: seq<Binding>, after: seq<Binding>, steps: seq<Step<V>>)
    requires |after| == |bs| && forall i :: 0 <= i < |bs| ==> LeaseAfter(bs[i], after[i], steps)
    ensures FenceList(after) == Unconfirmed(FenceList(bs), steps)
  {
    if bs != [] {
      var n := |bs| - 1;
      RemainingFences(bs[..n], after[..n], steps);
      assert LeaseAfter(bs[n], after[n], steps);
      if bs[n].state.lease.Some? {
        UnconfirmedSnoc(FenceList(bs[..n]), FenceFor(bs[n]), steps);
      } else {
        assert FenceList(bs) == FenceList(bs[..n]);
      }
    }
  }

  // ---- one scope after a prefix ----------------------------------------------------------

  lemma {:induction false} ScopeAfterPrefix<V>(f: Family<V>, scopes: seq<seq<Text>>, p: Progress<V>, k: nat, i: nat,
                                               part: Part<V>)
    requires Planned(f, scopes, p) && k <= |Whole(f, p)| && i < |f.Bindings()|
    requires PartAfter(f, Whole(f, p)[..k], f.Bindings()[i].at, part)
    ensures var b := f.Bindings()[i];
            Progressed(b.state, part.state) && LeaseAfter(b, Binding(b.at, part.state), Whole(f, p)[..k])
  {
    PlanIsAdmitted(f, scopes, p);
    var b, steps := f.Bindings()[i], Whole(f, p)[..k];
    var own := Project(steps, b.at);
    var _ := LocalPlanExecutes(f, scopes, p, i);
    assert FenceAdmissible(f.graph, f.Bindings(), b);
    forall s | s in own
      ensures s in steps && IsAdmissionStep(s)
    {
      ProjectMembers(steps, b.at, s);
      PrefixSteps(f, scopes, p, k);
    }
    LocalProgress(f.PartAt(b.at), own);
    FenceComesFirst(f, scopes, p, k, i);
  }

  /** The commits of a scope confirmed so far begin with its fence, if it has one. */
  lemma {:induction false} FenceComesFirst<V>(f: Family<V>, scopes: seq<seq<Text>>, p: Progress<V>, k: nat, i: nat)
    requires Planned(f, scopes, p) && k <= |Whole(f, p)| && i < |f.Bindings()|
    ensures var b, steps := f.Bindings()[i], Whole(f, p)[..k];
            b.state.lease.Some? ==> (FenceStep(FenceFor(b)) in steps <==> Project(steps, b.at) != [])
  {
    PlanLineage(f, scopes, p);
    var b, steps := f.Bindings()[i], Whole(f, p)[..k];
    if b.state.lease.Some? {
      FenceAtSpec(f.Bindings(), i);
      WalkExecutesPlanExactlyOnce(f, scopes, p, i);
      PrefixProjection(Whole(f, p), k, b.at);
      ProjectMembers(steps, b.at, FenceStep(FenceFor(b)));
      FirstOfPrefix(Project(steps, b.at), StepsAt(PlanOf(f, p), b.at));
    }
  }

  lemma {:induction false} FirstOfPrefix<T>(s: seq<T>, t: seq<T>)
    requires s <= t && t != []
    ensures s != [] ==> t[0] in s
  {
    assert s != [] ==> s[0] == t[0];
  }

  /** Re-planning a partial continuation plans exactly the unconfirmed fences. */
  lemma {:induction false} ReplanIsUnconfirmed<V>(f: Family<V>, scopes: seq<seq<Text>>, p: Progress<V>, k: nat,
                                                  parts: map<ScopeRun, Part<V>>)
    requires Planned(f, scopes, p) && k <= |Whole(f, p)| && PartsAfter(f, Whole(f, p)[..k], parts)
    ensures ProgressedLineage(f.Bindings(), StatesOf(f.Bindings(), parts))
    ensures Plannable(f.graph, StatesOf(f.Bindings(), parts))
    ensures FenceList(StatesOf(f.Bindings(), parts)) == Unconfirmed(FenceList(f.Bindings()), Whole(f, p)[..k])
  {
    PlanIsAdmitted(f, scopes, p);
    var bs, after, steps := f.Bindings(), StatesOf(f.Bindings(), parts), Whole(f, p)[..k];
    forall i | 0 <= i < |bs|
      ensures after[i].at == bs[i].at && Progressed(bs[i].state, after[i].state) && LeaseAfter(bs[i], after[i], steps)
    {
      assert Ats(bs)[i] in Ats(bs);
      ScopeAfterPrefix(f, scopes, p, k, i, parts[bs[i].at]);
    }
    StillPlannable(f.graph, bs, after);
    RemainingFences(bs, after, steps);
  }

  // ---- the continuation is an admissible family ------------------------------------------

  /** The continuation handed back: the confirmed states and the merged frames. */
  function Continuation<V>(f: Family<V>, parts: map<ScopeRun, Part<V>>, frames: Index<V>): (g: Family<V>) {
    Family(f.graph, if f.RootAt() in parts then parts[f.RootAt()].state else f.root, EvidenceOf(f.runs, parts), frames)
  }

  lemma {:induction false} BoundRunsOf<V>(runs: seq<Evidence>, parts: map<ScopeRun, Part<V>>)
    ensures BoundRuns(EvidenceOf(runs, parts)) == StatesOf(BoundRuns(runs), parts)
  {
    if runs != [] {
      var n := |runs| - 1;
      BoundRunsOf(runs[..n], parts);
      assert EvidenceOf(runs, parts)[..n] == EvidenceOf(runs[..n], parts);
      assert BoundRuns(EvidenceOf(runs, parts)) == StatesOf(BoundRuns(runs), parts);
    }
  }

  lemma {:induction false} ContinuationBindings<V>(f: Family<V>, parts: map<ScopeRun, Part<V>>, frames: Index<V>)
    requires f.RootAt() in parts && parts[f.RootAt()].state.run == f.root.run
    ensures Continuation(f, parts, frames).Bindings() == StatesOf(f.Bindings(), parts)
    ensures Continuation(f, parts, frames).RootAt() == f.RootAt()
  {
    BoundRunsOf(f.runs, parts);
    var g, bs := Continuation(f, parts, frames), StatesOf(f.Bindings(), parts);
    assert bs == [bs[0]] + StatesOf(f.Children(), parts);
  }

  lemma {:induction false} ContinuationLineage<V>(f: Family<V>, parts: map<ScopeRun, Part<V>>, frames: Index<V>)
    requires LineageStates(f.root, f.runs).Some?
    requires ProgressedLineage(f.Bindings(), StatesOf(f.Bindings(), parts))
    ensures LineageStates(Continuation(f, parts, frames).root, Continuation(f, parts, frames).runs).Some?
  {
    var runs := EvidenceOf(f.runs, parts);
    assert EvidenceAts(runs) == EvidenceAts(f.runs);
    forall i | 0 <= i < |runs|
      ensures AdmissibleEvidence(runs[i])
    {
      assert AdmissibleEvidence(f.runs[i]);
      if f.runs[i].Bound? && f.runs[i].At() in parts {
        var b := f.runs[i].binding;
        assert b in f.Children();
        var j :| 0 <= j < |f.Children()| && f.Children()[j] == b;
        assert f.Bindings()[j + 1] == b;
        assert Progressed(b.state, parts[b.at].state);
      }
    }
  }

  /** The owner of a record does not change with the states of the family. */
  lemma {:induction false} SameChild<V>(cs: seq<Binding>, parts: map<ScopeRun, Part<V>>, at: ScopeRun)
    requires forall i :: 0 <= i < |cs| ==> ParentOf(StatesOf(cs, parts)[i]) == ParentOf(cs[i])
    ensures ChildAt(cs, at).None? <==> ChildAt(StatesOf(cs, parts), at).None?
    ensures ChildAt(cs, at).Some? ==>
              ParentOf(ChildAt(cs, at).value) == ParentOf(ChildAt(StatesOf(cs, parts), at).value)
  {
    if cs != [] && cs[0].at != at {
      var after := StatesOf(cs, parts);
      assert after[1..] == StatesOf(cs[1..], parts);
      forall i | 0 <= i < |cs[1..]|
        ensures ParentOf(StatesOf(cs[1..], parts)[i]) == ParentOf(cs[1..][i])
      {
        assert after[i + 1] == StatesOf(cs[1..], parts)[i];
      }
      SameChild(cs[1..], parts, at);
    }
  }

  lemma {:induction false} SameOwners<V>(f: Family<V>, parts: map<ScopeRun, Part<V>>, frames: Index<V>, c: Coordinate)
    requires ProgressedLineage(f.Bindings(), StatesOf(f.Bindings(), parts))
    ensures Continuation(f, parts, frames).Owner()(c) == f.Owner()(c)
  {
    BoundRunsOf(f.runs, parts);
    var cs := f.Children();
    forall i | 0 <= i < |cs|
      ensures ParentOf(StatesOf(cs, parts)[i]) == ParentOf(cs[i])
    {
      assert f.Bindings()[i + 1] == cs[i];
      assert StatesOf(f.Bindings(), parts)[i + 1] == StatesOf(cs, parts)[i];
    }
    if c.ChildBoundaryAt? {
      SameChild(cs, parts, c.child);
    }
  }

  /** A partial continuation is again an admitted family over the same scopes: its fences are exactly
      the unconfirmed ones, its frames the original ones with the confirmed resumes' inputs. */
  lemma {:induction false} ContinuationIsAdmitted<V>(f: Family<V>, scopes: seq<seq<Text>>, p: Progress<V>, k: nat,
                                                     parts: map<ScopeRun, Part<V>>, out: Index<V>)
    requires Planned(f, scopes, p) && k <= |Whole(f, p)|
    requires PartsAfter(f, Whole(f, p)[..k], parts) && ResumedBy(f.frames, Whole(f, p)[..k], out)
    ensures var g := Continuation(f, parts, out);
            && Admitted(g)
            && Ats(g.Bindings()) == Ats(f.Bindings())
            && FenceList(g.Bindings()) == Unconfirmed(FenceList(f.Bindings()), Whole(f, p)[..k])
  {
    PlanIsAdmitted(f, scopes, p);
    ReplanIsUnconfirmed(f, scopes, p, k, parts);
    ContinuationLineage(f, parts, out);
    ContinuationScopes(f, parts, out);
    ContinuationFramesBelong(f, scopes, p, k, parts, out);
  }

  lemma {:induction false} ContinuationScopes<V>(f: Family<V>, parts: map<ScopeRun, Part<V>>, out: Index<V>)
    requires LineageStates(f.root, f.runs).Some? && parts.Keys == f.Parts().Keys
    requires ProgressedLineage(f.Bindings(), StatesOf(f.Bindings(), parts))
    ensures Continuation(f, parts, out).Bindings() == StatesOf(f.Bindings(), parts)
    ensures Ats(Continuation(f, parts, out).Bindings()) == Ats(f.Bindings())
  {
    EvidenceOwners(f);
    assert StatesOf(f.Bindings(), parts)[0].state.run == f.root.run;
    ContinuationBindings(f, parts, out);
  }

  lemma {:induction false} ContinuationFramesBelong<V>(f: Family<V>, scopes: seq<seq<Text>>, p: Progress<V>, k: nat,
                                                       parts: map<ScopeRun, Part<V>>, out: Index<V>)
    requires Planned(f, scopes, p) && k <= |Whole(f, p)| && ResumedBy(f.frames, Whole(f, p)[..k], out)
    requires ProgressedLineage(f.Bindings(), StatesOf(f.Bindings(), parts))
    requires Ats(Continuation(f, parts, out).Bindings()) == Ats(f.Bindings())
    ensures FramesBelong(Continuation(f, parts, out))
  {
    PlanIsAdmitted(f, scopes, p);
    var g := Continuation(f, parts, out);
    forall r | r in out.resumes
      ensures f.Owner()(r.coordinate).Some? && f.Owner()(r.coordinate).value in Ats(f.Bindings())
    {
      ResumedInputBelongs(f, scopes, p, k, r);
    }
    forall c
      ensures g.Owner()(c) == f.Owner()(c)
    {
      SameOwners(f, parts, out, c);
    }
    SameOwnersBelong(f.frames.inputs, f.Owner(), g.Owner(), Ats(f.Bindings()));
    SameOwnersBelong(f.frames.publications, f.Owner(), g.Owner(), Ats(f.Bindings()));
    SameOwnersBelong(out.resumes, f.Owner(), g.Owner(), Ats(f.Bindings()));
    SameOwnersBelong(f.frames.boundaries, f.Owner(), g.Owner(), Ats(f.Bindings()));
  }

  lemma {:induction false} SameOwnersBelong<V>(records: seq<Record<V>>, a: Coordinate -> Option<ScopeRun>,
                                               b: Coordinate -> Option<ScopeRun>,
                                               ats: seq<ScopeRun>)
    requires Belong(records, a, ats) && forall c :: b(c) == a(c)
    ensures Belong(records, b, ats)
  {
  }

  lemma {:induction false} ResumedInputBelongs<V>(f: Family<V>, scopes: seq<seq<Text>>, p: Progress<V>, k: nat,
                                                  r: Record<V>)
    requires Planned(f, scopes, p) && k <= |Whole(f, p)|
    requires r in f.frames.resumes || r in StepInputs(Whole(f, p)[..k])
    ensures f.Owner()(r.coordinate).Some? && f.Owner()(r.coordinate).value in Ats(f.Bindings())
  {
    PlanIsAdmitted(f, scopes, p);
    PrefixSteps(f, scopes, p, k);
    var _ := ResumeHome(f, Whole(f, p)[..k], r);
  }
}
