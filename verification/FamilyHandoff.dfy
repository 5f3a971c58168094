/** The evidence handed off after any confirmed prefix of the admission walk, and what planning it
    again yields. */
module FamilyHandoff {
  import opened Sorted
  import opened FrameIndex
  import opened Lineage
  import opened ScopedFrames
  import opened Resumption
  import opened FamilySteps
  import opened FamilyAgreement

  // ---- reading the evidence back ---------------------------------------------------------

  /** The child evidence with the current state of every bound scope. */
  function EvidenceOf<V>(runs: seq<Evidence>, parts: map<ScopeRun, Part<V>>): (r: seq<Evidence>)
    ensures |r| == |runs|
    ensures forall i :: 0 <= i < |runs| ==>
                          r[i] == if runs[i].Bound? && runs[i].At() in parts
                          then Bound(Binding(runs[i].At(), parts[runs[i].At()].state)) else runs[i]
  {
    seq(|runs|, i requires 0 <= i < |runs| =>
      if runs[i].Bound? && runs[i].At() in parts then Bound(Binding(runs[i].At(), parts[runs[i].At()].state))
      else runs[i])
  }

  /** The frames of the child evidence, an uncreated run holding none. */
  function FramesOf<V>(runs: seq<Evidence>, parts: map<ScopeRun, Part<V>>): (r: seq<Index<V>>)
    ensures |r| == |runs|
    ensures forall i :: 0 <= i < |runs| ==>
                          r[i] == if runs[i].Bound?
                                     && runs[i].At() in parts then parts[runs[i].At()].frames else EmptyIndex()
  {
    seq(|runs|, i requires 0 <= i < |runs| =>
      if runs[i].Bound? && runs[i].At() in parts then parts[runs[i].At()].frames else EmptyIndex())
  }

  /** Merging the root frames with the merged child frames. */
  function Handoff<V>(f: Family<V>, parts: map<ScopeRun, Part<V>>): (r: Option<Index<V>>) {
    match MergeFrames(FramesOf(f.runs, parts))
    case None => None
    case Some(children) =>
      if f.RootAt() in parts then MergeFrames([parts[f.RootAt()].frames, children]) else None
  }

  // ---- the owners of a family ------------------------------------------------------------

  lemma {:induction false} ChildIsBound<V>(f: Family<V>, b: Binding)
    ensures b in f.Children() ==> b.at in Ats(f.Bindings())
    ensures f.RootAt() in Ats(f.Bindings())
  {
    var bs := f.Bindings();
    assert Ats(bs)[0] == f.RootAt();
    if b in f.Children() {
      var k :| 0 <= k < |f.Children()| && f.Children()[k] == b;
      assert Ats(bs)[k + 1] == b.at;
    }
  }

  lemma {:induction false} BoundHasEvidence<V>(f: Family<V>, at: ScopeRun) returns (j: nat)
    requires at in Ats(f.Bindings()) && at != f.RootAt()
    ensures j < |f.runs| && f.runs[j].Bound? && f.runs[j].At() == at == EvidenceAts(f.runs)[j]
  {
    var bs := f.Bindings();
    var k :| 0 <= k < |Ats(bs)| && Ats(bs)[k] == at;
    assert bs[k] in f.Children();
    assert Bound(bs[k]) in f.runs;
    j :| 0 <= j < |f.runs| && f.runs[j] == Bound(bs[k]);
  }

  lemma {:induction false} DistinctEvidence<V>(f: Family<V>)
    requires LineageStates(f.root, f.runs).Some?
    ensures f.RootAt() !in EvidenceAts(f.runs)
    ensures forall i, j :: 0 <= i < j < |f.runs| ==> EvidenceAts(f.runs)[i] != EvidenceAts(f.runs)[j]
  {
    LineageIsCanonical(f.root, f.runs);
    ScopeRunOrder();
    var ats := EvidenceAts(f.runs);
    forall i, j | 0 <= i < j < |ats|
      ensures ats[i] != ats[j]
    {
      assert ScopeRunLess(ats[i], ats[j]);
    }
    forall i | 0 <= i < |ats|
      ensures ats[i].scope != []
    {
      assert AdmissibleEvidence(f.runs[i]);
    }
  }

  /** The owners of a family are its root and its evidence coordinates, each once; a coordinate is
      bound or uncreated, never both. */
  lemma {:induction false} EvidenceOwners<V>(f: Family<V>)
    requires LineageStates(f.root, f.runs).Some?
    ensures f.RootAt() !in EvidenceAts(f.runs) && f.RootAt() in Ats(f.Bindings())
    ensures forall i, j :: 0 <= i < j < |f.runs| ==> EvidenceAts(f.runs)[i] != EvidenceAts(f.runs)[j]
    ensures forall at :: at in Ats(f.Bindings()) ==> at == f.RootAt() || at in EvidenceAts(f.runs)
    ensures forall i :: 0 <= i < |f.runs| ==> (f.runs[i].Bound? <==> f.runs[i].At() in Ats(f.Bindings()))
  {
    DistinctEvidence(f);
    ChildIsBound(f, Binding(f.RootAt(), f.root));
    forall at | at in Ats(f.Bindings()) && at != f.RootAt()
      ensures at in EvidenceAts(f.runs)
    {
      var _ := BoundHasEvidence(f, at);
    }
    forall i | 0 <= i < |f.runs|
      ensures f.runs[i].Bound? <==> f.runs[i].At() in Ats(f.Bindings())
    {
      if f.runs[i].Bound? {
        assert f.runs[i].binding in f.Children();
        ChildIsBound(f, f.runs[i].binding);
      } else if f.runs[i].At() in Ats(f.Bindings()) {
        assert EvidenceAts(f.runs)[i] in EvidenceAts(f.runs);
        var j := BoundHasEvidence(f, f.runs[i].At());
      }
    }
  }

  /** Nothing in the index belongs to an uncreated run. */
  lemma {:induction false} ForeignSelectsNothing<V>(records: seq<Record<V>>, owner: Coordinate -> Option<ScopeRun>,
                                                    ats: seq<ScopeRun>, at: ScopeRun)
    requires Belong(records, owner, ats) && at !in ats
    ensures Select(records, owner, at) == []
  {
    NonEmptyHasMember(Select(records, owner, at));
  }

  /** Splitting one segment by owner and merging it back is the identity. */
  lemma {:induction false} SegmentRoundTrip<V, W>(f: Family<W>, records: seq<Record<V>>)
    requires LineageStates(f.root, f.runs).Some? && Canonical(records) && Belong(records, f.Owner(), Ats(f.Bindings()))
    ensures var parts := Selects(records, f.Owner(), EvidenceAts(f.runs));
            && MergeSegment([], parts).Some?
            && MergeSegment([], [Select(records, f.Owner(), f.RootAt()), MergeSegment([], parts).value])
               == Some(records)
  {
    EvidenceOwners(f);
    PartitionMerges(records, f.Owner(), f.RootAt(), EvidenceAts(f.runs));
  }

  // ---- owners that only gained resume inputs ---------------------------------------------

  /** An owner's part of the family after some of its commits. */
  ghost predicate PartAfter<V>(f: Family<V>, steps: seq<Step<V>>, at: ScopeRun, part: Part<V>) {
    RunLocal(f.PartAt(at), Project(steps, at)) == Some(part)
  }

  ghost predicate PartsAfter<V>(f: Family<V>, steps: seq<Step<V>>, parts: map<ScopeRun, Part<V>>) {
    && parts.Keys == f.Parts().Keys
    && (forall at :: at in parts ==> PartAfter(f, steps, at, parts[at]))
  }

  /** The frames a prefix of the walk leaves: the original ones and the inputs of its resumes. */
  ghost predicate ResumedBy<V>(frames: Index<V>, steps: seq<Step<V>>, after: Index<V>) {
    && after == frames.(resumes := after.resumes)
    && Canonical(after.resumes)
    && (forall r :: r in after.resumes ==> r in frames.resumes || r in StepInputs(steps))
    && (forall r :: r in frames.resumes ==> r in after.resumes)
    && (forall r :: r in StepInputs(steps) ==> r in after.resumes)
  }

  ghost predicate OwnInputs<V>(steps: seq<Step<V>>) {
    forall s, r :: s in steps && r in s.Inputs() ==> r.coordinate.ResumeInputAt? && r.coordinate.activation.at == s.At()
  }

  lemma {:induction false} OwnStepInputs<V>(steps: seq<Step<V>>, at: ScopeRun, r: Record<V>)
    requires OwnInputs(steps) && r in StepInputs(Project(steps, at))
    ensures r in StepInputs(steps) && r.coordinate.ResumeInputAt? && r.coordinate.activation.at == at
  {
    StepInputMembers(Project(steps, at), r);
    var s :| s in Project(steps, at) && r in s.Inputs();
    ProjectMembers(steps, at, s);
    StepInputMembers(steps, r);
  }

  /** The resume inputs one owner holds after its commits. */
  ghost predicate OwnResumes<V>(f: Family<V>, steps: seq<Step<V>>, at: ScopeRun, resumes: seq<Record<V>>) {
    && OwnedBy(resumes, f.Owner(), at)
    && (forall r :: r in resumes ==> r in f.frames.resumes || r in StepInputs(steps))
    && (forall r :: r in f.frames.resumes && f.Owner()(r.coordinate) == Some(at) ==> r in resumes)
    && (forall r :: r in StepInputs(Project(steps, at)) ==> r in resumes)
  }

  lemma {:induction false} PartFrames<V>(f: Family<V>, steps: seq<Step<V>>, at: ScopeRun, part: Part<V>)
    returns (resumes: seq<Record<V>>)
    requires Canonical(f.frames.resumes) && OwnInputs(steps) && PartAfter(f, steps, at, part)
    ensures part.frames == f.OwnerFrames(at).(resumes := resumes)
    ensures OwnResumes(f, steps, at, resumes)
  {
    SelectIsOwned(f.frames.resumes, f.Owner(), at);
    resumes := RunLocalFrames(f.PartAt(at), Project(steps, at));
    OwnResumesSpec(f, steps, at, resumes, f.OwnerFrames(at).resumes, StepInputs(Project(steps, at)));
  }

  lemma {:induction false} OwnResumesSpec<V>(f: Family<V>, steps: seq<Step<V>>, at: ScopeRun, resumes: seq<Record<V>>,
                                             own: seq<Record<V>>, inputs: seq<Record<V>>)
    requires OwnInputs(steps) && Canonical(resumes)
    requires own == Select(f.frames.resumes, f.Owner(), at) && inputs == StepInputs(Project(steps, at))
    requires forall r :: r in resumes <==> r in own || r in inputs
    ensures OwnResumes(f, steps, at, resumes)
  {
    forall r | r in resumes
      ensures f.Owner()(r.coordinate) == Some(at) && (r in f.frames.resumes || r in StepInputs(steps))
    {
      if r !in own {
        OwnStepInputs(steps, at, r);
      }
    }
  }

  /** The three segments no admission commit touches come back unchanged. */
  lemma {:induction false} UntouchedSegments<V>(f: Family<V>, steps: seq<Step<V>>, parts: map<ScopeRun, Part<V>>)
    requires Admitted(f) && OwnInputs(steps) && PartsAfter(f, steps, parts)
    ensures var indexes := FramesOf(f.runs, parts);
            && Inputs(indexes) == Selects(f.frames.inputs, f.Owner(), EvidenceAts(f.runs))
            && Publications(indexes) == Selects(f.frames.publications, f.Owner(), EvidenceAts(f.runs))
            && Boundaries(indexes) == Selects(f.frames.boundaries, f.Owner(), EvidenceAts(f.runs))
  {
    EvidenceOwners(f);
    var indexes, ats := FramesOf(f.runs, parts), EvidenceAts(f.runs);
    forall i | 0 <= i < |f.runs|
      ensures indexes[i].inputs == Select(f.frames.inputs, f.Owner(), ats[i])
      ensures indexes[i].publications == Select(f.frames.publications, f.Owner(), ats[i])
      ensures indexes[i].boundaries == Select(f.frames.boundaries, f.Owner(), ats[i])
    {
      if f.runs[i].Bound? {
        var _ := PartFrames(f, steps, ats[i], parts[ats[i]]);
      } else {
        ForeignSelectsNothing(f.frames.inputs, f.Owner(), Ats(f.Bindings()), ats[i]);
        ForeignSelectsNothing(f.frames.publications, f.Owner(), Ats(f.Bindings()), ats[i]);
        ForeignSelectsNothing(f.frames.boundaries, f.Owner(), Ats(f.Bindings()), ats[i]);
      }
    }
  }

  lemma {:induction false} ResumesAreOwned<V>(f: Family<V>, steps: seq<Step<V>>, parts: map<ScopeRun, Part<V>>)
    requires Admitted(f) && OwnInputs(steps) && PartsAfter(f, steps, parts)
    ensures OwnedParts(Resumes(FramesOf(f.runs, parts)), f.Owner(), EvidenceAts(f.runs))
  {
    EvidenceOwners(f);
    var resumes, ats := Resumes(FramesOf(f.runs, parts)), EvidenceAts(f.runs);
    forall i | 0 <= i < |resumes|
      ensures OwnedBy(resumes[i], f.Owner(), ats[i])
    {
      if f.runs[i].Bound? {
        var _ := PartFrames(f, steps, ats[i], parts[ats[i]]);
      }
    }
  }

  /** The merged resume inputs are exactly the original ones and those of the executed resumes. */
  lemma {:induction false} ResumeMembers<V>(f: Family<V>, steps: seq<Step<V>>, parts: map<ScopeRun, Part<V>>,
                                            rootResumes: seq<Record<V>>, r: Record<V>)
    requires Admitted(f) && OwnInputs(steps) && PartsAfter(f, steps, parts)
    requires forall s :: s in steps ==> s.At() in f.Parts()
    requires OwnResumes(f, steps, f.RootAt(), rootResumes)
    ensures r in rootResumes || InSome(Resumes(FramesOf(f.runs, parts)), r)
       <==> r in f.frames.resumes || r in StepInputs(steps)
  {
    if InSome(Resumes(FramesOf(f.runs, parts)), r) {
      ChildInputIsKnown(f, steps, parts, r);
    }
    if r in f.frames.resumes || r in StepInputs(steps) {
      KnownInputIsHeld(f, steps, parts, rootResumes, r);
    }
  }

  /** What a child holds was there before or is an input of the commits so far. */
  lemma {:induction false} ChildInputIsKnown<V>(f: Family<V>, steps: seq<Step<V>>, parts: map<ScopeRun, Part<V>>,
                                                r: Record<V>)
    requires Admitted(f) && OwnInputs(steps) && PartsAfter(f, steps, parts)
    requires InSome(Resumes(FramesOf(f.runs, parts)), r)
    ensures r in f.frames.resumes || r in StepInputs(steps)
  {
    var resumes := Resumes(FramesOf(f.runs, parts));
    var i :| 0 <= i < |resumes| && r in resumes[i];
    var at := f.runs[i].At();
    var _ := PartFrames(f, steps, at, parts[at]);
  }

  /** What was there before, and every input of the commits so far, is held by the root or by a child. */
  lemma {:induction false} KnownInputIsHeld<V>(f: Family<V>, steps: seq<Step<V>>, parts: map<ScopeRun, Part<V>>,
                                               rootResumes: seq<Record<V>>, r: Record<V>)
    requires Admitted(f) && OwnInputs(steps) && PartsAfter(f, steps, parts)
    requires forall s :: s in steps ==> s.At() in f.Parts()
    requires OwnResumes(f, steps, f.RootAt(), rootResumes)
    requires r in f.frames.resumes || r in StepInputs(steps)
    ensures r in rootResumes || InSome(Resumes(FramesOf(f.runs, parts)), r)
  {
    var resumes := Resumes(FramesOf(f.runs, parts));
    var at := ResumeHome(f, steps, r);
    if at != f.RootAt() {
      var i := BoundHasEvidence(f, at);
      var _ := PartFrames(f, steps, at, parts[at]);
      assert r in resumes[i];
    }
  }

  /** The scope whose owner must hold a given resume input. */
  lemma {:induction false} ResumeHome<V>(f: Family<V>, steps: seq<Step<V>>, r: Record<V>) returns (at: ScopeRun)
    requires Belong(f.frames.resumes, f.Owner(), Ats(f.Bindings())) && OwnInputs(steps)
    requires forall s :: s in steps ==> s.At() in f.Parts()
    requires r in f.frames.resumes || r in StepInputs(steps)
    ensures at in f.Parts() && f.Owner()(r.coordinate) == Some(at)
    ensures r in f.frames.resumes || r in StepInputs(Project(steps, at))
  {
    if r in f.frames.resumes {
      at := f.Owner()(r.coordinate).value;
    } else {
      StepInputMembers(steps, r);
      var s :| s in steps && r in s.Inputs();
      at := s.At();
      ProjectMembers(steps, at, s);
      StepInputMembers(Project(steps, at), r);
    }
  }

  lemma {:induction false} HandoffResumes<V>(f: Family<V>, steps: seq<Step<V>>, parts: map<ScopeRun, Part<V>>,
                                             rootResumes: seq<Record<V>>)
    returns (out: seq<Record<V>>)
    requires Admitted(f) && OwnInputs(steps) && PartsAfter(f, steps, parts)
    requires forall s :: s in steps ==> s.At() in f.Parts()
    requires OwnResumes(f, steps, f.RootAt(), rootResumes)
    ensures var resumes := Resumes(FramesOf(f.runs, parts));
            MergeSegment([], resumes).Some?
            && MergeSegment([], [rootResumes, MergeSegment([], resumes).value]) == Some(out)
    ensures ResumedBy(f.frames, steps, f.frames.(resumes := out))
  {
    DistinctEvidence(f);
    ResumesAreOwned(f, steps, parts);
    out := HandoffMembers(rootResumes, Resumes(FramesOf(f.runs, parts)), f.Owner(), f.RootAt(), EvidenceAts(f.runs));
    HandoffIsResumed(f, steps, parts, rootResumes, out);
  }

  ghost predicate Resumed<V>(frames: Index<V>, steps: seq<Step<V>>, r: Record<V>) {
    r in frames.resumes || r in StepInputs(steps)
  }

  lemma {:induction false} HandoffIsResumed<V>(f: Family<V>, steps: seq<Step<V>>, parts: map<ScopeRun, Part<V>>,
                                               rootResumes: seq<Record<V>>, out: seq<Record<V>>)
    requires Admitted(f) && OwnInputs(steps) && PartsAfter(f, steps, parts)
    requires forall s :: s in steps ==> s.At() in f.Parts()
    requires OwnResumes(f, steps, f.RootAt(), rootResumes)
    requires Canonical(out) && forall r :: r in out <==> r in rootResumes || InSome(Resumes(FramesOf(f.runs, parts)), r)
    ensures ResumedBy(f.frames, steps, f.frames.(resumes := out))
  {
    forall r: Record<V>
      ensures (r in rootResumes || InSome(Resumes(FramesOf(f.runs, parts)), r)) <==> Resumed(f.frames, steps, r)
    {
      ResumeMembers(f, steps, parts, rootResumes, r);
    }
    ResumedByMembers(f.frames, steps, out);
  }

  lemma {:induction false} ResumedByMembers<V>(frames: Index<V>, steps: seq<Step<V>>, out: seq<Record<V>>)
    requires Canonical(out) && forall r :: r in out <==> Resumed(frames, steps, r)
    ensures ResumedBy(frames, steps, frames.(resumes := out))
  {
    var after := frames.(resumes := out);
    assert after == frames.(resumes := after.resumes);
    forall r | r in after.resumes
      ensures r in frames.resumes || r in StepInputs(steps)
    {
      assert Resumed(frames, steps, r);
    }
    forall r | r in StepInputs(steps)
      ensures r in after.resumes
    {
      assert Resumed(frames, steps, r);
    }
    forall r | r in frames.resumes
      ensures r in after.resumes
    {
      assert Resumed(frames, steps, r);
    }
  }

  /** Handing off after some commits yields the original frames and the executed resumes' inputs. */
  lemma {:induction false} HandoffFrames<V>(f: Family<V>, steps: seq<Step<V>>, parts: map<ScopeRun, Part<V>>)
    returns (out: Index<V>)
    requires Admitted(f) && OwnInputs(steps) && PartsAfter(f, steps, parts)
    requires forall s :: s in steps ==> s.At() in f.Parts()
    ensures Handoff(f, parts) == Some(out) && ResumedBy(f.frames, steps, out)
  {
    EvidenceOwners(f);
    var rootResumes := PartFrames(f, steps, f.RootAt(), parts[f.RootAt()]);
    var resumes := HandoffResumes(f, steps, parts, rootResumes);
    out := f.frames.(resumes := resumes);
    UntouchedSegments(f, steps, parts);
    SegmentRoundTrip(f, f.frames.inputs);
    SegmentRoundTrip(f, f.frames.publications);
    SegmentRoundTrip(f, f.frames.boundaries);
    HandoffBySegment(f, parts, out);
  }

  lemma {:induction false} HandoffBySegment<V>(f: Family<V>, parts: map<ScopeRun, Part<V>>, out: Index<V>)
    requires f.RootAt() in parts
    requires var xs := FramesOf(f.runs, parts);
             && MergeSegment([], Inputs(xs)).Some? && MergeSegment([], Publications(xs)).Some?
             && MergeSegment([], Resumes(xs)).Some? && MergeSegment([], Boundaries(xs)).Some?
    requires var xs, root := FramesOf(f.runs, parts), parts[f.RootAt()].frames;
             && MergeSegment([], [root.inputs, MergeSegment([], Inputs(xs)).value]) == Some(out.inputs)
             && MergeSegment([], [root.publications, MergeSegment([], Publications(xs)).value])
                == Some(out.publications)
             && MergeSegment([], [root.resumes, MergeSegment([], Resumes(xs)).value]) == Some(out.resumes)
             && MergeSegment([], [root.boundaries, MergeSegment([], Boundaries(xs)).value]) == Some(out.boundaries)
    ensures Handoff(f, parts) == Some(out)
  {
    MergeBySegment(EmptyIndex(), FramesOf(f.runs, parts));
    var children := MergeFrames(FramesOf(f.runs, parts)).value;
    var both := [parts[f.RootAt()].frames, children];
    MergeBySegment(EmptyIndex(), both);
    assert Inputs(both) == [both[0].inputs, both[1].inputs];
    assert Publications(both) == [both[0].publications, both[1].publications];
    assert Resumes(both) == [both[0].resumes, both[1].resumes];
    assert Boundaries(both) == [both[0].boundaries, both[1].boundaries];
  }

  lemma {:induction false} ResumedByUnique<V>(frames: Index<V>, steps: seq<Step<V>>, a: Index<V>, b: Index<V>)
    requires ResumedBy(frames, steps, a) && ResumedBy(frames, steps, b)
    ensures a == b
  {
    CanonicalUnique(a.resumes, b.resumes);
  }

  /** Partition and merge are inverse: splitting an index by owner and handing it off unchanged gives
      back the same index. */
  lemma {:induction false} PartitionMergeRoundTrip<V>(f: Family<V>)
    requires Admitted(f)
    ensures Handoff(f, f.Parts()) == Some(f.frames)
  {
    var out := HandoffFrames(f, [], f.Parts());
    ResumedByUnique(f.frames, [], f.frames, out);
  }

  // ---- handing off after a confirmed prefix ----------------------------------------------

  predicate IsAdmissionStep<V>(s: Step<V>) {
    match s
    case FenceStep(f) => f.command.Fence?
    case ResumeStep(p) => p.command.Resume?
  }

  /** A commit of the walk is one of the commits planned for its scope. */
  lemma {:induction false} StepIsPlanned<V>(f: Family<V>, scopes: seq<seq<Text>>, p: Progress<V>, s: Step<V>)
    returns (i: nat)
    requires Planned(f, scopes, p) && s in Whole(f, p)
    ensures i < |f.Bindings()| && f.Bindings()[i].at == s.At() && s.At() in Ats(f.Bindings())
    ensures s in StepsAt(PlanOf(f, p), s.At())
  {
    PlanLineage(f, scopes, p);
    WalkStaysInFamily(f, p, s);
    i :| 0 <= i < |Ats(f.Bindings())| && Ats(f.Bindings())[i] == s.At();
    WalkExecutesPlanExactlyOnce(f, scopes, p, i);
    ProjectMembers(Whole(f, p), s.At(), s);
  }

  lemma {:induction false} StepsAtMembers<V>(plan: Plan<V>, at: ScopeRun, s: Step<V>)
    requires s in StepsAt(plan, at)
    ensures s.FenceStep? ==> FenceAt(plan.fences, at) == Some(s.fence)
    ensures s.ResumeStep? ==> PlanFor(plan.resumes, at) == Some(s.resume)
  {
  }

  lemma {:induction false} WalkSteps<V>(f: Family<V>, scopes: seq<seq<Text>>, p: Progress<V>, s: Step<V>)
    requires Planned(f, scopes, p) && s in Whole(f, p)
    ensures IsAdmissionStep(s) && s.At() in Ats(f.Bindings())
    ensures forall r :: r in s.Inputs() ==> r.coordinate.ResumeInputAt? && r.coordinate.activation.at == s.At()
  {
    OpenPlan(f, scopes, p);
    var i := StepIsPlanned(f, scopes, p, s);
    StepsAtMembers(PlanOf(f, p), s.At(), s);
    if s.ResumeStep? {
      PlanAt(FencedBindings(f.Bindings()), f.frames, scopes, p.plans, s.At());
    } else {
      FamilyIsCanonical(f);
      FenceAtSpec(f.Bindings(), i);
    }
  }

  lemma {:induction false} PrefixSteps<V>(f: Family<V>, scopes: seq<seq<Text>>, p: Progress<V>, k: nat)
    requires Planned(f, scopes, p) && k <= |Whole(f, p)|
    ensures OwnInputs(Whole(f, p)[..k])
    ensures forall s :: s in Whole(f, p)[..k] ==> IsAdmissionStep(s) && s.At() in f.Parts()
  {
    forall s | s in Whole(f, p)[..k]
      ensures IsAdmissionStep(s) && s.At() in f.Parts()
      ensures forall r :: r in s.Inputs() ==> r.coordinate.ResumeInputAt? && r.coordinate.activation.at == s.At()
    {
      PrefixMembers(Whole(f, p), k, s);
      WalkSteps(f, scopes, p, s);
    }
  }

  /** Partial handoff: after any confirmed prefix the merged frames are the original frames and
      exactly the inputs of the confirmed resumes. */
  lemma {:induction false} PrefixHandoff<V>(f: Family<V>, scopes: seq<seq<Text>>, p: Progress<V>, k: nat)
    returns (parts: map<ScopeRun, Part<V>>, out: Index<V>)
    requires Planned(f, scopes, p) && k <= |Whole(f, p)|
    ensures RunSteps(f.Parts(), Whole(f, p)[..k]) == Some(parts) && PartsAfter(f, Whole(f, p)[..k], parts)
    ensures Handoff(f, parts) == Some(out) && ResumedBy(f.frames, Whole(f, p)[..k], out)
  {
    PlanIsAdmitted(f, scopes, p);
    parts := EveryPrefixExecutes(f, scopes, p, k);
    PrefixSteps(f, scopes, p, k);
    out := HandoffFrames(f, Whole(f, p)[..k], parts);
  }

  /** The inputs of the whole walk are the inputs of the plans. */
  lemma {:induction false} WalkInputs<V>(f: Family<V>, scopes: seq<seq<Text>>, p: Progress<V>, r: Record<V>)
    requires Planned(f, scopes, p)
    ensures r in StepInputs(Whole(f, p)) <==> InSomePlan(p.plans, r)
  {
    if r in StepInputs(Whole(f, p)) {
      WalkInputIsPlanned(f, scopes, p, r);
    }
    if InSomePlan(p.plans, r) {
      var j :| 0 <= j < |p.plans| && r in p.plans[j].inputs;
      PlannedInputIsWalked(f, scopes, p, j, r);
    }
  }

  lemma {:induction false} StepInputOf<V>(steps: seq<Step<V>>, s: Step<V>, r: Record<V>)
    requires s in steps && r in s.Inputs()
    ensures r in StepInputs(steps)
  {
    StepInputMembers(steps, r);
  }

  lemma {:induction false} PlannedInputIsWalked<V>(f: Family<V>, scopes: seq<seq<Text>>, p: Progress<V>, j: nat,
                                                   r: Record<V>)
    requires Planned(f, scopes, p) && j < |p.plans| && r in p.plans[j].inputs
    ensures r in StepInputs(Whole(f, p))
  {
    StepOfPlan(f, scopes, p, j);
    StepInputOf(Whole(f, p), ResumeStep(p.plans[j]), r);
  }

  lemma {:induction false} WalkInputIsPlanned<V>(f: Family<V>, scopes: seq<seq<Text>>, p: Progress<V>, r: Record<V>)
    requires Planned(f, scopes, p) && r in StepInputs(Whole(f, p))
    ensures InSomePlan(p.plans, r)
  {
    StepInputMembers(Whole(f, p), r);
    var s :| s in Whole(f, p) && r in s.Inputs();
    PlanOfStep(f, scopes, p, s);
    var j :| 0 <= j < |p.plans| && p.plans[j] == s.resume;
  }

  lemma {:induction false} PlanOfStep<V>(f: Family<V>, scopes: seq<seq<Text>>, p: Progress<V>, s: Step<V>)
    requires Planned(f, scopes, p) && s in Whole(f, p)
    ensures s.ResumeStep? ==> s.resume in p.plans
  {
    var _ := StepIsPlanned(f, scopes, p, s);
    StepsAtMembers(PlanOf(f, p), s.At(), s);
  }

  /** Every planned resume is a commit of the walk. */
  lemma {:induction false} StepOfPlan<V>(f: Family<V>, scopes: seq<seq<Text>>, p: Progress<V>, j: nat)
    requires Planned(f, scopes, p) && j < |p.plans|
    ensures ResumeStep(p.plans[j]) in Whole(f, p)
  {
    OpenPlan(f, scopes, p);
    FamilyIsCanonical(f);
    var bs, fenced, at := f.Bindings(), FencedBindings(f.Bindings()), p.plans[j].at;
    assert PlannedFrom(fenced, f.frames, p.plans[j]);
    var i :| 0 <= i < |fenced| && fenced[i] == BindingAt(fenced, at).value;
    OnlyPlanAt(scopes, p.plans, j);
    WalkExecutesPlanExactlyOnce(f, scopes, p, i);
    var own := StepsAt(PlanOf(f, p), at);
    assert own[|own| - 1] == ResumeStep(p.plans[j]);
    ProjectMembers(Whole(f, p), at, ResumeStep(p.plans[j]));
  }

  lemma {:induction false} OnlyPlanAt<V>(scopes: seq<seq<Text>>, plans: seq<PlannedResume<V>>, j: nat)
    requires Ascending(ScopeLess, scopes) && |plans| == |scopes| && j < |plans|
    requires forall i :: 0 <= i < |scopes| ==> plans[i].at.scope == scopes[i]
    ensures PlanFor(plans, plans[j].at) == Some(plans[j])
  {
    var found := PlanFor(plans, plans[j].at).value;
    var i :| 0 <= i < |plans| && plans[i] == found;
    ScopeOrder();
    AscendingDistinct(ScopeLess, scopes, i, j);
  }

  /** After the whole walk the merged frames are exactly the planned ones. */
  lemma {:induction false} WalkReachesPlannedFrames<V>(f: Family<V>, scopes: seq<seq<Text>>, p: Progress<V>)
    returns (parts: map<ScopeRun, Part<V>>)
    requires Planned(f, scopes, p)
    ensures RunSteps(f.Parts(), Whole(f, p)) == Some(parts)
    ensures Handoff(f, parts) == Some(p.frames)
  {
    var n := |Whole(f, p)|;
    assert Whole(f, p)[..n] == Whole(f, p);
    var out;
    parts, out := PrefixHandoff(f, scopes, p, n);
    PlannedFramesAreResumed(f, scopes, p);
    ResumedByUnique(f.frames, Whole(f, p), out, p.frames);
  }

  lemma {:induction false} PlannedFramesAreResumed<V>(f: Family<V>, scopes: seq<seq<Text>>, p: Progress<V>)
    requires Planned(f, scopes, p)
    ensures ResumedBy(f.frames, Whole(f, p), p.frames)
  {
    forall r: Record<V>
      ensures r in StepInputs(Whole(f, p)) <==> InSomePlan(p.plans, r)
    {
      WalkInputs(f, scopes, p, r);
    }
    OpenPlan(f, scopes, p);
    ResumedFramesAreResumed(f.frames, p.plans, Whole(f, p), p.frames);
  }

  lemma {:induction false} ResumedFramesAreResumed<V>(frames: Index<V>, plans: seq<PlannedResume<V>>,
                                                      steps: seq<Step<V>>, after: Index<V>)
    requires ResumedFrames(frames, plans, after)
    requires forall r :: r in StepInputs(steps) <==> InSomePlan(plans, r)
    ensures ResumedBy(frames, steps, after)
  {
    forall r | r in StepInputs(steps)
      ensures r in after.resumes
    {
      assert InSomePlan(plans, r);
    }
  }
}
