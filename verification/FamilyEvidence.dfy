/** The evidence a walk in progress holds for every scope. */
module FamilyEvidence {
  import opened Sorted
  import opened FrameIndex
  import opened Lineage
  import opened ScopedFrames
  import opened Resumption
  import opened FamilyPlan
  import opened FamilySteps
  import opened FamilyAgreement
  import opened FamilyHandoff
  import opened FamilyReplan

  // ---- facts about a walk in progress ----------------------------------------------------

  /** Before the walk enters a scope, none of its commits has happened. */
  lemma {:induction false} ScopeIsFresh<V>(f: Family<V>, scopes: seq<seq<Text>>, p: Progress<V>, log: seq<Step<V>>,
                                           b: Binding, rest: seq<Step<V>>)
    requires Planned(f, scopes, p) && b in f.Bindings() && log + (StepsAt(PlanOf(f, p), b.at) + rest) <= Whole(f, p)
    ensures Project(log, b.at) == []
  {
    var steps, own := Whole(f, p), StepsAt(PlanOf(f, p), b.at);
    var n := |log + (own + rest)|;
    assert steps[..n] == log + (own + rest);
    var i :| 0 <= i < |f.Bindings()| && f.Bindings()[i] == b;
    WalkExecutesPlanExactlyOnce(f, scopes, p, i);
    PrefixProjection(steps, n, b.at);
    ProjectConcat(log, own + rest, b.at);
    ProjectConcat(own, rest, b.at);
    ProjectOwn(own, b.at);
  }

  lemma {:induction false} WalkRunsAt<V>(f: Family<V>, scopes: seq<seq<Text>>, p: Progress<V>, log: seq<Step<V>>,
                                         step: Step<V>)
    requires Planned(f, scopes, p) && log + [step] <= Whole(f, p)
    ensures step.At() in Ats(f.Bindings())
    ensures RunLocal(f.PartAt(step.At()), Project(log + [step], step.At())).Some?
  {
    PlanLineage(f, scopes, p);
    var n := |log| + 1;
    assert Whole(f, p)[..n] == log + [step];
    assert Whole(f, p)[n - 1] == step;
    WalkStaysInFamily(f, p, step);
    PrefixExecutesAt(f, scopes, p, n, step.At());
  }

  lemma {:induction false} OwnStepExtends<V>(f: Family<V>, log: seq<Step<V>>, step: Step<V>, part: Part<V>)
    requires PartAfter(f, log, step.At(), part)
    requires RunLocal(f.PartAt(step.At()), Project(log + [step], step.At())).Some?
    ensures ApplyStep(part, step).Some?
    ensures PartAfter(f, log + [step], step.At(), ApplyStep(part, step).value)
  {
    OwnSteps(map[step.At() := f.PartAt(step.At())], log, step, step.At());
  }

  /** The next commit of the walk is always admissible where it is due. */
  lemma {:induction false} NextStepExecutes<V>(f: Family<V>, scopes: seq<seq<Text>>, p: Progress<V>, log: seq<Step<V>>,
                                               step: Step<V>, part: Part<V>)
    requires Planned(f, scopes, p) && log + [step] <= Whole(f, p) && PartAfter(f, log, step.At(), part)
    ensures step.At() in Ats(f.Bindings())
    ensures ApplyStep(part, step).Some?
    ensures PartAfter(f, log + [step], step.At(), ApplyStep(part, step).value)
  {
    WalkRunsAt(f, scopes, p, log, step);
    OwnStepExtends(f, log, step, part);
  }

  lemma {:induction false} OthersUnchanged<V>(f: Family<V>, log: seq<Step<V>>, step: Step<V>, at: ScopeRun,
                                              part: Part<V>)
    requires PartAfter(f, log, at, part) && at != step.At()
    ensures PartAfter(f, log + [step], at, part)
  {
    OwnSteps(map[at := f.PartAt(at)], log, step, at);
  }

  /** Exactly the nested scopes have a parent, whatever was committed. */
  lemma {:induction false} NestedHasParent<V>(f: Family<V>, scopes: seq<seq<Text>>, p: Progress<V>, k: nat, i: nat,
                                              part: Part<V>)
    requires Planned(f, scopes, p) && k <= |Whole(f, p)| && i < |f.Bindings()|
    requires PartAfter(f, Whole(f, p)[..k], f.Bindings()[i].at, part)
    ensures part.state.parent.Some? <==> f.Bindings()[i].at != f.RootAt()
  {
    PlanIsAdmitted(f, scopes, p);
    ScopeAfterPrefix(f, scopes, p, k, i, part);
    FamilyIsCanonical(f);
    NestedParent(f.graph, f.Bindings(), i);
  }

  lemma {:induction false} NestedParent(graph: Graph, bs: seq<Binding>, i: nat)
    requires CanonicalLineage(bs) && Plannable(graph, bs) && i < |bs|
    ensures bs[i].state.parent.Some? <==> bs[i].at != bs[0].at
  {
    assert FenceAdmissible(graph, bs, bs[i]);
  }

  lemma {:induction false} VisitAllPrefix(bs: seq<Binding>, b: Binding, cs: seq<Binding>, n: nat)
    requires b in bs && n <= |cs| && forall c :: c in cs ==> c in bs && |c.at.scope| == |b.at.scope| + 1
    ensures VisitAll(bs, b, cs[..n]) <= VisitAll(bs, b, cs)
  {
    if n == |cs| {
      assert cs[..n] == cs;
    } else {
      VisitAllPrefix(bs, b, cs[..|cs| - 1], n);
      assert cs[..|cs| - 1][..n] == cs[..n];
    }
  }

  lemma {:induction false} FlattenPrefix<V>(plan: Plan<V>, a: seq<Binding>, b: seq<Binding>)
    requires a <= b
    ensures Flatten(plan, a) <= Flatten(plan, b)
  {
    FlattenConcat(plan, a, b[|a|..]);
    assert a + b[|a|..] == b;
  }

  lemma {:induction false} FlattenVisit<V>(plan: Plan<V>, bs: seq<Binding>, b: Binding)
    requires b in bs
    ensures Flatten(plan, Visit(bs, b)) == StepsAt(plan, b.at) + Flatten(plan, VisitAll(bs, b, RunningChildren(bs, b)))
  {
    FlattenConcat(plan, [b], VisitAll(bs, b, RunningChildren(bs, b)));
    assert Flatten(plan, [b]) == StepsAt(plan, b.at) by {
      assert [b][..0] == [];
    }
  }

  lemma {:induction false} RunningChildrenPrefix(bs: seq<Binding>, b: Binding, n: nat)
    requires n <= |bs|
    ensures RunningChildren(bs[..n], b) <= RunningChildren(bs, b)
  {
    if n == |bs| {
      assert bs[..n] == bs;
    } else {
      RunningChildrenPrefix(bs[..|bs| - 1], b, n);
      assert bs[..|bs| - 1][..n] == bs[..n];
    }
  }

  /** The commits of the children visited so far extend by those of the next child. */
  lemma {:induction false} NextChild<V>(plan: Plan<V>, bs: seq<Binding>, b: Binding, n: nat)
    requires b in bs && n < |bs|
    ensures var done, next := RunningChildren(bs[..n], b), RunningChildren(bs[..n + 1], b);
            && (forall c :: c in done || c in next ==> c in bs && |c.at.scope| == |b.at.scope| + 1)
            && Flatten(plan, VisitAll(bs, b, next)) <= Flatten(plan, VisitAll(bs, b, RunningChildren(bs, b)))
            && (IsRunningChild(b, bs[n]) ==>
                  |b.at.scope| < |bs[n].at.scope| <= Depth(bs) &&
                  Flatten(plan, VisitAll(bs, b, next))
                  == Flatten(plan, VisitAll(bs, b, done)) + Flatten(plan, Visit(bs, bs[n])))
            && (!IsRunningChild(b, bs[n]) ==> next == done)
  {
    var all, done, next := RunningChildren(bs, b), RunningChildren(bs[..n], b), RunningChildren(bs[..n + 1], b);
    assert bs[..n + 1][..n] == bs[..n];
    RunningChildrenPrefix(bs, b, n + 1);
    RunningChildrenPrefix(bs, b, n);
    assert next == all[..|next|];
    VisitAllPrefix(bs, b, all, |next|);
    FlattenPrefix(plan, VisitAll(bs, b, next), VisitAll(bs, b, all));
    if IsRunningChild(b, bs[n]) {
      assert bs[n] in bs && bs[n] in next;
      assert next[..|next| - 1] == done;
      FlattenConcat(plan, VisitAll(bs, b, done), Visit(bs, bs[n]));
    }
  }

  // ---- the evidence adapter --------------------------------------------------------------

  datatype Entry<+V> = Entry(evidence: Evidence, frames: Index<V>)

  ghost predicate EntryFor<V>(f: Family<V>, log: seq<Step<V>>, e: Evidence, entry: Entry<V>) {
    if e.Bound? then
      && entry.evidence.Bound? && entry.evidence.binding.at == e.At()
      && PartAfter(f, log, e.At(), Part(entry.evidence.binding.state, entry.frames))
    else entry == Entry(e, EmptyIndex())
  }

  /** The adapter holds, for every child coordinate, what the commits so far made of it. */
  ghost predicate Entries<V>(f: Family<V>, log: seq<Step<V>>, entries: map<ScopeRun, Entry<V>>) {
    && (forall at :: at in entries <==> at in EvidenceAts(f.runs))
    && (forall i :: 0 <= i < |f.runs| ==>
                      f.runs[i].At() in entries && EntryFor(f, log, f.runs[i], entries[f.runs[i].At()]))
  }

  function InitialEntry<V>(f: Family<V>, at: ScopeRun): (entry: Entry<V>) {
    var b := ChildAt(f.Children(), at);
    if b.None? then Entry(Uncreated(at), EmptyIndex()) else Entry(Bound(b.value), f.OwnerFrames(at))
  }

  lemma {:induction false} OwnerFramesSelected<V>(f: Family<V>, at: ScopeRun)
    requires FramesBelong(f)
    ensures FramesForOwner(f.frames, f.Children(), at) == Some(f.OwnerFrames(at))
  {
    forall i | 0 <= i < |f.frames.boundaries|
      ensures ChildAt(f.Children(), f.frames.boundaries[i].coordinate.Child()).Some?
    {
      var r := f.frames.boundaries[i];
      assert r in f.frames.boundaries;
      assert f.Owner()(r.coordinate).Some?;
    }
  }

  lemma {:induction false} InitialEntries<V>(f: Family<V>)
    requires Admitted(f)
    ensures Entries(f, [], map at | at in EvidenceAts(f.runs) :: InitialEntry(f, at))
  {
    forall i | 0 <= i < |f.runs|
      ensures f.runs[i].At() in EvidenceAts(f.runs) && EntryFor(f, [], f.runs[i], InitialEntry(f, f.runs[i].At()))
    {
      assert EvidenceAts(f.runs)[i] == f.runs[i].At();
      InitialEntryFor(f, i);
    }
  }

  lemma {:induction false} InitialEntryFor<V>(f: Family<V>, i: nat)
    requires LineageStates(f.root, f.runs).Some? && i < |f.runs|
    ensures EntryFor(f, [], f.runs[i], InitialEntry(f, f.runs[i].At()))
  {
    var e := f.runs[i];
    if e.Bound? {
      assert e.binding in f.Children();
      ChildBinding(f, e.binding);
    } else {
      EvidenceOwners(f);
      var b := ChildAt(f.Children(), e.At());
      if b.Some? {
        ChildIsBound(f, b.value);
      }
    }
  }

  lemma {:induction false} ChildBinding<V>(f: Family<V>, b: Binding)
    requires LineageStates(f.root, f.runs).Some? && b in f.Children()
    ensures ChildAt(f.Children(), b.at) == Some(b)
    ensures f.PartAt(b.at) == Part(b.state, f.OwnerFrames(b.at))
  {
    FamilyIsCanonical(f);
    var k :| 0 <= k < |f.Children()| && f.Children()[k] == b;
    ChildPosition(f, k);
    SameChildAt(f, b, k);
  }

  lemma {:induction false} ChildPosition<V>(f: Family<V>, k: nat)
    requires Ascending(ScopeRunLess, Ats(f.Bindings())) && k < |f.Children()|
    ensures Position(f.Bindings(), f.Children()[k].at) == Some(k + 1)
    ensures BindingAt(f.Bindings(), f.Children()[k].at) == Some(f.Children()[k])
  {
    assert f.Bindings()[k + 1] == f.Children()[k];
    PositionSpec(f.Bindings(), k + 1);
  }

  lemma {:induction false} SameChildAt<V>(f: Family<V>, b: Binding, k: nat)
    requires Ascending(ScopeRunLess, Ats(f.Bindings())) && k < |f.Children()| && f.Children()[k] == b
    ensures ChildAt(f.Children(), b.at) == Some(b)
  {
    var c := ChildAt(f.Children(), b.at).value;
    var j :| 0 <= j < |f.Children()| && f.Children()[j] == c;
    ChildPosition(f, j);
    ChildPosition(f, k);
  }

  lemma {:induction false} EntryAdvance<V>(f: Family<V>, log: seq<Step<V>>, step: Step<V>, e: Evidence, entry: Entry<V>)
    requires EntryFor(f, log, e, entry) && (e.Bound? ==> e.At() != step.At())
    ensures EntryFor(f, log + [step], e, entry)
  {
    if e.Bound? {
      OthersUnchanged(f, log, step, e.At(), Part(entry.evidence.binding.state, entry.frames));
    }
  }

  lemma {:induction false} RootAdvance<V>(f: Family<V>, log: seq<Step<V>>, step: Step<V>,
                                          entries: map<ScopeRun, Entry<V>>)
    requires LineageStates(f.root, f.runs).Some? && Entries(f, log, entries) && step.At() == f.RootAt()
    ensures Entries(f, log + [step], entries)
  {
    DistinctEvidence(f);
    forall i | 0 <= i < |f.runs|
      ensures EntryFor(f, log + [step], f.runs[i], entries[f.runs[i].At()])
    {
      assert EvidenceAts(f.runs)[i] == f.runs[i].At();
      EntryAdvance(f, log, step, f.runs[i], entries[f.runs[i].At()]);
    }
  }

  lemma {:induction false} ChildAdvance<V>(f: Family<V>, log: seq<Step<V>>, step: Step<V>,
                                           entries: map<ScopeRun, Entry<V>>, part: Part<V>)
    requires LineageStates(f.root, f.runs).Some? && Entries(f, log, entries)
    requires step.At() in Ats(f.Bindings()) && step.At() != f.RootAt() && PartAfter(f, log + [step], step.At(), part)
    ensures Entries(f, log + [step], entries[step.At() := Entry(Bound(Binding(step.At(), part.state)), part.frames)])
  {
    var entry := Entry(Bound(Binding(step.At(), part.state)), part.frames);
    var j := BoundHasEvidence(f, step.At());
    forall i | 0 <= i < |f.runs|
      ensures EntryFor(f, log + [step], f.runs[i], if f.runs[i].At() == step.At() then entry
                       else entries[f.runs[i].At()])
    {
      ChildAdvanceAt(f, log, step, entries, part, i);
    }
    EntriesUpdate(f, log + [step], entries, step.At(), entry, j);
  }

  lemma {:induction false} EntriesUpdate<V>(f: Family<V>, log: seq<Step<V>>, entries: map<ScopeRun, Entry<V>>,
                                            at: ScopeRun, entry: Entry<V>, j: nat)
    requires forall at :: at in entries <==> at in EvidenceAts(f.runs)
    requires j < |f.runs| && EvidenceAts(f.runs)[j] == at
    requires forall i :: 0 <= i < |f.runs| ==> f.runs[i].At() in entries
    requires forall i :: 0 <= i < |f.runs| ==>
                           EntryFor(f, log, f.runs[i], if f.runs[i].At() == at then entry else entries[f.runs[i].At()])
    ensures Entries(f, log, entries[at := entry])
  {
    assert at in EvidenceAts(f.runs);
  }

  lemma {:induction false} ChildAdvanceAt<V>(f: Family<V>, log: seq<Step<V>>, step: Step<V>,
                                             entries: map<ScopeRun, Entry<V>>, part: Part<V>, i: nat)
    requires LineageStates(f.root, f.runs).Some? && i < |f.runs|
    requires f.runs[i].At() in entries && EntryFor(f, log, f.runs[i], entries[f.runs[i].At()])
    requires step.At() in Ats(f.Bindings()) && PartAfter(f, log + [step], step.At(), part)
    ensures EntryFor(f, log + [step], f.runs[i],
                     if f.runs[i].At() == step.At() then Entry(Bound(Binding(step.At(), part.state)), part.frames)
                     else entries[f.runs[i].At()])
  {
    if f.runs[i].At() == step.At() {
      BoundEvidence(f, i);
    } else {
      EntryAdvance(f, log, step, f.runs[i], entries[f.runs[i].At()]);
    }
  }

  lemma {:induction false} BoundEvidence<V>(f: Family<V>, i: nat)
    requires LineageStates(f.root, f.runs).Some? && i < |f.runs| && f.runs[i].At() in Ats(f.Bindings())
    ensures f.runs[i].Bound?
  {
    EvidenceOwners(f);
  }

  /** `sorted(entries)`. */
  method SortedKeys(keys: set<ScopeRun>) returns (s: seq<ScopeRun>)
    ensures Ascending(ScopeRunLess, s)
    ensures forall k :: k in s <==> k in keys
  {
    s := [];
    var rest := keys;
    while rest != {}
      invariant rest <= keys && Ascending(ScopeRunLess, s)
      invariant forall k :: k in s <==> k in keys && k !in rest
      decreases |rest|
    {
      var k :| k in rest;
      var p := Bisect(ScopeRunLess, s, k, 0, |s|);
      ScopeRunOrder();
      InsertAscending(ScopeRunLess, s, k);
      SplitMembers(s, p, k);
      s := s[..p] + [k] + s[p..];
      rest := rest - {k};
    }
  }

  lemma {:induction false} ReadEntry<V>(f: Family<V>, log: seq<Step<V>>, entries: map<ScopeRun, Entry<V>>,
                                        parts: map<ScopeRun, Part<V>>, i: nat)
    requires Entries(f, log, entries) && PartsAfter(f, log, parts) && i < |f.runs|
    requires f.runs[i].Bound? <==> f.runs[i].At() in Ats(f.Bindings())
    ensures f.runs[i].At() in entries
    ensures entries[f.runs[i].At()].evidence == EvidenceOf(f.runs, parts)[i]
    ensures entries[f.runs[i].At()].frames == FramesOf(f.runs, parts)[i]
  {
    assert EntryFor(f, log, f.runs[i], entries[f.runs[i].At()]);
  }

  /** Reading the adapter in coordinate order gives the child evidence and frames of the walk so far. */
  lemma {:induction false} ReadEntries<V>(f: Family<V>, log: seq<Step<V>>, entries: map<ScopeRun, Entry<V>>,
                                          parts: map<ScopeRun, Part<V>>, keys: seq<ScopeRun>)
    requires LineageStates(f.root, f.runs).Some? && Entries(f, log, entries) && PartsAfter(f, log, parts)
    requires Ascending(ScopeRunLess, keys) && forall k :: k in keys <==> k in entries
    ensures keys == EvidenceAts(f.runs)
    ensures forall i :: 0 <= i < |keys| ==>
                          && entries[keys[i]].evidence == EvidenceOf(f.runs, parts)[i]
                          && entries[keys[i]].frames == FramesOf(f.runs, parts)[i]
  {
    LineageIsCanonical(f.root, f.runs);
    ScopeRunOrder();
    AscendingUnique(ScopeRunLess, keys, EvidenceAts(f.runs));
    EvidenceOwners(f);
    forall i | 0 <= i < |keys|
      ensures entries[keys[i]].evidence == EvidenceOf(f.runs, parts)[i]
      ensures entries[keys[i]].frames == FramesOf(f.runs, parts)[i]
    {
      ReadEntry(f, log, entries, parts, i);
    }
  }

  lemma {:induction false} InstalledParent<V>(f: Family<V>, scopes: seq<seq<Text>>, p: Progress<V>, log: seq<Step<V>>,
                                              at: ScopeRun, part: Part<V>)
    requires Planned(f, scopes, p) && log <= Whole(f, p) && at in Ats(f.Bindings()) && PartAfter(f, log, at, part)
    ensures part.state.parent.Some? <==> at != f.RootAt()
  {
    var i :| 0 <= i < |Ats(f.Bindings())| && Ats(f.Bindings())[i] == at;
    assert Whole(f, p)[..|log|] == log;
    NestedHasParent(f, scopes, p, |log|, i, part);
  }

  lemma {:induction false} InitialOwners<V>(f: Family<V>, scopes: seq<seq<Text>>, p: Progress<V>)
    requires Planned(f, scopes, p)
    ensures Entries(f, [], map at | at in EvidenceAts(f.runs) :: InitialEntry(f, at))
    ensures PartAfter(f, [], f.RootAt(), Part(f.root, f.OwnerFrames(f.RootAt())))
    ensures f.RootAt() in Ats(f.Bindings())
  {
    PlanIsAdmitted(f, scopes, p);
    InitialEntries(f);
    FamilyIsCanonical(f);
    PositionSpec(f.Bindings(), 0);
    EvidenceOwners(f);
  }

  /** What installing the next commit does to the root and to the evidence. */
  lemma {:induction false} StepInstalls<V>(f: Family<V>, scopes: seq<seq<Text>>, p: Progress<V>, log: seq<Step<V>>,
                                           step: Step<V>,
                                           entries: map<ScopeRun, Entry<V>>, rootPart: Part<V>, part: Part<V>)
    returns (after: Part<V>)
    requires Planned(f, scopes, p) && log + [step] <= Whole(f, p)
    requires Entries(f, log, entries) && PartAfter(f, log, f.RootAt(), rootPart) && PartAfter(f, log, step.At(), part)
    ensures ApplyStep(part, step) == Some(after) && PartAfter(f, log + [step], step.At(), after)
    ensures after.state.parent.Some? <==> step.At() != f.RootAt()
    ensures step.At() == f.RootAt() ==> Entries(f, log + [step], entries)
    ensures step.At() != f.RootAt() ==>
              && PartAfter(f, log + [step], f.RootAt(), rootPart)
              && Entries(f, log + [step],
                         entries[step.At() := Entry(Bound(Binding(step.At(), after.state)), after.frames)])
  {
    PlanLineage(f, scopes, p);
    NextStepExecutes(f, scopes, p, log, step, part);
    after := ApplyStep(part, step).value;
    InstalledParent(f, scopes, p, log + [step], step.At(), after);
    if step.At() == f.RootAt() {
      RootAdvance(f, log, step, entries);
    } else {
      ChildAdvance(f, log, step, entries, after);
      OthersUnchanged(f, log, step, f.RootAt(), rootPart);
    }
  }

  // ---- a walk in progress ----------------------------------------------------------------

  ghost predicate WalkFacts<V>(f: Family<V>, scopes: seq<seq<Text>>, p: Progress<V>, whole: seq<Step<V>>,
                               log: seq<Step<V>>, entries: map<ScopeRun, Entry<V>>, rootPart: Part<V>) {
    && Planned(f, scopes, p) && whole == Whole(f, p)
    && log <= whole
    && Entries(f, log, entries)
    && PartAfter(f, log, f.RootAt(), rootPart)
  }

  /** The commits confirmed so far are a prefix of the walk, and root and evidence hold what they made. */
  ghost predicate Walk<V>(f: Family<V>, scopes: seq<seq<Text>>, p: Progress<V>, whole: seq<Step<V>>,
                          log: seq<Step<V>>, entries: map<ScopeRun, Entry<V>>, rootPart: Part<V>) {
    forall s: Seal :: s.Broken() ==> WalkFacts(f, scopes, p, whole, log, entries, rootPart)
  }

  /** An owner holds what the commits so far made of its scope. */
  ghost predicate Held<V>(f: Family<V>, log: seq<Step<V>>, at: ScopeRun, part: Part<V>) {
    forall s: Seal :: s.Broken() ==> at in Ats(f.Bindings()) && PartAfter(f, log, at, part)
  }

  lemma {:induction false} OpenWalk<V>(f: Family<V>, scopes: seq<seq<Text>>, p: Progress<V>, whole: seq<Step<V>>,
                                       log: seq<Step<V>>, entries: map<ScopeRun, Entry<V>>, rootPart: Part<V>)
    requires Walk(f, scopes, p, whole, log, entries, rootPart)
    ensures WalkFacts(f, scopes, p, whole, log, entries, rootPart)
  {
    assert Seal.Seal.Broken();
  }

  lemma {:induction false} BeginWalk<V>(f: Family<V>, scopes: seq<seq<Text>>, p: Progress<V>)
    requires Planned(f, scopes, p)
    ensures Walk(f, scopes, p, Whole(f, p), [], map at | at in EvidenceAts(f.runs) :: InitialEntry(f, at),
                 Part(f.root, f.OwnerFrames(f.RootAt())))
    ensures Held(f, [], f.RootAt(), Part(f.root, f.OwnerFrames(f.RootAt())))
  {
    InitialOwners(f, scopes, p);
  }

  /** The evidence after a commit: a child hands off its new state and frames, the root does not. */
  function Published<V>(entries: map<ScopeRun, Entry<V>>, at: ScopeRun, part: Part<V>): (r: map<ScopeRun, Entry<V>>) {
    if part.state.parent.Some? then entries[at := Entry(Bound(Binding(at, part.state)), part.frames)] else entries
  }

  lemma {:induction false} WalkStep<V>(f: Family<V>, scopes: seq<seq<Text>>, p: Progress<V>, whole: seq<Step<V>>,
                                       log: seq<Step<V>>, entries: map<ScopeRun, Entry<V>>, rootPart: Part<V>,
                                       step: Step<V>, part: Part<V>)
    returns (after: Part<V>)
    requires Walk(f, scopes, p, whole, log, entries, rootPart) && Held(f, log, step.At(), part) && log + [step] <= whole
    requires step.At() == f.RootAt() ==> part == rootPart
    ensures ApplyStep(part, step) == Some(after) && Held(f, log + [step], step.At(), after)
    ensures Walk(f, scopes, p, whole, log + [step], Published(entries, step.At(), after),
                 if step.At() == f.RootAt() then after else rootPart)
  {
    OpenWalk(f, scopes, p, whole, log, entries, rootPart);
    assert Seal.Seal.Broken();
    after := StepInstalls(f, scopes, p, log, step, entries, rootPart, part);
  }

  /** A child owner built when the walk enters its scope holds what the walk has made of it: nothing. */
  lemma {:induction false} NewOwner<V>(f: Family<V>, scopes: seq<seq<Text>>, p: Progress<V>, whole: seq<Step<V>>,
                                       log: seq<Step<V>>, entries: map<ScopeRun, Entry<V>>, rootPart: Part<V>,
                                       c: Binding, rest: seq<Step<V>>)
    requires Walk(f, scopes, p, whole, log, entries, rootPart) && c in f.Children()
    requires log + (StepsAt(PlanOf(f, p), c.at) + rest) <= whole
    ensures FramesForOwner(f.frames, f.Children(), c.at) == Some(f.OwnerFrames(c.at))
    ensures c.at != f.RootAt() && Held(f, log, c.at, Part(c.state, f.OwnerFrames(c.at)))
  {
    OpenWalk(f, scopes, p, whole, log, entries, rootPart);
    PlanIsAdmitted(f, scopes, p);
    OwnerFramesSelected(f, c.at);
    ScopeIsFresh(f, scopes, p, log, c, rest);
    ChildBinding(f, c);
    ChildIsBound(f, c);
    ChildIsNested(f, c);
  }

  lemma {:induction false} ChildIsNested<V>(f: Family<V>, c: Binding)
    requires LineageStates(f.root, f.runs).Some? && c in f.Children()
    ensures c.at != f.RootAt()
  {
    FamilyIsCanonical(f);
    var k :| 0 <= k < |f.Children()| && f.Children()[k] == c;
    assert f.Bindings()[k + 1] == c;
  }

  /** A frozen family is the continuation of the confirmed commits: the states they reached, the
      original frames with the inputs of the confirmed resumes, and the unconfirmed fences still to plan. */
  ghost predicate Frozen<V>(f: Family<V>, log: seq<Step<V>>, g: Family<V>) {
    forall s: Seal :: s.Broken() ==> FrozenFacts(f, log, g)
  }

  ghost predicate FrozenFacts<V>(f: Family<V>, log: seq<Step<V>>, g: Family<V>) {
    && RunSteps(f.Parts(), log).Some?
    && Handoff(f, RunSteps(f.Parts(), log).value).Some?
    && g == Continuation(f, RunSteps(f.Parts(), log).value, Handoff(f, RunSteps(f.Parts(), log).value).value)
    && ResumedBy(f.frames, log, g.frames)
    && Admitted(g)
    && FenceList(g.Bindings()) == Unconfirmed(FenceList(f.Bindings()), log)
  }

  lemma {:induction false} FreezePrefix<V>(f: Family<V>, scopes: seq<seq<Text>>, p: Progress<V>, k: nat)
    returns (parts: map<ScopeRun, Part<V>>, out: Index<V>)
    requires Planned(f, scopes, p) && k <= |Whole(f, p)|
    ensures PartsAfter(f, Whole(f, p)[..k], parts) && Handoff(f, parts) == Some(out)
    ensures Frozen(f, Whole(f, p)[..k], Continuation(f, parts, out))
  {
    parts, out := PrefixHandoff(f, scopes, p, k);
    ContinuationIsAdmitted(f, scopes, p, k, parts, out);
  }

  lemma {:induction false} FreezeLog<V>(f: Family<V>, scopes: seq<seq<Text>>, p: Progress<V>, log: seq<Step<V>>)
    returns (parts: map<ScopeRun, Part<V>>, out: Index<V>)
    requires Planned(f, scopes, p) && log <= Whole(f, p)
    ensures PartsAfter(f, log, parts) && Handoff(f, parts) == Some(out)
    ensures Frozen(f, log, Continuation(f, parts, out))
  {
    var done := Whole(f, p)[..|log|];
    parts, out := FreezePrefix(f, scopes, p, |log|);
    assert done == log;
  }

  /** Freezing a walk in progress: the continuation of its confirmed prefix. */
  lemma {:induction false} FreezeWalk<V>(f: Family<V>, scopes: seq<seq<Text>>, p: Progress<V>, whole: seq<Step<V>>,
                                         log: seq<Step<V>>, entries: map<ScopeRun, Entry<V>>, rootPart: Part<V>)
    returns (parts: map<ScopeRun, Part<V>>, out: Index<V>)
    requires Walk(f, scopes, p, whole, log, entries, rootPart)
    ensures LineageStates(f.root, f.runs).Some? && Entries(f, log, entries) && PartsAfter(f, log, parts)
    ensures Handoff(f, parts) == Some(out) && f.RootAt() in parts && parts[f.RootAt()] == rootPart
    ensures Frozen(f, log, Continuation(f, parts, out))
  {
    OpenWalk(f, scopes, p, whole, log, entries, rootPart);
    PlanLineage(f, scopes, p);
    parts, out := FreezeLog(f, scopes, p, log);
    RootIsHeld(f, log, parts, rootPart);
  }

  lemma {:induction false} RootIsHeld<V>(f: Family<V>, log: seq<Step<V>>, parts: map<ScopeRun, Part<V>>,
                                         rootPart: Part<V>)
    requires PartsAfter(f, log, parts) && PartAfter(f, log, f.RootAt(), rootPart)
    ensures f.RootAt() in parts && parts[f.RootAt()] == rootPart
  {
    ChildIsBound(f, Binding(f.RootAt(), f.root));
    assert f.RootAt() in f.Parts().Keys;
    assert PartAfter(f, log, f.RootAt(), parts[f.RootAt()]);
  }

  function ReadRuns<V>(entries: map<ScopeRun, Entry<V>>, keys: seq<ScopeRun>): (runs: seq<Evidence>)
    requires forall i :: 0 <= i < |keys| ==> keys[i] in entries
    ensures |runs| == |keys| && forall i :: 0 <= i < |keys| ==> runs[i] == entries[keys[i]].evidence
  {
    seq(|keys|, i requires 0 <= i < |keys| => entries[keys[i]].evidence)
  }

  function ReadFrames<V>(entries: map<ScopeRun, Entry<V>>, keys: seq<ScopeRun>): (frames: seq<Index<V>>)
    requires forall i :: 0 <= i < |keys| ==> keys[i] in entries
    ensures |frames| == |keys| && forall i :: 0 <= i < |keys| ==> frames[i] == entries[keys[i]].frames
  {
    seq(|keys|, i requires 0 <= i < |keys| => entries[keys[i]].frames)
  }

  /** What the reader assembles from the evidence is the continuation of the confirmed commits. */
  lemma {:induction false} ReadIsContinuation<V>(f: Family<V>, log: seq<Step<V>>, entries: map<ScopeRun, Entry<V>>,
                                                 parts: map<ScopeRun, Part<V>>, out: Index<V>, keys: seq<ScopeRun>)
    requires LineageStates(f.root, f.runs).Some? && Entries(f, log, entries) && PartsAfter(f, log, parts)
    requires Handoff(f, parts) == Some(out) && f.RootAt() in parts
    requires Ascending(ScopeRunLess, keys) && (forall k :: k in keys <==> k in entries)
    requires forall i :: 0 <= i < |keys| ==> keys[i] in entries
    ensures MergeFrames(ReadFrames(entries, keys)).Some?
    ensures MergeFrames([parts[f.RootAt()].frames, MergeFrames(ReadFrames(entries, keys)).value]) == Some(out)
    ensures Family(f.graph, parts[f.RootAt()].state, ReadRuns(entries, keys), out) == Continuation(f, parts, out)
  {
    ReadIsEvidence(f, log, entries, parts, keys);
    MergedRead(f, parts, out);
  }

  lemma {:induction false} ReadIsEvidence<V>(f: Family<V>, log: seq<Step<V>>, entries: map<ScopeRun, Entry<V>>,
                                             parts: map<ScopeRun, Part<V>>, keys: seq<ScopeRun>)
    requires LineageStates(f.root, f.runs).Some? && Entries(f, log, entries) && PartsAfter(f, log, parts)
    requires Ascending(ScopeRunLess, keys) && (forall k :: k in keys <==> k in entries)
    requires forall i :: 0 <= i < |keys| ==> keys[i] in entries
    ensures ReadRuns(entries, keys) == EvidenceOf(f.runs, parts) && ReadFrames(entries, keys) == FramesOf(f.runs, parts)
  {
    ReadEntries(f, log, entries, parts, keys);
    assert |EvidenceAts(f.runs)| == |f.runs|;
    SameSequence(ReadRuns(entries, keys), EvidenceOf(f.runs, parts));
    SameSequence(ReadFrames(entries, keys), FramesOf(f.runs, parts));
  }

  lemma {:induction false} MergedRead<V>(f: Family<V>, parts: map<ScopeRun, Part<V>>, out: Index<V>)
    requires Handoff(f, parts) == Some(out) && f.RootAt() in parts
    ensures MergeFrames(FramesOf(f.runs, parts)).Some?
    ensures MergeFrames([parts[f.RootAt()].frames, MergeFrames(FramesOf(f.runs, parts)).value]) == Some(out)
    ensures Family(f.graph, parts[f.RootAt()].state, EvidenceOf(f.runs, parts), out) == Continuation(f, parts, out)
  {
  }

  lemma {:induction false} SameSequence<T>(a: seq<T>, b: seq<T>)
    requires |a| == |b| && forall i :: 0 <= i < |a| ==> a[i] == b[i]
    ensures a == b
  {
  }

  lemma {:induction false} FrozenRead<V>(f: Family<V>, scopes: seq<seq<Text>>, p: Progress<V>, whole: seq<Step<V>>,
                                         log: seq<Step<V>>, entries: map<ScopeRun, Entry<V>>, rootPart: Part<V>,
                                         keys: seq<ScopeRun>)
    returns (out: Index<V>)
    requires Walk(f, scopes, p, whole, log, entries, rootPart)
    requires Ascending(ScopeRunLess, keys) && forall k :: k in keys <==> k in entries
    ensures forall i :: 0 <= i < |keys| ==> keys[i] in entries
    ensures MergeFrames(ReadFrames(entries, keys)).Some?
    ensures MergeFrames([rootPart.frames, MergeFrames(ReadFrames(entries, keys)).value]) == Some(out)
    ensures Frozen(f, log, Family(f.graph, rootPart.state, ReadRuns(entries, keys), out))
  {
    forall i | 0 <= i < |keys|
      ensures keys[i] in entries
    {
      assert keys[i] in keys;
    }
    var parts;
    parts, out := FreezeWalk(f, scopes, p, whole, log, entries, rootPart);
    ReadIsContinuation(f, log, entries, parts, out, keys);
  }
}
