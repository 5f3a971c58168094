/** The admission walk over a fallible commit port, with the owners and the evidence it updates. */
module FamilyDriver {
  import opened Sorted
  import opened FrameIndex
  import opened GraphState
  import opened Lineage
  import opened ScopedFrames
  import opened Resumption
  import opened ResumeAcceptance
  import opened FamilyPlan
  import opened FamilySteps
  import opened FamilyAgreement
  import opened FamilyHandoff
  import opened FamilyReplan
  import opened FamilyEvidence
  import opened FamilyResubmission

  /** The sole live owner of one scoped run. */
  class GraphRun<V> {
    const at: ScopeRun
    var state: State
    var frames: Index<V>

    constructor (at: ScopeRun, state: State, frames: Index<V>)
      ensures this.at == at && this.state == state && this.frames == frames
    {
      this.at := at;
      this.state := state;
      this.frames := frames;
    }

    function Now(): (part: Part<V>)
      reads this
    {
      Part(state, frames)
    }
  }

  /** `Handed`: the owners are handed over. `Raised`: the error or cancellation surfaces and nothing else
      comes back. `PartialCommit`: a continuation comes back with the scope the failure is reported for. */
  datatype AdmissionResult<+V> =
    | Handed
    | Raised
    | PartialCommit(continuation: Family<V>, failedScope: seq<Text>)

  // ---- the commit port and its endings ---------------------------------------------------

  /** How one commit ends for its caller: confirmed, confirmed although the caller was cancelled meanwhile
      (the cancellation surfaces after the installation), or not confirmed. */
  datatype Answer = Confirmed | ConfirmedThenCancelled | Declined

  /** How an admission of `n` commits ends: everything confirmed; the failure surfaces alone after so many
      confirmed commits; or a continuation of the confirmed commits comes back, naming one commit. */
  datatype Ending = AllConfirmed | Surfaced(confirmed: nat) | HandedBack(confirmed: nat, named: nat)

  ghost predicate Smooth(port: nat -> Answer, n: nat) {
    forall i :: 0 <= i < n ==> port(i) == Confirmed
  }

  /** How many commits are confirmed if the first one that does not return normally is the `k`-th. */
  function ConfirmedBy(port: nat -> Answer, k: nat): (n: nat) {
    if port(k) == Declined then k else k + 1
  }

  function EndingFrom(port: nat -> Answer, n: nat, k: nat): (e: Ending)
    requires k <= n
    ensures e.Surfaced? ==> e.confirmed <= n
    ensures e.HandedBack? ==> e.confirmed <= n && e.named < n
    decreases n - k
  {
    if k == n then AllConfirmed
    else if port(k) == Confirmed then EndingFrom(port, n, k + 1)
    else if k == 0 then Surfaced(ConfirmedBy(port, 0))
    else HandedBack(ConfirmedBy(port, k), k)
  }

  lemma {:induction false} EndingSkips(port: nat -> Answer, n: nat, k: nat)
    requires k <= n && Smooth(port, k)
    ensures EndingFrom(port, n, 0) == EndingFrom(port, n, k)
  {
    if k > 0 {
      EndingSkips(port, n, k - 1);
    }
  }

  lemma {:induction false} FirstStop(port: nat -> Answer, n: nat, k: nat) returns (j: nat)
    requires k <= n && Smooth(port, k)
    ensures k <= j <= n && Smooth(port, j) && (j < n ==> port(j) != Confirmed)
    decreases n - k
  {
    j := k;
    if k < n && port(k) == Confirmed {
      j := FirstStop(port, n, k + 1);
    }
  }

  /** A continuation comes back exactly when at least one commit returned normally and not all did. It
      names the first unconfirmed commit exactly when the stop was a failure; after a cancellation it names
      the last confirmed one. */
  lemma {:induction false} ContinuationComesBackIff(port: nat -> Answer, n: nat)
    ensures var e := EndingFrom(port, n, 0);
            && (e.AllConfirmed? <==> Smooth(port, n))
            && (e.HandedBack? <==> n > 0 && port(0) == Confirmed && !Smooth(port, n))
            && (e.HandedBack? ==>
                  && 0 < e.named < n && Smooth(port, e.named) && port(e.named) != Confirmed
                  && e.named == if port(e.named) == Declined then e.confirmed else e.confirmed - 1)
            && (e.Surfaced? ==> e.confirmed == if port(0) == Declined then 0 else 1)
  {
    var j := FirstStop(port, n, 0);
    EndingSkips(port, n, j);
  }

  /** The promise that a confirmed prefix comes back as a continuation: kept exactly when the first commit
      is not the one during which the caller is cancelled. */
  lemma {:induction false} ConfirmedPrefixComesBackIff(port: nat -> Answer, n: nat)
    requires n > 0
    ensures (EndingFrom(port, n, 0).Surfaced? ==> EndingFrom(port, n, 0).confirmed == 0)
       <==> port(0) != ConfirmedThenCancelled
  {
    ContinuationComesBackIff(port, n);
    assert Smooth(port, n) ==> port(0) == Confirmed;
  }

  /** The failing input: cancelled during its first commit, a walk has confirmed one commit and hands back
      nothing. */
  lemma {:induction false} FirstCommitCancelled(n: nat)
    requires n > 0
    ensures EndingFrom((i: nat) => ConfirmedThenCancelled, n, 0) == Surfaced(1)
  {
    ContinuationComesBackIff((i: nat) => ConfirmedThenCancelled, n);
  }

  // ---- the walk in terms of its port -----------------------------------------------------

  /** The commits confirmed so far, the commits asked of the port, the scope reported as failed, whether any
      commit was attempted and whether any returned normally. */
  datatype Tally<+V> = Tally(log: seq<Step<V>>, calls: nat, failedScope: Option<seq<Text>>, attempted: bool,
                             prefix: bool)

  /** Every commit so far returned normally. */
  ghost predicate Going<V>(port: nat -> Answer, t: Tally<V>) {
    t.calls == |t.log| && Smooth(port, t.calls) && t.failedScope.None? && (t.prefix <==> t.calls > 0)
  }

  /** The last commit asked of the port did not return normally; all before it did. */
  ghost predicate Stopped<V>(port: nat -> Answer, whole: seq<Step<V>>, t: Tally<V>) {
    && 0 < t.calls <= |whole| && Smooth(port, t.calls - 1) && port(t.calls - 1) != Confirmed
    && t.log == whole[..ConfirmedBy(port, t.calls - 1)]
    && t.failedScope == Some(whole[t.calls - 1].At().scope) && t.attempted && (t.prefix <==> t.calls > 1)
  }

  /** What a part of the walk leaves: all its commits confirmed, or a stop. */
  ghost predicate Walked<V>(port: nat -> Answer, whole: seq<Step<V>>, before: Tally<V>, steps: seq<Step<V>>,
                            after: Tally<V>, ok: bool) {
    && (ok ==> Going(port, after) && after.log == before.log + steps
               && (after.attempted <==> before.attempted || steps != []))
    && (!ok ==> Stopped(port, whole, after))
  }

  lemma {:induction false} WalkedJoin<V>(port: nat -> Answer, whole: seq<Step<V>>, t: Tally<V>, a: seq<Step<V>>,
                                         u: Tally<V>,
                                         b: seq<Step<V>>, v: Tally<V>, ok: bool)
    requires Walked(port, whole, t, a, u, true) && Walked(port, whole, u, b, v, ok)
    ensures Walked(port, whole, t, a + b, v, ok)
  {
    assert t.log + a + b == t.log + (a + b);
  }

  lemma {:induction false} NothingWalked<V>(port: nat -> Answer, whole: seq<Step<V>>, t: Tally<V>)
    requires Going(port, t)
    ensures Walked(port, whole, t, [], t, true)
  {
    assert t.log + [] == t.log;
  }

  /** What the walk's flags must be after one commit. */
  lemma {:induction false} OneWalked<V>(port: nat -> Answer, whole: seq<Step<V>>, t: Tally<V>, step: Step<V>,
                                        u: Tally<V>)
    requires Going(port, t) && t.log + [step] <= whole && u.calls == t.calls + 1 && u.attempted
    requires u.log == if port(t.calls) == Declined then t.log else t.log + [step]
    requires if port(t.calls) == Confirmed then u.failedScope.None? && u.prefix
             else u.failedScope == Some(step.At().scope) && u.prefix == t.prefix
    ensures Walked(port, whole, t, [step], u, port(t.calls) == Confirmed)
  {
    StepOfWhole(whole, t.log, step);
  }

  lemma {:induction false} WalkedWhole<V>(port: nat -> Answer, whole: seq<Step<V>>, start: Tally<V>, after: Tally<V>,
                                          ok: bool)
    requires start.log == [] && Walked(port, whole, start, whole, after, ok)
    ensures ok ==> after.log == whole && EndingFrom(port, |whole|, 0) == AllConfirmed
    ensures !ok ==> after.calls > 0 && after.log == whole[..ConfirmedBy(port, after.calls - 1)]
                    && (after.prefix <==> after.calls > 1)
                    && after.calls <= |whole| && after.failedScope == Some(whole[after.calls - 1].At().scope)
                    && EndingFrom(port, |whole|, 0)
                       == if after.calls == 1 then Surfaced(ConfirmedBy(port, 0))
                          else HandedBack(ConfirmedBy(port, after.calls - 1), after.calls - 1)
  {
    assert [] + whole == whole;
    EndingSkips(port, |whole|, if ok then |whole| else after.calls - 1);
  }

  lemma {:induction false} WholeSplits<V>(f: Family<V>, p: Progress<V>, own: seq<Step<V>>, below: seq<Step<V>>)
    requires own == StepsAt(PlanOf(f, p), f.RootAt())
    requires below == Flatten(PlanOf(f, p),
                              VisitAll(f.Bindings(), f.Bindings()[0], RunningChildren(f.Bindings(), f.Bindings()[0])))
    ensures Whole(f, p) == own + below && [] + own <= Whole(f, p) && [] + own + below <= Whole(f, p)
  {
    FlattenVisit(PlanOf(f, p), f.Bindings(), f.Bindings()[0]);
    SplitDue([], own, below, Whole(f, p));
    assert [] + (own + below) == own + below;
  }

  function Listed<T>(planned: Option<T>): (steps: seq<T>) {
    if planned.Some? then [planned.value] else []
  }

  function PlannedFenceStep<V>(plan: Plan<V>, at: ScopeRun): (step: Option<Step<V>>) {
    match FenceAt(plan.fences, at)
    case None => None
    case Some(fence) => Some(FenceStep(fence))
  }

  function PlannedResumeStep<V>(plan: Plan<V>, at: ScopeRun): (step: Option<Step<V>>) {
    match PlanFor(plan.resumes, at)
    case None => None
    case Some(resume) => Some(ResumeStep(resume))
  }

  lemma {:induction false} ScopeSteps<V>(plan: Plan<V>, at: ScopeRun)
    ensures StepsAt(plan, at) == Listed(PlannedFenceStep(plan, at)) + Listed(PlannedResumeStep(plan, at))
  {
  }

  /** One admission of a planned continuation; `port` answers its commits in turn. */
  class Admission<V> {
    const family: Family<V>
    const plan: Plan<V>
    ghost const scopes: seq<seq<Text>>
    ghost const progress: Progress<V>
    ghost const whole: seq<Step<V>>
    const port: nat -> Answer
    const root: GraphRun<V>
    var entries: map<ScopeRun, Entry<V>>
    var confirmedPrefix: bool
    var transitionAttempted: bool
    var failedScope: Option<seq<Text>>
    var calls: nat
    ghost var log: seq<Step<V>>

    ghost predicate Valid()
      reads this`log, this`entries, root
    {
      && plan == PlanOf(family, progress)
      && root.at == family.RootAt()
      && Walk(family, scopes, progress, whole, log, entries, root.Now())
    }

    ghost predicate Owns(run: GraphRun<V>)
      reads this`log, run
    {
      && (run == root <==> run.at == family.RootAt())
      && Held(family, log, run.at, run.Now())
    }

    constructor (family: Family<V>, plan: Plan<V>, ghost scopes: seq<seq<Text>>, ghost progress: Progress<V>,
                 port: nat -> Answer)
      requires Planned(family, scopes, progress) && plan == PlanOf(family, progress)
      ensures Valid() && Owns(root) && fresh(root) && log == []
      ensures this.family == family && this.progress == progress && this.scopes == scopes && this.plan == plan
      ensures whole == Whole(family, progress)
      ensures this.port == port && Going(port, Count()) && calls == 0 && !transitionAttempted
    {
      this.family, this.plan, this.scopes, this.progress := family, plan, scopes, progress;
      this.whole := Whole(family, progress);
      this.port, this.calls := port, 0;
      this.log := [];
      this.confirmedPrefix, this.transitionAttempted, this.failedScope := false, false, None;
      this.entries := map at | at in EvidenceAts(family.runs) :: InitialEntry(family, at);
      this.root := new GraphRun(family.RootAt(), family.root, family.OwnerFrames(family.RootAt()));
      BeginWalk(family, scopes, progress);
    }

    /** One durable commit of one owner: confirmed state and frames are installed together and a child
        hands off its evidence, before a cancellation of the caller surfaces; an unconfirmed commit changes
        nothing. */
    method Transition(run: GraphRun<V>, step: Step<V>) returns (a: Answer)
      requires Valid() && Owns(run) && run.at == step.At() && log + [step] <= whole
      modifies this`entries, this`log, this`calls, run
      ensures Valid() && Owns(run)
      ensures a == port(old(calls)) && calls == old(calls) + 1
      ensures a != Declined ==> log == old(log) + [step]
      ensures a == Declined ==>
                log == old(log) && entries == old(entries) && run.state == old(run.state)
                && run.frames == old(run.frames)
    {
      ghost var expected := WalkStep(family, scopes, progress, whole, log, entries, root.Now(), step, run.Now());
      var after := ApplyStep(run.Now(), step).value;
      a := port(calls);
      calls := calls + 1;
      if a == Declined {
        return;
      }
      log := log + [step];
      ghost var rootPart := root.Now();
      run.state, run.frames := after.state, after.frames;
      assert run.Now() == expected && root.Now() == if run == root then expected else rootPart;
      if run.state.parent.Some? {
        entries := entries[run.at := Entry(Bound(Binding(run.at, run.state)), run.frames)];
      }
      assert entries == Published(old(entries), step.At(), expected);
    }

    /** Attempt one planned commit and keep the walk's flags: only a commit that returns normally sets the
        prefix flag, anything else names this scope as failed. */
    method Attempt(run: GraphRun<V>, step: Step<V>) returns (ok: bool)
      requires Valid() && Owns(run) && step.At() == run.at && log + [step] <= whole && Going(port, Count())
      modifies this, run
      ensures Valid() && Owns(run)
      ensures Walked(port, whole, old(Count()), [step], Count(), ok)
    {
      ghost var before := Count();
      var answer := Transition(run, step);
      ok := answer == Confirmed;
      Mark(run.at.scope, ok);
      OneWalked(port, whole, before, step, Count());
    }

    method Mark(scope: seq<Text>, ok: bool)
      modifies this`transitionAttempted, this`confirmedPrefix, this`failedScope
      ensures transitionAttempted && confirmedPrefix == (old(confirmedPrefix) || ok)
      ensures failedScope == if ok then old(failedScope) else Some(scope)
    {
      transitionAttempted := true;
      if ok {
        confirmedPrefix := true;
      } else {
        failedScope := Some(scope);
      }
    }

    method AttemptPlanned(run: GraphRun<V>, planned: Option<Step<V>>) returns (ok: bool)
      requires Valid() && Owns(run) && (planned.Some? ==> planned.value.At() == run.at)
      requires log + Listed(planned) <= whole && Going(port, Count())
      modifies this, run
      ensures Valid() && Owns(run)
      ensures Walked(port, whole, old(Count()), Listed(planned), Count(), ok)
    {
      if planned.None? {
        NothingWalked(port, whole, Count());
        return true;
      }
      ok := Attempt(run, planned.value);
    }

    /** Commit the planned fence, then the planned resume, of one scope. */
    method ApplyAdmission(run: GraphRun<V>) returns (ok: bool)
      requires Valid() && Owns(run) && log + StepsAt(plan, run.at) <= whole
      requires Going(port, Count())
      modifies this, run
      ensures Valid()
      ensures Walked(port, whole, old(Count()), StepsAt(plan, run.at), Count(), ok)
    {
      var fence, resume := PlannedFenceStep(plan, run.at), PlannedResumeStep(plan, run.at);
      ghost var start, own := Count(), StepsAt(plan, run.at);
      ScopeSteps(plan, run.at);
      SplitDue(log, Listed(fence), Listed(resume), whole);
      ok := AttemptPlanned(run, fence);
      ghost var fenced := Count();
      if ok {
        ok := AttemptPlanned(run, resume);
        WalkedJoin(port, whole, start, Listed(fence), fenced, Listed(resume), Count(), ok);
      }
    }

    ghost function Count(): (t: Tally<V>)
      reads this
    {
      Tally(log, calls, failedScope, transitionAttempted, confirmedPrefix)
    }

    /** Build the owner of one running child, commit its plan and admit the children below it. */
    method ConstructChild(c: Binding, ghost height: nat) returns (ok: bool)
      requires height == Depth(family.Bindings()) - |c.at.scope|
      requires Valid() && c in family.Children() && log + Flatten(plan, Visit(family.Bindings(), c)) <= whole
      requires Going(port, Count())
      modifies this
      ensures Valid()
      ensures Walked(port, whole, old(Count()), Flatten(plan, Visit(family.Bindings(), c)), Count(), ok)
      decreases height, 4
    {
      ghost var bs := family.Bindings();
      ghost var own, below := StepsAt(plan, c.at), Flatten(plan, VisitAll(bs, c, RunningChildren(bs, c)));
      ghost var before := log;
      FlattenVisit(plan, bs, c);
      NewOwner(family, scopes, progress, whole, log, entries, root.Now(), c, below);
      SplitDue(before, own, below, whole);
      var run := new GraphRun(c.at, c.state, FramesForOwner(family.frames, family.Children(), c.at).value);
      ok := ApplyAdmission(run);
      ghost var entered := Count();
      if ok {
        ok := AdmitChildren(c, height);
        WalkedJoin(port, whole, old(Count()), own, entered, below, Count(), ok);
      }
    }

    /** Admit the running children of one owner in lineage order. */
    method AdmitChildren(b: Binding, ghost height: nat) returns (ok: bool)
      requires Valid() && b in family.Bindings() && height == Depth(family.Bindings()) - |b.at.scope|
      requires log + Flatten(plan, VisitAll(family.Bindings(), b, RunningChildren(family.Bindings(), b))) <= whole
      requires Going(port, Count())
      modifies this
      ensures Valid()
      ensures Walked(port, whole, old(Count()),
                     Flatten(plan, VisitAll(family.Bindings(), b, RunningChildren(family.Bindings(), b))),
                     Count(), ok)
      decreases height, 3
    {
      ghost var parts := ChildParts(plan, family, b, height);
      ghost var start := Count();
      NoneDone(port, whole, start, parts);
      ok := AdmitEach(b, parts, start, height);
      if ok {
        AllDone(port, whole, start, parts, Count());
      }
    }

    method AdmitEach(b: Binding, ghost parts: seq<seq<Step<V>>>, ghost start: Tally<V>, ghost height: nat)
      returns (ok: bool)
      requires Valid() && |parts| >= 1
      requires AreChildParts(plan, family.Bindings(), b, parts, height)
      requires ChildrenDone(port, whole, start, parts, 1, Count())
      modifies this
      ensures Valid()
      ensures ok ==> ChildrenDone(port, whole, start, parts, |parts|, Count())
      ensures !ok ==> Walked(port, whole, start, Concat(parts, |parts|), Count(), false)
      decreases height, 2
    {
      var i, n := 1, |family.Bindings()|;
      SameLength(plan, family.Bindings(), b, parts, height);
      while i < n
        invariant 1 <= i <= |parts| == n
        invariant Valid()
        invariant ChildrenDone(port, whole, start, parts, i, Count())
      {
        ok := AdmitNext(b, i, parts, start, height);
        if !ok {
          return;
        }
        i := i + 1;
      }
      assert i == |parts|;
      assert ChildrenDone(port, whole, start, parts, i, Count());
      return true;
    }

    method AdmitNext(b: Binding, i: nat, ghost parts: seq<seq<Step<V>>>, ghost start: Tally<V>, ghost height: nat)
      returns (ok: bool)
      requires Valid() && 1 <= i < |parts|
      requires AreChildParts(plan, family.Bindings(), b, parts, height)
      requires ChildrenDone(port, whole, start, parts, i, Count())
      modifies this
      ensures Valid()
      ensures ok ==> ChildrenDone(port, whole, start, parts, i + 1, Count())
      ensures !ok ==> Walked(port, whole, start, Concat(parts, |parts|), Count(), false)
      decreases height, 1
    {
      ghost var before := Count();
      ChildDue(port, whole, start, parts, i, before);
      ok := AdmitChild(b, i, parts, height);
      ChildDone(port, whole, start, parts, i, before, Count(), ok);
    }

    /** One iteration: descend into a binding if it is a running child of this owner. */
    method AdmitChild(b: Binding, i: nat, ghost parts: seq<seq<Step<V>>>, ghost height: nat) returns (ok: bool)
      requires Valid() && 1 <= i < |parts|
      requires AreChildParts(plan, family.Bindings(), b, parts, height) && log + parts[i] <= whole
      requires Going(port, Count())
      modifies this
      ensures Valid()
      ensures Walked(port, whole, old(Count()), parts[i], Count(), ok)
      decreases height, 0
    {
      var bs := family.Bindings();
      PartOfChild(plan, bs, b, parts, height, i);
      if !IsRunningChild(b, bs[i]) {
        assert log + [] == log;
        return true;
      }
      ChildIsDeeper(bs, b, i);
      ok := ConstructChild(bs[i], height - 1);
    }

    /** Read the evidence in coordinate order and merge the root's frames with the children's. */
    method FreezeRootEvidence() returns (g: Family<V>)
      requires Valid()
      ensures Frozen(family, log, g)
    {
      var keys := SortedKeys(entries.Keys);
      ghost var out := FrozenRead(family, scopes, progress, whole, log, entries, root.Now(), keys);
      var children := MergeFrames(ReadFrames(entries, keys));
      var frames := MergeFrames([root.frames, children.value]);
      g := Family(family.graph, root.state, ReadRuns(entries, keys), frames.value);
    }

    /** Execute the whole walk, root first. */
    method AdmitFamily() returns (ok: bool)
      requires Valid() && Owns(root) && whole == Whole(family, progress)
      requires log == [] && Going(port, Count())
      modifies this, root
      ensures Valid()
      ensures Walked(port, whole, old(Count()), whole, Count(), ok)
    {
      ghost var bs := family.Bindings();
      ghost var own, below := StepsAt(plan, root.at), Flatten(plan, VisitAll(bs, bs[0], RunningChildren(bs, bs[0])));
      ghost var start := Count();
      WholeSplits(family, progress, own, below);
      ok := ApplyAdmission(root);
      ghost var entered := Count();
      if ok {
        ok := AdmitChildren(Binding(family.RootAt(), family.root), Depth(family.Bindings()));
        WalkedJoin(port, whole, start, own, entered, below, Count(), ok);
      }
    }

    /** Admit a planned continuation: how it ends depends on the port's answers alone. */
    method AdmitContinuedRoot() returns (r: AdmissionResult<V>)
      requires Valid() && Owns(root) && whole == Whole(family, progress)
      requires log == [] && Going(port, Count())
      modifies this, root
      ensures Valid()
      ensures match EndingFrom(port, |whole|, 0)
              case AllConfirmed => r == Handed && log == whole
              case Surfaced(n) => r == Raised && log == whole[..n]
              case HandedBack(n, k) =>
                log == whole[..n] && r.PartialCommit? && Frozen(family, log, r.continuation)
                && r.failedScope == whole[k].At().scope
    {
      ghost var start := Count();
      var ok := AdmitFamily();
      WalkedWhole(port, whole, start, Count(), ok);
      if ok {
        return Handed;
      }
      if !confirmedPrefix {
        return Raised;
      }
      var g := FreezeRootEvidence();
      return PartialCommit(g, failedScope.value);
    }
  }

  // ---- planning and admission together ---------------------------------------------------

  /** How continuing a suspended family ends: its planning is rejected, its owners take over the family as
      planned, the failure surfaces alone, or a continuation comes back. */
  datatype Continued<+V> =
    | Rejected
    | Owned(family: Family<V>)
    | RaisedAlone
    | Partial(continuation: Family<V>, failedScope: seq<Text>)

  lemma {:induction false} PlanningPlans<V>(f: Family<V>, groups: seq<ResumeGroup<V>>, p: Progress<V>)
    requires LineageStates(f.root, f.runs).Some? && CanonicalIndex(f.frames) && FramesBelong(f)
    requires Plannable(f.graph, f.Bindings()) && Pairwise(ScopeLess, Scopes(groups))
    requires ResumePlan(FencedBindings(f.Bindings()), f.frames, Scopes(groups), p)
    ensures Planned(f, Scopes(groups), p)
  {
    ScopeOrder();
    PairwiseIsAscending(ScopeLess, Scopes(groups));
  }

  /** Once every commit is confirmed, the frozen family is the planned one. */
  lemma {:induction false} FrozenWholeIsPlanned<V>(f: Family<V>, scopes: seq<seq<Text>>, p: Progress<V>, g: Family<V>)
    requires Planned(f, scopes, p) && Frozen(f, Whole(f, p), g)
    ensures g.Bindings() == p.bindings && g.frames == p.frames
  {
    var after := WalkReachesPlannedLineage(f, scopes, p);
    var parts := WalkReachesPlannedFrames(f, scopes, p);
    assert Seal.Seal.Broken();
    assert FrozenFacts(f, Whole(f, p), g);
    PlannedContinuation(f, scopes, p, after, p.frames);
  }

  lemma {:induction false} PlannedContinuation<V>(f: Family<V>, scopes: seq<seq<Text>>, p: Progress<V>,
                                                  parts: map<ScopeRun, Part<V>>, out: Index<V>)
    requires Planned(f, scopes, p) && RunSteps(f.Parts(), Whole(f, p)) == Some(parts)
    requires StatesOf(f.Bindings(), parts) == p.bindings
    ensures Continuation(f, parts, out).Bindings() == p.bindings
  {
    var n := |Whole(f, p)|;
    assert Whole(f, p)[..n] == Whole(f, p);
    var same := EveryPrefixExecutes(f, scopes, p, n);
    ReplanIsUnconfirmed(f, scopes, p, n, parts);
    PlanLineage(f, scopes, p);
    ContinuationScopes(f, parts, out);
  }

  /** Continue a suspended family: plan the fences, plan the resumes, admit the plan. Planning decides alone
      whether anything is attempted; after that the port's answers decide. When every commit is confirmed the
      owners hold exactly the planned lineage and frames: every run fenced, every answered node pending with
      its own payload, every answer recorded at its own activation. */
  method ContinueRoot<V>(f: Family<V>, groups: seq<ResumeGroup<V>>, port: nat -> Answer) returns (r: Continued<V>)
    requires LineageStates(f.root, f.runs).Some? && CanonicalIndex(f.frames) && FramesBelong(f)
    ensures r.Rejected? <==> PlanFamily(f, groups).None?
    ensures r.Rejected? <==> !(Plannable(f.graph, f.Bindings()) && Pairwise(ScopeLess, Scopes(groups))
                               && forall i :: 0 <= i < |groups| ==>
                                                GroupFits(f.graph, FencedBindings(f.Bindings()), f.frames, groups, i))
    ensures r.Owned? ==> LineageAnswered(f.graph, FencedBindings(f.Bindings()), groups, r.family.Bindings())
    ensures r.Owned? ==> FramesAnswered(f.graph, FencedBindings(f.Bindings()), f.frames, groups, r.family.frames)
    ensures PlanFamily(f, groups).Some? ==>
              var p := PlanFamily(f, groups).value;
              match EndingFrom(port, |Whole(f, p)|, 0)
              case AllConfirmed => r.Owned? && r.family.Bindings() == p.bindings && r.family.frames == p.frames
              case Surfaced(_) => r.RaisedAlone?
              case HandedBack(n, k) =>
                r.Partial? && FrozenFacts(f, Whole(f, p)[..n], r.continuation)
                && r.failedScope == Whole(f, p)[k].At().scope
  {
    FamilyIsCanonical(f);
    var fences := PlanFences(f.graph, f.Bindings());
    if fences.None? {
      return Rejected;
    }
    FencedIsCanonical(f.Bindings());
    var resumes := PlanResumes(f.graph, fences.value.0, f.frames, groups);
    if resumes.None? {
      return Rejected;
    }
    var p := resumes.value;
    PlanningPlans(f, groups, p);
    r := AdmitPlanned(f, groups, p, Plan(fences.value.1, p.plans), port);
  }

  method AdmitPlanned<V>(f: Family<V>, ghost groups: seq<ResumeGroup<V>>, ghost p: Progress<V>, plan: Plan<V>,
                         port: nat -> Answer)
    returns (r: Continued<V>)
    requires Planned(f, Scopes(groups), p) && plan == PlanOf(f, p)
    ensures !r.Rejected?
    ensures match EndingFrom(port, |Whole(f, p)|, 0)
            case AllConfirmed => r.Owned? && r.family.Bindings() == p.bindings && r.family.frames == p.frames
            case Surfaced(_) => r.RaisedAlone?
            case HandedBack(n, k) =>
              r.Partial? && FrozenFacts(f, Whole(f, p)[..n], r.continuation)
              && r.failedScope == Whole(f, p)[k].At().scope
  {
    var admission := new Admission(f, plan, Scopes(groups), p, port);
    var result := admission.AdmitContinuedRoot();
    match result
    case Handed =>
      var g := admission.FreezeRootEvidence();
      FrozenWholeIsPlanned(f, Scopes(groups), p, g);
      r := Owned(g);
    case Raised =>
      r := RaisedAlone;
    case PartialCommit(continuation, failedScope) =>
      assert Seal.Seal.Broken();
      r := Partial(continuation, failedScope);
  }

  lemma {:induction false} StepOfWhole<T>(whole: seq<T>, log: seq<T>, step: T)
    requires log + [step] <= whole
    ensures |log| < |whole| && whole[|log|] == step && log == whole[..|log|] && log + [step] == whole[..|log| + 1]
  {
    assert whole[..|log| + 1] == log + [step];
  }

  lemma {:induction false} SplitDue<T>(log: seq<T>, a: seq<T>, b: seq<T>, whole: seq<T>)
    ensures log + (a + b) == log + a + b
    ensures log + (a + b) <= whole ==> log + a <= whole
  {
    if log + (a + b) <= whole {
      assert whole[..|log + a + b|] == log + a + b;
      assert (log + a + b)[..|log + a|] == log + a;
    }
  }

  /** The commits below one binding, if the walk descends into it. */
  ghost function ChildSteps<V>(plan: Plan<V>, bs: seq<Binding>, b: Binding, i: nat): (steps: seq<Step<V>>)
    requires i < |bs|
  {
    if IsRunningChild(b, bs[i]) then Flatten(plan, Visit(bs, bs[i])) else []
  }

  /** The commits below every binding, the steps of one owner's loop. */
  ghost predicate AreChildParts<V>(plan: Plan<V>, bs: seq<Binding>, b: Binding, parts: seq<seq<Step<V>>>, height: nat) {
    forall s: Seal :: s.Broken() ==>
                        b in bs && height == Depth(bs) - |b.at.scope| && |parts| == |bs|
                        && forall i :: 0 <= i < |parts| ==>
                                         parts[i] == ChildSteps(plan, bs, b, i)
  }

  lemma {:induction false} PartOfChild<V>(plan: Plan<V>, bs: seq<Binding>, b: Binding, parts: seq<seq<Step<V>>>,
                                          height: nat, i: nat)
    requires AreChildParts(plan, bs, b, parts, height) && i < |parts|
    ensures b in bs && height == Depth(bs) - |b.at.scope| && |parts| == |bs| && parts[i] == ChildSteps(plan, bs, b, i)
  {
    assert Seal.Seal.Broken();
  }

  lemma {:induction false} SameLength<V>(plan: Plan<V>, bs: seq<Binding>, b: Binding, parts: seq<seq<Step<V>>>,
                                         height: nat)
    requires AreChildParts(plan, bs, b, parts, height)
    ensures |parts| == |bs|
  {
    assert Seal.Seal.Broken();
  }

  ghost function Concat<T>(parts: seq<seq<T>>, i: nat): (all: seq<T>)
    requires 1 <= i <= |parts|
  {
    if i == 1 then [] else Concat(parts, i - 1) + parts[i - 1]
  }

  lemma {:induction false} ConcatPrefix<T>(parts: seq<seq<T>>, i: nat, j: nat)
    requires 1 <= i <= j <= |parts|
    ensures Concat(parts, i) <= Concat(parts, j)
  {
    if i < j {
      ConcatPrefix(parts, i, j - 1);
    }
  }

  /** The next child's commits are due right after those of the children before it. */
  lemma {:induction false} ConcatDue<T>(parts: seq<seq<T>>, i: nat, log: seq<T>, whole: seq<T>)
    requires 1 <= i < |parts| && log + Concat(parts, |parts|) <= whole
    ensures Concat(parts, i + 1) == Concat(parts, i) + parts[i]
    ensures Concat(parts, i) + parts[i] <= Concat(parts, |parts|)
    ensures log + Concat(parts, i) + parts[i] <= whole
  {
    ConcatPrefix(parts, i + 1, |parts|);
    DueWithin(log, Concat(parts, i), parts[i], Concat(parts, |parts|), whole);
  }

  /** The children before a given binding were walked in full. */
  ghost predicate ChildrenDone<V>(port: nat -> Answer, whole: seq<Step<V>>, t: Tally<V>, parts: seq<seq<Step<V>>>,
                                  i: nat, u: Tally<V>) {
    forall s: Seal :: s.Broken() ==>
                        1 <= i <= |parts| && t.log + Concat(parts, |parts|) <= whole
                        && Walked(port, whole, t, Concat(parts, i), u, true)
  }

  lemma {:induction false} NoneDone<V>(port: nat -> Answer, whole: seq<Step<V>>, t: Tally<V>, parts: seq<seq<Step<V>>>)
    requires |parts| >= 1 && t.log + Concat(parts, |parts|) <= whole && Going(port, t)
    ensures ChildrenDone(port, whole, t, parts, 1, t)
  {
    assert t.log + [] == t.log;
  }

  lemma {:induction false} AllDone<V>(port: nat -> Answer, whole: seq<Step<V>>, t: Tally<V>, parts: seq<seq<Step<V>>>,
                                      u: Tally<V>)
    requires |parts| >= 1 && ChildrenDone(port, whole, t, parts, |parts|, u)
    ensures Walked(port, whole, t, Concat(parts, |parts|), u, true)
  {
    assert Seal.Seal.Broken();
  }

  lemma {:induction false} ChildDue<V>(port: nat -> Answer, whole: seq<Step<V>>, t: Tally<V>, parts: seq<seq<Step<V>>>,
                                       i: nat, u: Tally<V>)
    requires 1 <= i < |parts| && ChildrenDone(port, whole, t, parts, i, u)
    ensures u.log + parts[i] <= whole && Going(port, u)
  {
    assert Seal.Seal.Broken();
    ConcatDue(parts, i, t.log, whole);
  }

  lemma {:induction false} ChildDone<V>(port: nat -> Answer, whole: seq<Step<V>>, t: Tally<V>, parts: seq<seq<Step<V>>>,
                                        i: nat, u: Tally<V>, v: Tally<V>, ok: bool)
    requires 1 <= i < |parts| && ChildrenDone(port, whole, t, parts, i, u) && Walked(port, whole, u, parts[i], v, ok)
    ensures ok ==> ChildrenDone(port, whole, t, parts, i + 1, v)
    ensures !ok ==> Walked(port, whole, t, Concat(parts, |parts|), v, false)
  {
    assert Seal.Seal.Broken();
    ConcatDue(parts, i, t.log, whole);
    WalkedJoin(port, whole, t, Concat(parts, i), u, parts[i], v, ok);
  }

  lemma {:induction false} DueWithin<T>(log: seq<T>, done: seq<T>, own: seq<T>, all: seq<T>, whole: seq<T>)
    requires log + all <= whole && done + own <= all
    ensures log + done + own <= whole
  {
    assert all == done + own + all[|done + own|..];
    SplitDue(log, done + own, all[|done + own|..], whole);
    SplitDue(log, done, own, whole);
  }

  lemma {:induction false} ChildIsDeeper(bs: seq<Binding>, b: Binding, i: nat)
    requires i < |bs| && IsRunningChild(b, bs[i])
    ensures |bs[i].at.scope| == |b.at.scope| + 1 && |bs[i].at.scope| <= Depth(bs)
  {
    assert bs[i] in bs;
  }

  /** Descending into the bindings one by one visits exactly the running children, in order. */
  lemma {:induction false} ChildParts<V>(plan: Plan<V>, f: Family<V>, b: Binding, height: nat)
    returns (parts: seq<seq<Step<V>>>)
    requires b in f.Bindings() && height == Depth(f.Bindings()) - |b.at.scope|
    ensures |parts| == |f.Bindings()| && AreChildParts(plan, f.Bindings(), b, parts, height)
    ensures Concat(parts, |parts|) == Flatten(plan, VisitAll(f.Bindings(), b, RunningChildren(f.Bindings(), b)))
  {
    var bs := f.Bindings();
    parts := PartsOf(plan, bs, b);
    NoneVisited(plan, f, b);
    AccumulateParts(plan, bs, b);
    ConcatAccumulates(parts, SumsOf(plan, bs, b), |bs|);
    AllVisited(plan, bs, b);
  }

  ghost function PartsOf<V>(plan: Plan<V>, bs: seq<Binding>, b: Binding): (parts: seq<seq<Step<V>>>)
    ensures |parts| == |bs| && forall i :: 0 <= i < |bs| ==> parts[i] == ChildSteps(plan, bs, b, i)
  {
    seq(|bs|, i requires 0 <= i < |bs| => ChildSteps(plan, bs, b, i))
  }

  ghost function SumsOf<V>(plan: Plan<V>, bs: seq<Binding>, b: Binding): (sums: seq<seq<Step<V>>>)
    requires b in bs
    ensures |sums| == |bs| + 1 && forall i :: 0 <= i <= |bs| ==> sums[i] == VisitedSteps(plan, bs, b, i)
  {
    seq(|bs| + 1, i requires 0 <= i <= |bs| => VisitedSteps(plan, bs, b, i))
  }

  lemma {:induction false} AccumulateParts<V>(plan: Plan<V>, bs: seq<Binding>, b: Binding)
    requires b in bs
    ensures forall j :: 1 <= j < |bs| ==>
                          SumsOf(plan, bs, b)[j + 1] == SumsOf(plan, bs, b)[j] + PartsOf(plan, bs, b)[j]
  {
    forall j | 1 <= j < |bs|
      ensures SumsOf(plan, bs, b)[j + 1] == SumsOf(plan, bs, b)[j] + PartsOf(plan, bs, b)[j]
    {
      NextVisited(plan, bs, b, j);
    }
  }

  lemma {:induction false} AllVisited<V>(plan: Plan<V>, bs: seq<Binding>, b: Binding)
    requires b in bs
    ensures VisitedSteps(plan, bs, b, |bs|) == Flatten(plan, VisitAll(bs, b, RunningChildren(bs, b)))
  {
    assert bs[..|bs|] == bs;
  }

  lemma {:induction false} ConcatAccumulates<T>(parts: seq<seq<T>>, sums: seq<seq<T>>, i: nat)
    requires 1 <= i <= |parts| && |sums| == |parts| + 1 && sums[1] == []
    requires forall j :: 1 <= j < |parts| ==> sums[j + 1] == sums[j] + parts[j]
    ensures Concat(parts, i) == sums[i]
  {
    if i > 1 {
      ConcatAccumulates(parts, sums, i - 1);
      assert sums[i - 1 + 1] == sums[i - 1] + parts[i - 1];
    }
  }

  ghost function VisitedSteps<V>(plan: Plan<V>, bs: seq<Binding>, b: Binding, i: nat): (steps: seq<Step<V>>)
    requires b in bs && i <= |bs|
  {
    assert forall c :: c in bs[..i] ==> c in bs;
    Flatten(plan, VisitAll(bs, b, RunningChildren(bs[..i], b)))
  }

  lemma {:induction false} NextVisited<V>(plan: Plan<V>, bs: seq<Binding>, b: Binding, i: nat)
    requires b in bs && i < |bs|
    ensures VisitedSteps(plan, bs, b, i + 1) == VisitedSteps(plan, bs, b, i) + ChildSteps(plan, bs, b, i)
  {
    NextChild(plan, bs, b, i);
  }

  lemma {:induction false} NoneVisited<V>(plan: Plan<V>, f: Family<V>, b: Binding)
    requires b in f.Bindings()
    ensures VisitedSteps(plan, f.Bindings(), b, 1) == []
  {
    var first := f.Bindings()[..1];
    assert first[0] == f.Bindings()[0] && !IsRunningChild(b, first[0]);
    assert first[..0] == [];
    assert RunningChildren(first, b) == [];
  }
}
