/** Continuing a partial continuation: the resumes that were not confirmed can be submitted again, and the
    family ends exactly where it was planned to end. */
module FamilyResubmission {
  import opened Sorted
  import opened FrameIndex
  import opened GraphState
  import opened Lineage
  import opened ScopedFrames
  import opened Resumption
  import opened FamilyPlan
  import opened FamilySteps
  import opened FamilyAgreement
  import opened FamilyHandoff
  import opened FamilyReplan
  import opened FamilyEvidence

  /** The plan of an admitted request, if there is one. */
  function PlanFamily<V>(f: Family<V>, groups: seq<ResumeGroup<V>>): (p: Option<Progress<V>>) {
    if Plannable(f.graph, f.Bindings()) && Pairwise(ScopeLess, Scopes(groups))
    then PlanGroups(f.graph, Progress(FencedBindings(f.Bindings()), f.frames, []), groups)
    else None
  }

  // ---- the walk follows the order of scopes ----------------------------------------------

  ghost predicate ScopesAscend(vs: seq<Binding>) {
    forall i, j :: 0 <= i < j < |vs| ==> ScopeLess(vs[i].at.scope, vs[j].at.scope)
  }

  /** What lies below one scope precedes what lies below a later one. */
  lemma {:induction false} BelowPrecedes(a: seq<Text>, b: seq<Text>, v: seq<Text>, w: seq<Text>)
    requires |a| == |b| && a <= v && b <= w && ScopeLess(a, b)
    ensures ScopeLess(v, w)
  {
    if a[0] == b[0] && !TextLess(a[0], b[0]) {
      BelowPrecedes(a[1..], b[1..], v[1..], w[1..]);
    }
  }

  lemma {:induction false} ChildrenAscend(bs: seq<Binding>, b: Binding)
    requires Ascending(ScopeRunLess, Ats(bs))
    ensures ScopesAscend(RunningChildren(bs, b))
  {
    if bs != [] {
      var n := |bs| - 1;
      assert Ats(bs[..n]) == Ats(bs)[..n];
      ChildrenAscend(bs[..n], b);
      var front := RunningChildren(bs[..n], b);
      if IsRunningChild(b, bs[n]) {
        forall i | 0 <= i < |front|
          ensures ScopeLess(front[i].at.scope, bs[n].at.scope)
        {
          assert front[i] in front;
          ChildPrecedes(bs, b, front[i]);
        }
      }
    }
  }

  lemma {:induction false} ChildPrecedes(bs: seq<Binding>, b: Binding, c: Binding)
    requires Ascending(ScopeRunLess, Ats(bs)) && bs != [] && c in bs[..|bs| - 1]
    requires IsRunningChild(b, c) && IsRunningChild(b, bs[|bs| - 1])
    ensures ScopeLess(c.at.scope, bs[|bs| - 1].at.scope)
  {
    var n := |bs| - 1;
    var j :| 0 <= j < n && bs[j] == c;
    ScopeRunOrder();
    assert ScopeRunLess(Ats(bs)[j], Ats(bs)[n]);
    SiblingsDiverge(b, c, bs[n]);
  }

  lemma {:induction false} VisitAscends(bs: seq<Binding>, b: Binding)
    requires b in bs && Ascending(ScopeRunLess, Ats(bs))
    ensures ScopesAscend(Visit(bs, b))
    decreases Depth(bs) - |b.at.scope|, 1, 0
  {
    var cs := RunningChildren(bs, b);
    ChildrenAscend(bs, b);
    VisitAllAscends(bs, b, cs);
    VisitAllMembers(bs, b, cs);
    var rest := VisitAll(bs, b, cs);
    forall i | 0 <= i < |rest|
      ensures ScopeLess(b.at.scope, rest[i].at.scope)
    {
      assert rest[i] in rest;
      EarlierScope(b.at.scope, rest[i].at.scope);
    }
  }

  lemma {:induction false} VisitAllAscends(bs: seq<Binding>, b: Binding, cs: seq<Binding>)
    requires b in bs && Ascending(ScopeRunLess, Ats(bs)) && ScopesAscend(cs)
    requires forall c :: c in cs ==> c in bs && IsRunningChild(b, c) && |c.at.scope| == |b.at.scope| + 1
    ensures ScopesAscend(VisitAll(bs, b, cs))
    decreases Depth(bs) - |b.at.scope|, 0, |cs|
  {
    if cs != [] {
      var n := |cs| - 1;
      var front, last := VisitAll(bs, b, cs[..n]), Visit(bs, cs[n]);
      VisitAllAscends(bs, b, cs[..n]);
      VisitAscends(bs, cs[n]);
      forall v, w | v in front && w in last
        ensures ScopeLess(v.at.scope, w.at.scope)
      {
        VisitsInOrder(bs, b, cs, v, w);
      }
      JoinAscend(front, last);
    }
  }

  lemma {:induction false} VisitsInOrder(bs: seq<Binding>, b: Binding, cs: seq<Binding>, v: Binding, w: Binding)
    requires b in bs && ScopesAscend(cs) && cs != []
    requires forall c :: c in cs ==> c in bs && IsRunningChild(b, c) && |c.at.scope| == |b.at.scope| + 1
    requires v in VisitAll(bs, b, cs[..|cs| - 1]) && w in Visit(bs, cs[|cs| - 1])
    ensures ScopeLess(v.at.scope, w.at.scope)
  {
    var n := |cs| - 1;
    VisitMembers(bs, cs[n]);
    var i := VisitedBelow(bs, b, cs[..n], v);
    assert cs[i] in cs && cs[n] in cs;
    BelowPrecedes(cs[i].at.scope, cs[n].at.scope, v.at.scope, w.at.scope);
  }

  lemma {:induction false} JoinAscend(a: seq<Binding>, b: seq<Binding>)
    requires ScopesAscend(a) && ScopesAscend(b)
    requires forall v, w :: v in a && w in b ==> ScopeLess(v.at.scope, w.at.scope)
    ensures ScopesAscend(a + b)
  {
    forall i, j | 0 <= i < j < |a + b|
      ensures ScopeLess((a + b)[i].at.scope, (a + b)[j].at.scope)
    {
      if i < |a| <= j {
        assert (a + b)[i] in a && (a + b)[j] in b;
      }
    }
  }

  /** Of two commits of the walk, the earlier one belongs to the same or to an earlier scope. */
  lemma {:induction false} FlattenAscends<V>(plan: Plan<V>, vs: seq<Binding>, i: nat, j: nat)
    requires ScopesAscend(vs) && i < j < |Flatten(plan, vs)|
    ensures var x, y := Flatten(plan, vs)[i], Flatten(plan, vs)[j];
            x.At() == y.At() || ScopeLess(x.At().scope, y.At().scope)
  {
    var n := |vs| - 1;
    var front, own := Flatten(plan, vs[..n]), StepsAt(plan, vs[n].at);
    if j < |front| {
      FlattenAscends(plan, vs[..n], i, j);
    } else {
      assert own[j - |front|] in own;
      if i < |front| {
        assert front[i] in front;
        FlattenAts(plan, vs[..n], front[i]);
      } else {
        assert own[i - |front|] in own;
      }
    }
  }

  // ---- the confirmed resumes are those of the first groups -------------------------------

  /** If a planned resume is confirmed, so are the resumes planned before it. */
  lemma {:induction false} EarlierPlanIsConfirmed<V>(f: Family<V>, scopes: seq<seq<Text>>, p: Progress<V>, k: nat,
                                                     i: nat, j: nat)
    requires Planned(f, scopes, p) && k <= |Whole(f, p)| && i < j < |p.plans|
    requires ResumeStep(p.plans[j]) in Whole(f, p)[..k]
    ensures ResumeStep(p.plans[i]) in Whole(f, p)[..k]
  {
    var whole, x, y := Whole(f, p), ResumeStep(p.plans[i]), ResumeStep(p.plans[j]);
    StepOfPlan(f, scopes, p, i);
    var s :| 0 <= s < |whole| && whole[s] == x;
    var t :| 0 <= t < k && whole[t] == y;
    PlansInOrder(f, scopes, p, i, j);
    if t < s {
      PlanLineage(f, scopes, p);
      VisitAscends(f.Bindings(), f.Bindings()[0]);
      FlattenAscends(PlanOf(f, p), Visit(f.Bindings(), f.Bindings()[0]), t, s);
    }
    assert whole[..k][s] == x;
  }

  lemma {:induction false} PlansInOrder<V>(f: Family<V>, scopes: seq<seq<Text>>, p: Progress<V>, i: nat, j: nat)
    requires Planned(f, scopes, p) && i < j < |p.plans|
    ensures p.plans[i].at != p.plans[j].at && !ScopeLess(p.plans[j].at.scope, p.plans[i].at.scope)
  {
    OpenPlan(f, scopes, p);
    OneWay(p.plans[i].at.scope, p.plans[j].at.scope);
  }

  lemma {:induction false} OneWay(a: seq<Text>, b: seq<Text>)
    requires ScopeLess(a, b)
    ensures a != b && !ScopeLess(b, a)
  {
    ScopeOrder();
  }

  /** The confirmed resumes are those of the first `m` plans. */
  ghost predicate ConfirmedUpTo<V>(plans: seq<PlannedResume<V>>, steps: seq<Step<V>>, m: nat) {
    m <= |plans| && forall j :: 0 <= j < |plans| ==> (ResumeStep(plans[j]) in steps <==> j < m)
  }

  lemma {:induction false} ConfirmedAreFirst<V>(f: Family<V>, scopes: seq<seq<Text>>, p: Progress<V>, k: nat)
    returns (m: nat)
    requires Planned(f, scopes, p) && k <= |Whole(f, p)|
    ensures ConfirmedUpTo(p.plans, Whole(f, p)[..k], m)
  {
    m := 0;
    while m < |p.plans| && ResumeStep(p.plans[m]) in Whole(f, p)[..k]
      invariant m <= |p.plans| && forall j :: 0 <= j < m ==> ResumeStep(p.plans[j]) in Whole(f, p)[..k]
    {
      m := m + 1;
    }
    forall j | m <= j < |p.plans|
      ensures ResumeStep(p.plans[j]) !in Whole(f, p)[..k]
    {
      if m < j && ResumeStep(p.plans[j]) in Whole(f, p)[..k] {
        EarlierPlanIsConfirmed(f, scopes, p, k, m, j);
      }
    }
  }

  // ---- planning in two parts -------------------------------------------------------------

  lemma {:induction false} PlanGroupsConcat<V>(graph: Graph, p: Progress<V>, a: seq<ResumeGroup<V>>,
                                               b: seq<ResumeGroup<V>>)
    ensures PlanGroups(graph, p, a + b)
         == match PlanGroups(graph, p, a) case None => None case Some(q) => PlanGroups(graph, q, b)
    decreases a
  {
    if a == [] {
      assert a + b == b;
    } else {
      assert (a + b)[0] == a[0] && (a + b)[1..] == a[1..] + b;
      if PlanGroup(graph, p, a[0]).Some? {
        PlanGroupsConcat(graph, PlanGroup(graph, p, a[0]).value, a[1..], b);
      }
    }
  }

  /** Earlier plans do not matter to later ones. */
  lemma {:induction false} PlanGroupShifts<V>(graph: Graph, p: Progress<V>, group: ResumeGroup<V>)
    ensures var q, r := PlanGroup(graph, p.(plans := []), group), PlanGroup(graph, p, group);
            && (r.Some? <==> q.Some?)
            && (r.Some? ==> r.value == q.value.(plans := p.plans + q.value.plans))
  {
  }

  /** The same planning, after some plans and after none. */
  ghost predicate Shifted<V>(plans: seq<PlannedResume<V>>, bare: Option<Progress<V>>, full: Option<Progress<V>>) {
    && (full.Some? <==> bare.Some?)
    && (full.Some? ==> full.value == bare.value.(plans := plans + bare.value.plans))
  }

  lemma {:induction false} PlanGroupsShift<V>(graph: Graph, p: Progress<V>, groups: seq<ResumeGroup<V>>)
    ensures Shifted(p.plans, PlanGroups(graph, p.(plans := []), groups), PlanGroups(graph, p, groups))
    decreases groups
  {
    if groups == [] {
      assert p.plans + [] == p.plans;
    } else {
      PlanGroupShifts(graph, p, groups[0]);
      var next, bare := PlanGroup(graph, p, groups[0]), PlanGroup(graph, p.(plans := []), groups[0]);
      if next.Some? {
        PlanGroupsShift(graph, next.value, groups[1..]);
        PlanGroupsShift(graph, bare.value, groups[1..]);
        assert next.value.(plans := []) == bare.value.(plans := []);
        ShiftTwice(p.plans, bare.value.plans, PlanGroups(graph, bare.value.(plans := []), groups[1..]),
                   PlanGroups(graph, bare.value, groups[1..]), PlanGroups(graph, next.value, groups[1..]));
      }
    }
  }

  lemma {:induction false} ShiftTwice<V>(first: seq<PlannedResume<V>>, second: seq<PlannedResume<V>>,
                                         tail: Option<Progress<V>>,
                                         bare: Option<Progress<V>>, full: Option<Progress<V>>)
    requires Shifted(second, tail, bare) && Shifted(first + second, tail, full)
    ensures Shifted(first, bare, full)
  {
    if tail.Some? {
      assert first + second + tail.value.plans == first + (second + tail.value.plans);
    }
  }

  /** Planning the first groups of a plannable request. */
  lemma {:induction false} PlannedPrefix<V>(graph: Graph, bs: seq<Binding>, frames: Index<V>,
                                            groups: seq<ResumeGroup<V>>, m: nat)
    returns (q: Progress<V>)
    requires CanonicalLineage(bs) && Canonical(frames.resumes) && Pairwise(ScopeLess, Scopes(groups)) && m <= |groups|
    requires PlanGroups(graph, Progress(bs, frames, []), groups).Some?
    ensures PlanGroups(graph, Progress(bs, frames, []), groups[..m]) == Some(q)
    ensures ResumePlan(bs, frames, Scopes(groups)[..m], q)
    ensures PlanGroups(graph, q, groups[m..]) == PlanGroups(graph, Progress(bs, frames, []), groups)
  {
    SplitGroups(graph, Progress(bs, frames, []), groups, m);
    q := PlanGroups(graph, Progress(bs, frames, []), groups[..m]).value;
    PrefixIsPlan(graph, bs, frames, groups, m, q);
    assert Seal.Seal.Broken();
  }

  /** A resume plan of the first `n` groups. */
  ghost predicate PlanOfFirst<V>(bs: seq<Binding>, frames: Index<V>, groups: seq<ResumeGroup<V>>, n: nat,
                                 q: Progress<V>) {
    forall s: Seal :: s.Broken() ==> n <= |groups| && ResumePlan(bs, frames, Scopes(groups)[..n], q)
  }

  /** The first `n` groups of a request are planned. */
  ghost predicate PlannedTo<V>(graph: Graph, start: Progress<V>, groups: seq<ResumeGroup<V>>, n: nat, q: Progress<V>) {
    forall s: Seal :: s.Broken() ==> n <= |groups| && PlanGroups(graph, start, groups[..n]) == Some(q)
  }

  lemma {:induction false} PrefixIsPlan<V>(graph: Graph, bs: seq<Binding>, frames: Index<V>,
                                           groups: seq<ResumeGroup<V>>, m: nat, q: Progress<V>)
    requires CanonicalLineage(bs) && Canonical(frames.resumes) && Pairwise(ScopeLess, Scopes(groups)) && m <= |groups|
    requires PlannedTo(graph, Progress(bs, frames, []), groups, m, q)
    ensures PlanOfFirst(bs, frames, groups, m, q)
  {
    if m == 0 {
      NonePlanned(graph, bs, frames, groups, q);
    } else {
      var before := PlannedBefore(graph, Progress(bs, frames, []), groups, m - 1, q);
      PrefixIsPlan(graph, bs, frames, groups, m - 1, before);
      NextIsPlan(graph, bs, frames, groups, m - 1, before, q);
    }
  }

  lemma {:induction false} NonePlanned<V>(graph: Graph, bs: seq<Binding>, frames: Index<V>, groups: seq<ResumeGroup<V>>,
                                          q: Progress<V>)
    requires CanonicalLineage(bs) && Canonical(frames.resumes)
    requires PlannedTo(graph, Progress(bs, frames, []), groups, 0, q)
    ensures PlanOfFirst(bs, frames, groups, 0, q)
  {
    assert Seal.Seal.Broken();
    EmptyPlan(bs, frames);
    assert Scopes(groups)[..0] == [];
  }

  lemma {:induction false} NextIsPlan<V>(graph: Graph, bs: seq<Binding>, frames: Index<V>, groups: seq<ResumeGroup<V>>,
                                         n: nat,
                                         before: Progress<V>, q: Progress<V>)
    requires CanonicalLineage(bs) && Pairwise(ScopeLess, Scopes(groups)) && n < |groups|
    requires PlanOfFirst(bs, frames, groups, n, before) && PlanGroup(graph, before, groups[n]) == Some(q)
    ensures PlanOfFirst(bs, frames, groups, n + 1, q)
  {
    assert Seal.Seal.Broken();
    NextGroup(graph, bs, frames, groups, n, before);
  }

  lemma {:induction false} PlannedBefore<V>(graph: Graph, start: Progress<V>, groups: seq<ResumeGroup<V>>, n: nat,
                                            q: Progress<V>)
    returns (before: Progress<V>)
    requires n < |groups| && PlannedTo(graph, start, groups, n + 1, q)
    ensures PlannedTo(graph, start, groups, n, before) && PlanGroup(graph, before, groups[n]) == Some(q)
  {
    assert Seal.Seal.Broken();
    PlanGroupsConcat(graph, start, groups[..n], [groups[n]]);
    Rejoined(groups, n);
    before := PlanGroups(graph, start, groups[..n]).value;
    OneGroup(graph, before, groups[n]);
  }

  lemma {:induction false} Rejoined<T>(s: seq<T>, m: nat)
    requires m <= |s|
    ensures s[..m] + s[m..] == s
    ensures m < |s| ==> s[..m] + [s[m]] == s[..m + 1]
  {
  }

  lemma {:induction false} SplitGroups<V>(graph: Graph, start: Progress<V>, groups: seq<ResumeGroup<V>>, m: nat)
    requires m <= |groups| && PlanGroups(graph, start, groups).Some?
    ensures PlanGroups(graph, start, groups[..m]).Some?
    ensures PlanGroups(graph, PlanGroups(graph, start, groups[..m]).value, groups[m..])
         == PlanGroups(graph, start, groups)
  {
    PlanGroupsConcat(graph, start, groups[..m], groups[m..]);
    Rejoined(groups, m);
  }

  lemma {:induction false} OneGroup<V>(graph: Graph, p: Progress<V>, group: ResumeGroup<V>)
    ensures PlanGroups(graph, p, [group]) == PlanGroup(graph, p, group)
  {
    assert [group][1..] == [];
  }

  // ---- where a confirmed prefix leaves the family ----------------------------------------

  /** The state of a scope after a confirmed prefix, once fenced: the planned successor if its resume was
      confirmed, and otherwise the fenced state it was planned from. */
  lemma {:induction false} FencedAfterPrefix<V>(f: Family<V>, scopes: seq<seq<Text>>, p: Progress<V>, k: nat, i: nat,
                                                part: Part<V>)
    requires Planned(f, scopes, p) && k <= |Whole(f, p)| && i < |f.Bindings()|
    requires PartAfter(f, Whole(f, p)[..k], f.Bindings()[i].at, part)
    ensures var b, resume := f.Bindings()[i], PlanFor(p.plans, f.Bindings()[i].at);
            FencedState(part.state)
            == if resume.Some? && ResumeStep(resume.value) in Whole(f, p)[..k] then resume.value.successor
            else FencedState(b.state)
  {
    PlanIsAdmitted(f, scopes, p);
    var b, steps := f.Bindings()[i], Whole(f, p)[..k];
    var own, all, resume := Project(steps, b.at), StepsAt(PlanOf(f, p), b.at), PlanFor(p.plans, b.at);
    var after := LocalPlanExecutes(f, scopes, p, i);
    WalkExecutesPlanExactlyOnce(f, scopes, p, i);
    PrefixProjection(Whole(f, p), k, b.at);
    StepsOf(f, p, i);
    AdmissibleIsValid(f.graph, f.Bindings(), b);
    FencesExecute(b, f.OwnerFrames(b.at));
    PositionSpec(f.Bindings(), i);
    if resume.Some? {
      ProjectMembers(steps, b.at, ResumeStep(resume.value));
      LastOfPrefix(own, FenceSteps(b), ResumeStep(resume.value));
      PlannedBinding(f, scopes, p, i);
      PlannedWithoutLease(f, scopes, p, i);
    } else {
      assert FenceSteps<V>(b) + [] == FenceSteps<V>(b);
      SingleOrNone(own, FenceSteps(b));
    }
  }

  lemma {:induction false} SingleOrNone<T>(own: seq<T>, all: seq<T>)
    requires own <= all && |all| <= 1
    ensures own == [] || own == all
  {
  }

  /** A prefix of some commits and a last one either holds all of them or not the last one. */
  lemma {:induction false} LastOfPrefix<T>(own: seq<T>, front: seq<T>, last: T)
    requires own <= front + [last] && |front| <= 1 && last !in front
    ensures last in own <==> own == front + [last]
    ensures last !in own ==> own == [] || own == front
  {
    if |own| == |front| + 1 {
      assert own == front + [last];
    } else if |own| == |front| {
      assert own == front;
    }
  }

  lemma {:induction false} PlannedWithoutLease<V>(f: Family<V>, scopes: seq<seq<Text>>, p: Progress<V>, i: nat)
    requires Planned(f, scopes, p) && i < |f.Bindings()| && PlanFor(p.plans, f.Bindings()[i].at).Some?
    ensures PlanFor(p.plans, f.Bindings()[i].at).value.successor.lease.None?
  {
    OpenPlan(f, scopes, p);
    FamilyIsCanonical(f);
    var fenced, at := FencedBindings(f.Bindings()), f.Bindings()[i].at;
    PlanAt(fenced, f.frames, scopes, p.plans, at);
    assert Ats(fenced) == Ats(f.Bindings());
    PositionSpec(fenced, i);
    ResumeFacts(fenced[i].state, PlanFor(p.plans, at).value.command.actions);
  }

  lemma {:induction false} PrefixPlanFor<V>(plans: seq<PlannedResume<V>>, scopes: seq<seq<Text>>, m: nat, at: ScopeRun)
    requires Ascending(ScopeLess, scopes) && |plans| == |scopes|
    requires (forall i :: 0 <= i < |scopes| ==> plans[i].at.scope == scopes[i])
    requires m <= |plans|
    ensures PlanFor(plans[..m], at)
         == match PlanFor(plans, at)
            case None => None
            case Some(q) => if q in plans[..m] then Some(q) else None
  {
    var found := PlanFor(plans[..m], at);
    if found.Some? {
      var j :| 0 <= j < m && plans[j] == found.value;
      OnlyPlanAt(scopes, plans, j);
    }
  }

  /** Fencing the states a confirmed prefix left gives the lineage planned by the first groups. */
  lemma {:induction false} PrefixLineage<V>(f: Family<V>, scopes: seq<seq<Text>>, p: Progress<V>, k: nat, m: nat,
                                            parts: map<ScopeRun, Part<V>>, q: Progress<V>)
    requires Planned(f, scopes, p) && k <= |Whole(f, p)| && PartsAfter(f, Whole(f, p)[..k], parts)
    requires ConfirmedUpTo(p.plans, Whole(f, p)[..k], m) && q.plans == p.plans[..m]
    requires ResumedLineage(FencedBindings(f.Bindings()), q.plans, q.bindings)
    ensures FencedBindings(StatesOf(f.Bindings(), parts)) == q.bindings
  {
    var bs, fenced := f.Bindings(), FencedBindings(f.Bindings());
    var after := FencedBindings(StatesOf(bs, parts));
    forall i | 0 <= i < |bs|
      ensures after[i] == q.bindings[i]
    {
      PrefixBinding(f, scopes, p, k, m, parts, i);
    }
  }

  lemma {:induction false} PrefixBinding<V>(f: Family<V>, scopes: seq<seq<Text>>, p: Progress<V>, k: nat, m: nat,
                                            parts: map<ScopeRun, Part<V>>, i: nat)
    requires Planned(f, scopes, p) && k <= |Whole(f, p)| && PartsAfter(f, Whole(f, p)[..k], parts) && i < |f.Bindings()|
    requires ConfirmedUpTo(p.plans, Whole(f, p)[..k], m)
    ensures FencedBindings(StatesOf(f.Bindings(), parts))[i]
         == Binding(f.Bindings()[i].at, ResumedState(FencedBindings(f.Bindings())[i], p.plans[..m]))
  {
    BoundIsListed(f.Bindings(), f.Bindings()[i]);
    FencedAfterPrefix(f, scopes, p, k, i, parts[f.Bindings()[i].at]);
    ResumedUpTo(f, scopes, p, Whole(f, p)[..k], m, f.Bindings()[i].at);
  }

  lemma {:induction false} ResumedUpTo<V>(f: Family<V>, scopes: seq<seq<Text>>, p: Progress<V>, steps: seq<Step<V>>,
                                          m: nat, at: ScopeRun)
    requires Planned(f, scopes, p) && ConfirmedUpTo(p.plans, steps, m)
    ensures PlanFor(p.plans[..m], at)
         == match PlanFor(p.plans, at)
            case None => None
            case Some(q) => if ResumeStep(q) in steps then Some(q) else None
  {
    OpenPlan(f, scopes, p);
    PrefixPlanFor(p.plans, scopes, m, at);
    if PlanFor(p.plans, at).Some? {
      FirstIffConfirmed(p.plans, steps, m, PlanFor(p.plans, at).value);
    }
  }

  lemma {:induction false} FirstIffConfirmed<V>(plans: seq<PlannedResume<V>>, steps: seq<Step<V>>, m: nat,
                                                q: PlannedResume<V>)
    requires ConfirmedUpTo(plans, steps, m) && q in plans
    ensures q in plans[..m] <==> ResumeStep(q) in steps
  {
    var j :| 0 <= j < |plans| && plans[j] == q;
    if j < m {
      assert plans[..m][j] == q;
    }
    if q in plans[..m] {
      var i :| 0 <= i < m && plans[..m][i] == q;
    }
  }

  /** The inputs of a confirmed prefix are those of the first plans. */
  lemma {:induction false} PrefixInputs<V>(f: Family<V>, scopes: seq<seq<Text>>, p: Progress<V>, k: nat, m: nat,
                                           r: Record<V>)
    requires Planned(f, scopes, p) && k <= |Whole(f, p)| && ConfirmedUpTo(p.plans, Whole(f, p)[..k], m)
    ensures r in StepInputs(Whole(f, p)[..k]) <==> InSomePlan(p.plans[..m], r)
  {
    var steps := Whole(f, p)[..k];
    StepInputMembers(steps, r);
    if r in StepInputs(steps) {
      var s :| s in steps && r in s.Inputs();
      PrefixMembers(Whole(f, p), k, s);
      PlanOfStep(f, scopes, p, s);
      ConfirmedPlan(p.plans, steps, m, s.resume, r);
    }
    if InSomePlan(p.plans[..m], r) {
      var j :| 0 <= j < m && r in p.plans[..m][j].inputs;
      StepInputOf(steps, ResumeStep(p.plans[j]), r);
    }
  }

  lemma {:induction false} ConfirmedPlan<V>(plans: seq<PlannedResume<V>>, steps: seq<Step<V>>, m: nat,
                                            q: PlannedResume<V>, r: Record<V>)
    requires ConfirmedUpTo(plans, steps, m) && q in plans && ResumeStep(q) in steps && r in q.inputs
    ensures InSomePlan(plans[..m], r)
  {
    var j :| 0 <= j < |plans| && plans[j] == q;
    assert plans[..m][j] == q;
  }

  lemma {:induction false} PrefixFrames<V>(f: Family<V>, scopes: seq<seq<Text>>, p: Progress<V>, k: nat, m: nat,
                                           out: Index<V>, q: Progress<V>)
    requires Planned(f, scopes, p) && k <= |Whole(f, p)| && ResumedBy(f.frames, Whole(f, p)[..k], out)
    requires ConfirmedUpTo(p.plans, Whole(f, p)[..k], m) && q.plans == p.plans[..m]
    requires ResumedFrames(f.frames, q.plans, q.frames)
    ensures out == q.frames
  {
    forall r: Record<V>
      ensures r in StepInputs(Whole(f, p)[..k]) <==> InSomePlan(q.plans, r)
    {
      PrefixInputs(f, scopes, p, k, m, r);
    }
    ResumedFramesAreResumed(f.frames, q.plans, Whole(f, p)[..k], q.frames);
    ResumedByUnique(f.frames, Whole(f, p)[..k], out, q.frames);
  }

  // ---- submitting the rest again ---------------------------------------------------------

  lemma {:induction false} SuffixInOrder<V>(groups: seq<ResumeGroup<V>>, m: nat)
    requires Pairwise(ScopeLess, Scopes(groups)) && m <= |groups|
    ensures Pairwise(ScopeLess, Scopes(groups[m..]))
  {
    ScopeOrder();
    PairwiseIsAscending(ScopeLess, Scopes(groups));
    PairwiseIsAscending(ScopeLess, Scopes(groups[m..]));
    assert Scopes(groups[m..]) == Scopes(groups)[m..];
  }

  lemma {:induction false} PlanFamilyPlans<V>(f: Family<V>, groups: seq<ResumeGroup<V>>, p: Progress<V>)
    requires LineageStates(f.root, f.runs).Some? && CanonicalIndex(f.frames) && FramesBelong(f)
    requires PlanFamily(f, groups) == Some(p)
    ensures Planned(f, Scopes(groups), p) && CanonicalLineage(FencedBindings(f.Bindings()))
  {
    FamilyIsCanonical(f);
    FencedIsCanonical(f.Bindings());
    var q := PlannedPrefix(f.graph, FencedBindings(f.Bindings()), f.frames, groups, |groups|);
    assert groups[|groups|..] == [] && groups[..|groups|] == groups && Scopes(groups)[..|groups|] == Scopes(groups);
    ScopeOrder();
    PairwiseIsAscending(ScopeLess, Scopes(groups));
  }

  /** The plans of the first groups, and what is left to plan. */
  lemma {:induction false} SplitPlan<V>(f: Family<V>, groups: seq<ResumeGroup<V>>, p: Progress<V>, m: nat)
    returns (q: Progress<V>)
    requires CanonicalLineage(FencedBindings(f.Bindings())) && Canonical(f.frames.resumes)
    requires PlanFamily(f, groups) == Some(p) && m <= |groups| == |p.plans|
    ensures q.plans == p.plans[..m] && ResumePlan(FencedBindings(f.Bindings()), f.frames, Scopes(groups)[..m], q)
    ensures PlanGroups(f.graph, Progress(q.bindings, q.frames, []), groups[m..]) == Some(p.(plans := p.plans[m..]))
  {
    q := PlannedPrefix(f.graph, FencedBindings(f.Bindings()), f.frames, groups, m);
    PlanGroupsShift(f.graph, q, groups[m..]);
    assert |q.plans| == m;
    var rest := PlanGroups(f.graph, q.(plans := []), groups[m..]).value;
    assert p.plans == q.plans + rest.plans;
  }

  /** Resubmission. After any confirmed prefix of a planned continuation, the resumes that were not confirmed
      are those of the last groups; submitting exactly these groups again on the continuation handed back is
      accepted, and plans exactly the lineage and frames that were planned at first. */
  lemma {:induction false} ResubmissionReachesPlan<V>(f: Family<V>, groups: seq<ResumeGroup<V>>, p: Progress<V>, k: nat,
                                                      g: Family<V>)
    returns (m: nat)
    requires LineageStates(f.root, f.runs).Some? && CanonicalIndex(f.frames) && FramesBelong(f)
    requires PlanFamily(f, groups) == Some(p) && k <= |Whole(f, p)| && FrozenFacts(f, Whole(f, p)[..k], g)
    ensures |p.plans| == |groups| && ConfirmedUpTo(p.plans, Whole(f, p)[..k], m)
    ensures PlanFamily(g, groups[m..]) == Some(p.(plans := p.plans[m..]))
  {
    var scopes := Scopes(groups);
    PlanFamilyPlans(f, groups, p);
    OpenPlan(f, scopes, p);
    m := ConfirmedAreFirst(f, scopes, p, k);
    var q := SplitPlan(f, groups, p, m);
    var parts, out := PrefixHandoff(f, scopes, p, k);
    PrefixFrames(f, scopes, p, k, m, g.frames, q);
    PrefixLineage(f, scopes, p, k, m, parts, q);
    ContinuedBindings(f, scopes, p, k, parts, g);
    SuffixInOrder(groups, m);
  }

  lemma {:induction false} ContinuedBindings<V>(f: Family<V>, scopes: seq<seq<Text>>, p: Progress<V>, k: nat,
                                                parts: map<ScopeRun, Part<V>>,
                                                g: Family<V>)
    requires Planned(f, scopes, p) && k <= |Whole(f, p)| && PartsAfter(f, Whole(f, p)[..k], parts)
    requires RunSteps(f.Parts(), Whole(f, p)[..k]) == Some(parts) && FrozenFacts(f, Whole(f, p)[..k], g)
    ensures g.graph == f.graph && g.Bindings() == StatesOf(f.Bindings(), parts) && Plannable(g.graph, g.Bindings())
  {
    PlanLineage(f, scopes, p);
    ReplanIsUnconfirmed(f, scopes, p, k, parts);
    ContinuationScopes(f, parts, g.frames);
  }
}
