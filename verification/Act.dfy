/** The Act tool-use run: resolve, authorize across an interrupt, execute, settle, each stage through the
    shared Hook. */
module Act {
  import opened Sorted
  import opened FrameIndex

  // ---- values ----------------------------------------------------------------------------

  datatype Request = Request(pairing: Text, selector: Text, hookState: Text)

  /** An invocation the resolve port found for a request. */
  datatype Invocation = Invocation(request: Request, binding: Text, argumentsDigest: Text)

  datatype ExecutionIdentity = ExecutionIdentity(pairing: Text, binding: Text, argumentsDigest: Text)

  function IdentityOf(i: Invocation): (id: ExecutionIdentity) {
    ExecutionIdentity(i.request.pairing, i.binding, i.argumentsDigest)
  }

  datatype Verdict = Allow | Deny

  datatype Authorization =
    | Initial(resolved: Invocation)
    | Resumed(resolved: Invocation, requestPairing: Text, verdict: Verdict)

  /** The resumed form can only be built for the pairing it was requested for. */
  predicate ValidAuthorization(a: Authorization) {
    a.Resumed? ==> a.requestPairing == a.resolved.request.pairing
  }

  datatype Settled = Settled(identity: ExecutionIdentity, receipt: Text)

  datatype StageValue =
    | ResolveValue(authorization: Authorization)
    | AuthorizeValue(invocation: Invocation)
    | ExecuteValue(identity: ExecutionIdentity)
    | SettleValue(settled: Settled)

  datatype Stage = ResolveStage | AuthorizeStage | ExecuteStage | SettleStage

  function StageOf(v: StageValue): (s: Stage) {
    match v
    case ResolveValue(_) => ResolveStage
    case AuthorizeValue(_) => AuthorizeStage
    case ExecuteValue(_) => ExecuteStage
    case SettleValue(_) => SettleStage
  }

  // ---- the run ---------------------------------------------------------------------------

  datatype Run =
    | Resolving(request: Request)
    | Hooking(value: StageValue)
    | Authorizing(authorization: Authorization)
    | Interrupted(pairing: Text)
    | Executing(invocation: Invocation)
    | Settling(identity: ExecutionIdentity)
    | Done(settled: Settled)
    | Failed

  /** What the ports, the Hook and the caller answer. An execution is lost when its activation is cancelled or
      fenced after the port was called and before its settlement is committed; the node stays pending. */
  datatype Event =
    | ResolveAnswered(resolved: Option<Invocation>)
    | HookAnswered(value: StageValue)
    | AuthorizationRequested(pairing: Text)
    | AuthorizationResumed(asked: Verdict, authorization: Authorization)
    | ExecutionLost
    | ExecuteAnswered(outcome: Option<ExecutionIdentity>)
    | SettlementAnswered(identity: ExecutionIdentity, receipt: Text)

  /** A run with its history: the confirmed stages, the invocations handed to the execute port, and the
      last resumed authorization. */
  datatype World = World(run: Run, confirmed: seq<Stage>, executed: seq<Invocation>, resumed: Option<Authorization>)

  /** The stage that follows a confirmed Hook value. */
  function AfterHook(v: StageValue): (r: Run) {
    match v
    case ResolveValue(a) => Authorizing(a)
    case AuthorizeValue(i) => Executing(i)
    case ExecuteValue(id) => Settling(id)
    case SettleValue(s) => Done(s)
  }

  /** One step; None when the event is not the one the run waits for. */
  function Step(w: World, e: Event): (r: Option<World>) {
    match e
    case ResolveAnswered(resolved) =>
      if !w.run.Resolving? then None
      else if resolved.None? || resolved.value.request != w.run.request then Some(w.(run := Failed))
      else Some(w.(run := Hooking(ResolveValue(Initial(resolved.value)))))
    case HookAnswered(v) =>
      if !w.run.Hooking? then None
      else if v != w.run.value then Some(w.(run := Failed))
      else Some(w.(run := AfterHook(v), confirmed := w.confirmed + [StageOf(v)]))
    case AuthorizationRequested(pairing) =>
      if !w.run.Authorizing? || !w.run.authorization.Initial? then None
      else if pairing != w.run.authorization.resolved.request.pairing then Some(w.(run := Failed))
      else Some(w.(run := Interrupted(pairing)))
    case AuthorizationResumed(_, a) =>
      if !w.run.Interrupted? || a.Initial? || !ValidAuthorization(a) then None
      else
        var next := w.(resumed := Some(a));
        Some(if a.verdict == Deny then next.(run := Failed) else next.(run := Hooking(AuthorizeValue(a.resolved))))
    case ExecutionLost =>
      if !w.run.Executing? then None else Some(w.(executed := w.executed + [w.run.invocation]))
    case ExecuteAnswered(id) =>
      if !w.run.Executing? then None
      else
        var next := w.(executed := w.executed + [w.run.invocation]);
        Some(if id.None? || id.value != IdentityOf(w.run.invocation) then next.(run := Failed)
             else next.(run := Hooking(ExecuteValue(id.value))))
    case SettlementAnswered(id, receipt) =>
      if !w.run.Settling? then None
      else if id != w.run.identity then Some(w.(run := Failed))
      else Some(w.(run := Hooking(SettleValue(Settled(id, receipt)))))
  }

  function Begin(request: Request): (w: World) { World(Resolving(request), [], [], None) }

  function Execution(request: Request, events: seq<Event>): (w: Option<World>) {
    if events == [] then Some(Begin(request))
    else
      var n := |events| - 1;
      match Execution(request, events[..n])
      case None => None
      case Some(w) => Step(w, events[n])
  }

  // ---- the invariant ---------------------------------------------------------------------

  const STAGES: seq<Stage> := [ResolveStage, AuthorizeStage, ExecuteStage, SettleStage]

  /** The last resumed authorization allowed exactly this invocation. */
  ghost predicate Allowed(w: World, i: Invocation) {
    w.resumed.Some? && w.resumed.value.Resumed? && w.resumed.value.verdict == Allow && w.resumed.value.resolved == i
  }

  ghost predicate AllAllowed(w: World) { forall i :: i in w.executed ==> Allowed(w, i) }

  /** Before and after execution. */
  ghost predicate Before(w: World, stages: nat) { w.executed == [] && stages <= 4 && w.confirmed == STAGES[..stages] }

  ghost predicate After(w: World, stages: nat, id: ExecutionIdentity) {
    && stages <= 4 && w.confirmed == STAGES[..stages]
    && w.executed != [] && AllAllowed(w) && forall i :: i in w.executed ==> id == IdentityOf(i)
  }

  ghost predicate Inv(w: World) {
    match w.run
    case Resolving(_) => Before(w, 0)
    case Hooking(v) =>
      (match v
       case ResolveValue(_) => Before(w, 0)
       case AuthorizeValue(i) => Before(w, 1) && Allowed(w, i)
       case ExecuteValue(id) => After(w, 2, id)
       case SettleValue(s) => After(w, 3, s.identity))
    case Authorizing(a) => Before(w, 1)
    case Interrupted(_) => Before(w, 1)
    case Executing(i) => w.confirmed == STAGES[..2] && Allowed(w, i) && AllAllowed(w)
    case Settling(id) => After(w, 3, id)
    case Done(s) => After(w, 4, s.identity)
    case Failed =>
      && |w.confirmed| <= 3 && w.confirmed == STAGES[..|w.confirmed|]
      && AllAllowed(w)
  }

  lemma {:induction false} StagesExtend(n: nat)
    requires n < 4
    ensures STAGES[..n] + [STAGES[n]] == STAGES[..n + 1]
  {
  }

  lemma {:induction false} HookKeepsInv(w: World, e: Event)
    requires Inv(w) && e.HookAnswered? && Step(w, e).Some?
    ensures Inv(Step(w, e).value)
  {
    StagesExtend(0);
    StagesExtend(1);
    StagesExtend(2);
    StagesExtend(3);
  }

  lemma {:induction false} StepKeepsInv(w: World, e: Event)
    requires Inv(w) && Step(w, e).Some?
    ensures Inv(Step(w, e).value)
  {
    if e.HookAnswered? {
      HookKeepsInv(w, e);
    }
  }

  lemma {:induction false} ExecutionKeepsInv(request: Request, events: seq<Event>)
    requires Execution(request, events).Some?
    ensures Inv(Execution(request, events).value)
  {
    if events != [] {
      var n := |events| - 1;
      ExecutionKeepsInv(request, events[..n]);
      StepKeepsInv(Execution(request, events[..n]).value, events[n]);
    }
  }

  // ---- the promises ----------------------------------------------------------------------

  /** Safety over every run, including the interrupt, the resume and lost executions: whatever reaches the
      execute port was allowed by the resumed authorization, which holds exactly that invocation; a settled
      result carries the pairing, binding and arguments digest of every one of them; and the confirmed stages
      are a prefix of resolve, authorize, execute, settle, complete exactly when the run is done. */
  lemma {:induction false} ActSafety(request: Request, events: seq<Event>)
    requires Execution(request, events).Some?
    ensures var w := Execution(request, events).value;
            && (forall i :: i in w.executed ==> Allowed(w, i))
            && w.confirmed <= STAGES
            && (w.run.Done? <==> w.confirmed == STAGES)
            && (w.run.Done? ==> w.executed != [] && forall i :: i in w.executed ==>
                                                                  w.run.settled.identity == IdentityOf(i))
  {
    ExecutionKeepsInv(request, events);
    var w := Execution(request, events).value;
    assert STAGES[..4] == STAGES;
  }

  // ---- the run and its answers -----------------------------------------------------------

  /** The receipt of the last settlement that was answered. */
  function LastReceipt(events: seq<Event>): (r: Option<Text>) {
    if events == [] then None
    else
      var e := events[|events| - 1];
      if e.SettlementAnswered? then Some(e.receipt) else LastReceipt(events[..|events| - 1])
  }

  /** The authorization of the last resume. */
  function LastResumed(events: seq<Event>): (a: Option<Authorization>) {
    if events == [] then None
    else
      var e := events[|events| - 1];
      if e.AuthorizationResumed? then Some(e.authorization) else LastResumed(events[..|events| - 1])
  }

  /** How often an authorization was requested. */
  function Questions(events: seq<Event>): (n: nat) {
    if events == [] then 0
    else Questions(events[..|events| - 1]) + (if events[|events| - 1].AuthorizationRequested? then 1 else 0)
  }

  predicate Resumes(events: seq<Event>) {
    exists i :: 0 <= i < |events| && events[i].AuthorizationResumed?
  }

  /** Up to the first resume the run only carries the invocation resolved for its own request. */
  ghost predicate OfRequest(run: Run, request: Request) {
    match run
    case Resolving(r) => r == request
    case Hooking(v) => v.ResolveValue? && v.authorization.Initial? && v.authorization.resolved.request == request
    case Authorizing(a) => a.Initial? && a.resolved.request == request
    case Interrupted(pairing) => pairing == request.pairing
    case Failed => true
    case _ => false
  }

  ghost predicate OfEvents(w: World, request: Request, events: seq<Event>) {
    && w.resumed == LastResumed(events)
    && (w.resumed.Some? ==> w.resumed.value.Resumed? && ValidAuthorization(w.resumed.value))
    && (!Resumes(events) ==> OfRequest(w.run, request))
    && (w.run.Hooking? && w.run.value.SettleValue? ==> LastReceipt(events) == Some(w.run.value.settled.receipt))
    && (w.run.Done? ==> LastReceipt(events) == Some(w.run.settled.receipt))
  }

  /** No run goes on with an invocation of another request: until its authorization is resumed it carries the
      invocation resolved for its own request and asks for its own pairing. And a settled result carries the
      receipt its settlement answered. */
  lemma {:induction false} RunFollowsItsAnswers(request: Request, events: seq<Event>)
    requires Execution(request, events).Some?
    ensures OfEvents(Execution(request, events).value, request, events)
  {
    if events != [] {
      var n := |events| - 1;
      RunFollowsItsAnswers(request, events[..n]);
      if Resumes(events[..n]) {
        var i :| 0 <= i < n && events[..n][i].AuthorizationResumed?;
        assert events[i].AuthorizationResumed?;
      }
      if events[n].AuthorizationResumed? {
        assert Resumes(events);
      }
    }
  }

  /** No run asks twice: one authorization is requested, and nothing goes on to execution without it. */
  lemma {:induction false} AskedOnce(request: Request, events: seq<Event>)
    requires Execution(request, events).Some?
    ensures var w := Execution(request, events).value;
            && Questions(events) <= 1
            && (w.run.Resolving? || w.run.Authorizing? ==> Questions(events) == 0)
            && (w.run.Hooking? ==> Questions(events) == if w.run.value.ResolveValue? then 0 else 1)
            && (w.run.Interrupted? || w.run.Executing? || w.run.Settling? || w.run.Done? ==> Questions(events) == 1)
  {
    if events != [] {
      AskedOnce(request, events[..|events| - 1]);
    }
  }

  /** How often an execution was lost. */
  function Losses(events: seq<Event>): (n: nat) {
    if events == [] then 0 else Losses(events[..|events| - 1]) + (if events[|events| - 1].ExecutionLost? then 1 else 0)
  }

  ghost predicate Counted(w: World, losses: nat) {
    if w.run.Settling? || w.run.Done? || (w.run.Hooking? && (w.run.value.ExecuteValue? || w.run.value.SettleValue?))
    then |w.executed| == losses + 1
    else if w.run.Failed? then losses <= |w.executed| <= losses + 1
      else |w.executed| == losses
  }

  lemma {:induction false} ExecutionIsCounted(request: Request, events: seq<Event>)
    requires Execution(request, events).Some?
    ensures Counted(Execution(request, events).value, Losses(events))
  {
    if events != [] {
      ExecutionIsCounted(request, events[..|events| - 1]);
    }
  }

  /** The execute port is called once for every lost execution and at most once more, exactly once more in a
      run that is done; such a run called it only once exactly when no execution was lost. */
  lemma {:induction false} ExecutionsAreCounted(request: Request, events: seq<Event>)
    requires Execution(request, events).Some?
    ensures var w := Execution(request, events).value;
            && Losses(events) <= |w.executed| <= Losses(events) + 1
            && (w.run.Done? ==> |w.executed| == Losses(events) + 1)
            && (Losses(events) == 0 ==> |w.executed| <= 1)
            && (w.run.Done? && |w.executed| <= 1 ==> Losses(events) == 0)
  {
    ExecutionIsCounted(request, events);
  }

  /** The run that executes: the port and the caller decide what the resumed authorization holds. */
  function ResumedRun(r: Invocation, asked: Verdict, a: Authorization): (events: seq<Event>) {
    [ResolveAnswered(Some(r)), HookAnswered(ResolveValue(Initial(r))), AuthorizationRequested(r.request.pairing),
     AuthorizationResumed(asked, a), HookAnswered(AuthorizeValue(a.resolved)),
     ExecuteAnswered(Some(IdentityOf(a.resolved)))]
  }

  lemma {:induction false} RunsTo(r: Invocation, asked: Verdict, a: Authorization, n: nat)
    requires a.Resumed? && ValidAuthorization(a) && a.verdict == Allow && n <= 6
    ensures Execution(r.request, ResumedRun(r, asked, a)[..n])
         == Some(if n == 0 then Begin(r.request)
                 else if n == 1 then World(Hooking(ResolveValue(Initial(r))), [], [], None)
                 else if n == 2 then World(Authorizing(Initial(r)), [ResolveStage], [], None)
                 else if n == 3 then World(Interrupted(r.request.pairing), [ResolveStage], [], None)
                 else if n == 4 then World(Hooking(AuthorizeValue(a.resolved)), [ResolveStage], [], Some(a))
                 else if n == 5 then World(Executing(a.resolved), [ResolveStage, AuthorizeStage], [], Some(a))
                 else World(Hooking(ExecuteValue(IdentityOf(a.resolved))), [ResolveStage, AuthorizeStage],
                            [a.resolved], Some(a)))
  {
    if n > 0 {
      var events := ResumedRun(r, asked, a);
      RunsTo(r, asked, a, n - 1);
      assert events[..n][..n - 1] == events[..n - 1] && events[..n][n - 1] == events[n - 1];
      assert [] + [ResolveStage] == [ResolveStage]
             && [ResolveStage] + [AuthorizeStage] == [ResolveStage, AuthorizeStage];
      assert [] + [a.resolved] == [a.resolved];
    }
  }

  /** The rest of a run that executed: its execution is confirmed, settled with a receipt, and confirmed. */
  function SettledRun(r: Invocation, asked: Verdict, a: Authorization, receipt: Text): (events: seq<Event>) {
    var id := IdentityOf(a.resolved);
    ResumedRun(r, asked, a)
    + [HookAnswered(ExecuteValue(id)), SettlementAnswered(id, receipt), HookAnswered(SettleValue(Settled(id, receipt)))]
  }

  /** An allowed run can always be finished, with the identity it executed and the receipt it was given. */
  lemma {:induction false} AllowedRunIsDone(r: Invocation, asked: Verdict, a: Authorization, receipt: Text)
    requires a.Resumed? && ValidAuthorization(a) && a.verdict == Allow
    ensures Execution(r.request, SettledRun(r, asked, a, receipt))
         == Some(World(Done(Settled(IdentityOf(a.resolved), receipt)), STAGES, [a.resolved], Some(a)))
  {
    var events, id := SettledRun(r, asked, a, receipt), IdentityOf(a.resolved);
    var resumed := ResumedRun(r, asked, a);
    RunsTo(r, asked, a, 6);
    assert resumed[..6] == resumed && events[..6] == resumed;
    assert events[..7][..6] == events[..6] && events[..8][..7] == events[..7] && events[..9] == events;
    var stages := [ResolveStage, AuthorizeStage];
    assert stages + [ExecuteStage] == [ResolveStage, AuthorizeStage, ExecuteStage];
    assert Execution(r.request, events[..7])
        == Some(World(Settling(id), stages + [ExecuteStage], [a.resolved], Some(a)));
    assert Execution(r.request, events[..8])
        == Some(World(Hooking(SettleValue(Settled(id, receipt))), stages + [ExecuteStage], [a.resolved], Some(a)));
    assert stages + [ExecuteStage] + [SettleStage] == STAGES;
  }

  /** A run that executes twice: its first execution is lost and the second one answered. */
  lemma {:induction false} LostExecutionRepeats(r: Invocation, asked: Verdict, a: Authorization)
    requires a.Resumed? && ValidAuthorization(a) && a.verdict == Allow
    ensures var events := ResumedRun(r, asked, a)[..5] + [ExecutionLost, ExecuteAnswered(Some(IdentityOf(a.resolved)))];
            && Execution(r.request, events).Some?
            && Execution(r.request, events).value.executed == [a.resolved, a.resolved]
  {
    var before := ResumedRun(r, asked, a)[..5];
    var lost := before + [ExecutionLost];
    var events := before + [ExecutionLost, ExecuteAnswered(Some(IdentityOf(a.resolved)))];
    RunsTo(r, asked, a, 5);
    assert lost[..5] == before && events[..6] == lost;
    assert Execution(r.request, lost).value.executed == [a.resolved];
  }

  /** What executes is whatever the authorize port put into the resumed authorization: the caller's own
      verdict and the invocation resolved before the interrupt are not consulted. So a denied run executes,
      or another invocation executes, exactly when the port builds such an authorization. */
  lemma {:induction false} PortDecidesWhatExecutes(r: Invocation, asked: Verdict, a: Authorization)
    requires a.Resumed? && ValidAuthorization(a)
    ensures a.verdict == Allow ==>
              && Execution(r.request, ResumedRun(r, asked, a)).Some?
              && Execution(r.request, ResumedRun(r, asked, a)).value.executed == [a.resolved]
    ensures a.verdict == Deny ==> Execution(r.request, ResumedRun(r, asked, a)).None?
  {
    var events := ResumedRun(r, asked, a);
    assert events[..6] == events;
    if a.verdict == Allow {
      RunsTo(r, asked, a, 6);
    } else {
      DeniedFails(r, asked, a);
    }
  }

  lemma {:induction false} DeniedFails(r: Invocation, asked: Verdict, a: Authorization)
    requires a.Resumed? && ValidAuthorization(a) && a.verdict == Deny
    ensures Execution(r.request, ResumedRun(r, asked, a)).None?
  {
    var events := ResumedRun(r, asked, a);
    RunsTo(r, asked, a.(verdict := Allow), 3);
    var same := ResumedRun(r, asked, a.(verdict := Allow));
    assert events[..3] == same[..3];
    assert events[..4][..3] == events[..3] && events[..5][..4] == events[..4] && events[..6][..5] == events[..5]
           && events[..6] == events;
    assert Execution(r.request, events[..4]).value.run == Failed;
    assert Execution(r.request, events[..5]).None?;
  }
}
