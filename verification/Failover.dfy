/** The failover retry machine: fixed routing, durable counters and the observe/invoke/prepare cycle. */
module Failover {
  import opened FrameIndex

  // ---- values ----------------------------------------------------------------------------

  datatype Strategy =
    | Wait
    | TransformRequest
    | RefreshCredential
    | RotateCredential
    | SwitchEndpoint
    | ReturnToModel
    | AbortOperation

  /** The exact pair that selects a strategy; either part may be missing. */
  datatype Signal = Signal(status: Option<nat>, hint: Option<string>)

  datatype Evidence = Evidence(signal: Signal, retryAfter: Option<real>)

  datatype PortOutcome = Completed | Rejected(evidence: Evidence) | InProgress | Unknown(evidence: Evidence)

  datatype Limit = Limit(strategy: Strategy, max: nat)

  datatype Budget = Budget(maxWireAttempts: nat, defaultMax: nat, limits: seq<Limit>)

  /** The plan of one revision; `transforms` says whether it carries a request transform. */
  datatype Plan = Plan(revision: nat, budget: Budget, transforms: bool)

  datatype Usage = Usage(strategy: Strategy, used: nat)

  datatype Context = Context(revision: nat, requestVersion: nat, attemptOrdinal: nat, endpointCursor: nat,
                             credentialCursor: nat, usages: seq<Usage>)

  function NewContext(plan: Plan): (c: Context) { Context(plan.revision, 1, 0, 0, 0, []) }

  // ---- the fixed policy ------------------------------------------------------------------

  datatype Rule = Rule(signal: Signal, strategy: Strategy)

  const FIXED_RULES: seq<Rule> := [
    Rule(Signal(Some(429), Some("rate_limited")), Wait),
    Rule(Signal(Some(429), Some("quota_exceeded")), Wait),
    Rule(Signal(Some(401), Some("token_expired")), RefreshCredential),
    Rule(Signal(Some(401), Some("invalid_credential")), RotateCredential),
    Rule(Signal(Some(401), Some("invalid_api_key")), RotateCredential),
    Rule(Signal(Some(503), Some("service_unavailable")), SwitchEndpoint),
    Rule(Signal(Some(503), Some("overloaded")), SwitchEndpoint),
    Rule(Signal(Some(408), Some("request_timeout")), Wait),
    Rule(Signal(Some(504), Some("request_timeout")), Wait),
    Rule(Signal(Some(400), Some("bad_payload")), TransformRequest),
    Rule(Signal(Some(403), Some("forbidden")), ReturnToModel),
    Rule(Signal(Some(409), Some("conflict")), AbortOperation)]

  function Lookup(rules: seq<Rule>, signal: Signal): (s: Option<Strategy>) {
    if rules == [] then None
    else if rules[0].signal == signal then Some(rules[0].strategy)
    else Lookup(rules[1..], signal)
  }

  function FixedStrategy(e: Evidence): (s: Option<Strategy>) { Lookup(FIXED_RULES, e.signal) }

  predicate Preparing(s: Strategy) {
    s == Wait || s == TransformRequest || s == RefreshCredential || s == RotateCredential || s == SwitchEndpoint
  }

  function MaxUses(limits: seq<Limit>, fallback: nat, s: Strategy): (n: nat) {
    if limits == [] then fallback
    else if limits[0].strategy == s then limits[0].max
    else MaxUses(limits[1..], fallback, s)
  }

  function MaxUsesFor(b: Budget, s: Strategy): (n: nat) { MaxUses(b.limits, b.defaultMax, s) }

  function Uses(usages: seq<Usage>, s: Strategy): (n: nat) {
    if usages == [] then 0
    else if usages[0].strategy == s then usages[0].used
    else Uses(usages[1..], s)
  }

  function UsesFor(c: Context, s: Strategy): (n: nat) { Uses(c.usages, s) }

  function Without(usages: seq<Usage>, s: Strategy): (rest: seq<Usage>) {
    if usages == [] then []
    else (if usages[0].strategy == s then [] else [usages[0]]) + Without(usages[1..], s)
  }

  function WithStrategyUse(c: Context, s: Strategy): (d: Context) {
    c.(usages := Without(c.usages, s) + [Usage(s, UsesFor(c, s) + 1)])
  }

  datatype Decision = Done | Prepare(strategy: Strategy) | Return(exhausted: bool) | Abort

  /** `observe_and_route`. */
  function Route(plan: Plan, c: Context, outcome: PortOutcome): (d: Decision) {
    match outcome
    case Completed => Done
    case InProgress => Return(false)
    case Unknown(_) => Return(false)
    case Rejected(e) => RouteRejected(plan, c, FixedStrategy(e))
  }

  /** `route_rejected`, once the strategy has been looked up. */
  function RouteRejected(plan: Plan, c: Context, strategy: Option<Strategy>): (d: Decision) {
    match strategy
    case None => Return(false)
    case Some(s) =>
      if s == ReturnToModel then Return(false)
      else if s == AbortOperation then Abort
      else if UsesFor(c, s) >= MaxUsesFor(plan.budget, s)
              || c.attemptOrdinal >= plan.budget.maxWireAttempts - 1 then Return(true)
      else if s == TransformRequest && !plan.transforms then Return(false)
      else Prepare(s)
  }

  function Increment(b: bool): (n: nat) { if b then 1 else 0 }

  /** The context of the next attempt. */
  function NextContext(c: Context, s: Strategy): (d: Context) {
    WithStrategyUse(c, s).(
    requestVersion := c.requestVersion + Increment(s == TransformRequest),
    attemptOrdinal := c.attemptOrdinal + 1,
    endpointCursor := c.endpointCursor + Increment(s == SwitchEndpoint),
    credentialCursor := c.credentialCursor + Increment(s == RotateCredential))
  }

  /** One turn of the cycle: an invocation was observed; the next invocation's context, if there is one. */
  function Turn(plan: Plan, c: Context, outcome: PortOutcome): (next: Option<Context>) {
    if c.revision != plan.revision then None
    else
      match Route(plan, c, outcome)
      case Prepare(s) => Some(NextContext(c, s))
      case _ => None
  }

  /** The context in which the machine makes its next wire call after the given outcomes, if it does. */
  function Reach(plan: Plan, outcomes: seq<PortOutcome>): (c: Option<Context>) {
    if outcomes == [] then Some(NewContext(plan))
    else
      var n := |outcomes| - 1;
      match Reach(plan, outcomes[..n])
      case None => None
      case Some(c) => Turn(plan, c, outcomes[n])
  }

  // ---- counters --------------------------------------------------------------------------

  ghost predicate DistinctStrategies(usages: seq<Usage>) {
    forall i, j :: 0 <= i < j < |usages| ==> usages[i].strategy != usages[j].strategy
  }

  lemma {:induction false} WithoutMembers(usages: seq<Usage>, s: Strategy)
    ensures forall u :: u in Without(usages, s) <==> u in usages && u.strategy != s
  {
    if usages != [] {
      WithoutMembers(usages[1..], s);
      assert usages == [usages[0]] + usages[1..];
    }
  }

  lemma {:induction false} WithoutDistinct(usages: seq<Usage>, s: Strategy)
    requires DistinctStrategies(usages)
    ensures DistinctStrategies(Without(usages, s))
  {
    if usages != [] {
      var rest, kept := usages[1..], Without(usages, s);
      assert forall i :: 0 <= i < |rest| ==> rest[i] == usages[i + 1];
      WithoutDistinct(rest, s);
      WithoutMembers(rest, s);
      if usages[0].strategy != s {
        assert kept == [usages[0]] + Without(rest, s);
        forall i | 0 <= i < |Without(rest, s)|
          ensures Without(rest, s)[i].strategy != usages[0].strategy
        {
          assert Without(rest, s)[i] in rest;
        }
      } else {
        assert kept == Without(rest, s);
      }
    }
  }

  lemma {:induction false} UsesWithout(usages: seq<Usage>, s: Strategy, t: Strategy)
    requires t != s
    ensures Uses(Without(usages, s), t) == Uses(usages, t)
  {
    if usages != [] {
      UsesWithout(usages[1..], s, t);
      if usages[0].strategy != s {
        assert Without(usages, s)[1..] == Without(usages[1..], s);
      } else {
        assert Without(usages, s) == Without(usages[1..], s);
      }
    }
  }

  lemma {:induction false} UsesSnoc(usages: seq<Usage>, u: Usage, t: Strategy)
    requires forall v :: v in usages ==> v.strategy != u.strategy
    ensures Uses(usages + [u], t) == if t == u.strategy then u.used else Uses(usages, t)
  {
    if usages != [] {
      assert usages[0] in usages;
      assert (usages + [u])[1..] == usages[1..] + [u];
      UsesSnoc(usages[1..], u, t);
    }
  }

  /** Recording a use raises the count of that strategy by one and no other, and never repeats one. */
  lemma {:induction false} StrategyUseCounts(c: Context, s: Strategy, t: Strategy)
    ensures UsesFor(WithStrategyUse(c, s), t) == UsesFor(c, t) + Increment(t == s)
    ensures DistinctStrategies(c.usages) ==> DistinctStrategies(WithStrategyUse(c, s).usages)
  {
    WithoutMembers(c.usages, s);
    if t != s {
      UsesWithout(c.usages, s, t);
    }
    UsesSnoc(Without(c.usages, s), Usage(s, UsesFor(c, s) + 1), t);
    var rest, all := Without(c.usages, s), WithStrategyUse(c, s).usages;
    if DistinctStrategies(c.usages) {
      WithoutDistinct(c.usages, s);
      forall i, j | 0 <= i < j < |all|
        ensures all[i].strategy != all[j].strategy
      {
        assert rest[i] in rest;
      }
    }
  }

  function TotalUses(c: Context): (n: nat) {
    UsesFor(c, Wait) + UsesFor(c, TransformRequest) + UsesFor(c, RefreshCredential) + UsesFor(c, RotateCredential)
    + UsesFor(c, SwitchEndpoint)
  }

  /** What the plan lets a strategy prepare; without a request transform, TransformRequest prepares nothing. */
  function Allowance(plan: Plan, s: Strategy): (n: nat) {
    if s == TransformRequest && !plan.transforms then 0 else MaxUsesFor(plan.budget, s)
  }

  function TotalAllowance(plan: Plan): (n: nat) {
    Allowance(plan, Wait) + Allowance(plan, TransformRequest) + Allowance(plan, RefreshCredential)
    + Allowance(plan, RotateCredential) + Allowance(plan, SwitchEndpoint)
  }

  /** The counters of a context account for each other and stay within the plan. */
  ghost predicate Conserved(plan: Plan, c: Context, attempts: nat) {
    && c.revision == plan.revision
    && DistinctStrategies(c.usages)
    && c.attemptOrdinal == attempts == TotalUses(c)
    && c.requestVersion - 1 == UsesFor(c, TransformRequest)
    && c.endpointCursor == UsesFor(c, SwitchEndpoint)
    && c.credentialCursor == UsesFor(c, RotateCredential)
    && (forall s :: Preparing(s) ==> UsesFor(c, s) <= Allowance(plan, s))
    && (attempts > 0 ==> c.attemptOrdinal <= plan.budget.maxWireAttempts - 1)
  }

  lemma {:induction false} FixedStrategyKinds(e: Evidence)
    requires FixedStrategy(e).Some?
    ensures FixedStrategy(e).value == ReturnToModel || FixedStrategy(e).value == AbortOperation
            || Preparing(FixedStrategy(e).value)
  {
  }

  lemma {:induction false} TurnConserves(plan: Plan, c: Context, attempts: nat, outcome: PortOutcome)
    requires Conserved(plan, c, attempts) && Turn(plan, c, outcome).Some?
    ensures Conserved(plan, Turn(plan, c, outcome).value, attempts + 1)
  {
    RoutePrepares(plan, c, outcome);
    NextConserves(plan, c, attempts, Route(plan, c, outcome).strategy);
  }

  /** What routing has checked when it prepares another attempt. */
  lemma {:induction false} RoutePrepares(plan: Plan, c: Context, outcome: PortOutcome)
    requires Route(plan, c, outcome).Prepare?
    ensures var s := Route(plan, c, outcome).strategy;
            Preparing(s) && UsesFor(c, s) < Allowance(plan, s) && c.attemptOrdinal < plan.budget.maxWireAttempts - 1
  {
    FixedStrategyKinds(outcome.evidence);
  }

  lemma {:induction false} NextConserves(plan: Plan, c: Context, attempts: nat, s: Strategy)
    requires Conserved(plan, c, attempts) && Preparing(s) && UsesFor(c, s) < Allowance(plan, s)
    requires c.attemptOrdinal < plan.budget.maxWireAttempts - 1
    ensures Conserved(plan, NextContext(c, s), attempts + 1)
  {
    forall t
      ensures UsesFor(WithStrategyUse(c, s), t) == UsesFor(c, t) + Increment(t == s)
    {
      StrategyUseCounts(c, s, t);
    }
    StrategyUseCounts(c, s, s);
  }

  /** Conservation over every sequence of outcomes: the attempt ordinal is the sum of the strategy uses,
      each cursor is the count of its own strategy, and no strategy exceeds its limit. */
  lemma {:induction false} CountersAreConserved(plan: Plan, outcomes: seq<PortOutcome>)
    requires Reach(plan, outcomes).Some?
    ensures Conserved(plan, Reach(plan, outcomes).value, |outcomes|)
  {
    if outcomes != [] {
      var n := |outcomes| - 1;
      CountersAreConserved(plan, outcomes[..n]);
      TurnConserves(plan, Reach(plan, outcomes[..n]).value, n, outcomes[n]);
    }
  }

  // ---- the exact bound -------------------------------------------------------------------

  function Min(a: nat, b: nat): (m: nat) { if a < b then a else b }

  /** The largest number of wire calls one operation can make. */
  function WireBound(plan: Plan): (n: nat) { Min(plan.budget.maxWireAttempts, 1 + TotalAllowance(plan)) }

  /** Whatever the port answers, the machine never makes more wire calls than the bound. */
  lemma {:induction false} WireCallsBounded(plan: Plan, outcomes: seq<PortOutcome>)
    requires plan.budget.maxWireAttempts >= 1 && Reach(plan, outcomes).Some?
    ensures |outcomes| + 1 <= WireBound(plan)
  {
    CountersAreConserved(plan, outcomes);
    var c := Reach(plan, outcomes).value;
    assert Preparing(Wait) && Preparing(TransformRequest) && Preparing(RefreshCredential) && Preparing(RotateCredential)
           && Preparing(SwitchEndpoint);
  }

  /** A rejection that selects a given preparing strategy. */
  function RejectionFor(s: Strategy): (o: PortOutcome)
    requires Preparing(s)
  {
    Rejected(Evidence(
               match s
               case Wait => Signal(Some(429), Some("rate_limited"))
               case TransformRequest => Signal(Some(400), Some("bad_payload"))
               case RefreshCredential => Signal(Some(401), Some("token_expired"))
               case RotateCredential => Signal(Some(401), Some("invalid_credential"))
               case _ => Signal(Some(503), Some("overloaded")), None))
  }

  /** The bound is exact: for every number of calls within it some outcomes make the machine reach it. */
  lemma {:induction false} WireBoundIsReached(plan: Plan, n: nat) returns (outcomes: seq<PortOutcome>)
    requires plan.budget.maxWireAttempts >= 1 && n < WireBound(plan)
    ensures |outcomes| == n && Reach(plan, outcomes).Some?
  {
    outcomes := [];
    if n > 0 {
      var front := WireBoundIsReached(plan, n - 1);
      CountersAreConserved(plan, front);
      var c := Reach(plan, front).value;
      var s := SomeLeft(plan, c);
      outcomes := front + [RejectionFor(s)];
      RejectionTurns(plan, c, s);
      assert outcomes[..n - 1] == front;
    }
  }

  /** A strategy with uses left prepares the next attempt while wire attempts remain. */
  lemma {:induction false} RejectionTurns(plan: Plan, c: Context, s: Strategy)
    requires c.revision == plan.revision && Preparing(s) && UsesFor(c, s) < Allowance(plan, s)
    requires c.attemptOrdinal < plan.budget.maxWireAttempts - 1
    ensures Turn(plan, c, RejectionFor(s)) == Some(NextContext(c, s))
  {
    RejectionSelects(s);
    SelectedRoutes(plan, c, RejectionFor(s).evidence, s);
  }

  lemma {:induction false} SelectedRoutes(plan: Plan, c: Context, e: Evidence, s: Strategy)
    requires FixedStrategy(e) == Some(s) && Preparing(s) && UsesFor(c, s) < Allowance(plan, s)
    requires c.attemptOrdinal < plan.budget.maxWireAttempts - 1
    ensures Route(plan, c, Rejected(e)) == Prepare(s)
  {
  }

  lemma {:induction false} RejectionSelects(s: Strategy)
    requires Preparing(s)
    ensures FixedStrategy(RejectionFor(s).evidence) == Some(s)
  {
    match s
    case Wait => RuleApplies(0);
    case TransformRequest => RuleApplies(9);
    case RefreshCredential => RuleApplies(2);
    case RotateCredential => RuleApplies(3);
    case SwitchEndpoint => RuleApplies(6);
  }

  /** No rule of the table is shadowed by an earlier one. */
  lemma {:induction false} RuleApplies(k: nat)
    requires k < |FIXED_RULES|
    ensures Lookup(FIXED_RULES, FIXED_RULES[k].signal) == Some(FIXED_RULES[k].strategy)
  {
    LookupFinds(FIXED_RULES, k);
  }

  lemma {:induction false} LookupFinds(rules: seq<Rule>, k: nat)
    requires k < |rules| && forall i :: 0 <= i < k ==> rules[i].signal != rules[k].signal
    ensures Lookup(rules, rules[k].signal) == Some(rules[k].strategy)
  {
    if k > 0 {
      assert rules[1..][k - 1] == rules[k];
      LookupFinds(rules[1..], k - 1);
    }
  }

  lemma {:induction false} SomeLeft(plan: Plan, c: Context) returns (s: Strategy)
    requires TotalUses(c) < TotalAllowance(plan)
    ensures Preparing(s) && UsesFor(c, s) < Allowance(plan, s)
  {
    if UsesFor(c, Wait) < Allowance(plan, Wait) {
      s := Wait;
    } else if UsesFor(c, TransformRequest) < Allowance(plan, TransformRequest) {
      s := TransformRequest;
    } else if UsesFor(c, RefreshCredential) < Allowance(plan, RefreshCredential) {
      s := RefreshCredential;
    } else if UsesFor(c, RotateCredential) < Allowance(plan, RotateCredential) {
      s := RotateCredential;
    } else {
      s := SwitchEndpoint;
    }
  }

  // ---- what each outcome leads to --------------------------------------------------------

  /** A definitive rejection with exactly this status and hint. */
  predicate RejectedWith(o: PortOutcome, status: nat, hint: string) {
    o.Rejected? && o.evidence.signal == Signal(Some(status), Some(hint))
  }

  /** The outcomes that call for a strategy. */
  predicate CallsFor(o: PortOutcome, s: Strategy) {
    match s
    case Wait =>
      || RejectedWith(o, 429, "rate_limited") || RejectedWith(o, 429, "quota_exceeded")
      || RejectedWith(o, 408, "request_timeout") || RejectedWith(o, 504, "request_timeout")
    case TransformRequest => RejectedWith(o, 400, "bad_payload")
    case RefreshCredential => RejectedWith(o, 401, "token_expired")
    case RotateCredential => RejectedWith(o, 401, "invalid_credential") || RejectedWith(o, 401, "invalid_api_key")
    case SwitchEndpoint => RejectedWith(o, 503, "service_unavailable") || RejectedWith(o, 503, "overloaded")
    case ReturnToModel => RejectedWith(o, 403, "forbidden")
    case AbortOperation => RejectedWith(o, 409, "conflict")
  }

  /** The table is exactly this list of signals. */
  lemma {:induction false} TableIsExact(e: Evidence, s: Strategy)
    ensures FixedStrategy(e) == Some(s) <==> CallsFor(Rejected(e), s)
  {
    if FixedStrategy(e).Some? {
      LookupIsRule(FIXED_RULES, e.signal);
    }
    forall k | 0 <= k < |FIXED_RULES|
      ensures Lookup(FIXED_RULES, FIXED_RULES[k].signal) == Some(FIXED_RULES[k].strategy)
    {
      RuleApplies(k);
    }
    SignalsOfTable(e.signal, s);
  }

  lemma {:induction false} LookupIsRule(rules: seq<Rule>, signal: Signal)
    requires Lookup(rules, signal).Some?
    ensures exists k :: 0 <= k < |rules| && rules[k] == Rule(signal, Lookup(rules, signal).value)
  {
    if rules[0].signal == signal {
      assert rules[0] == Rule(signal, rules[0].strategy);
    } else {
      LookupIsRule(rules[1..], signal);
      var k :| 0 <= k < |rules[1..]| && rules[1..][k] == Rule(signal, Lookup(rules[1..], signal).value);
      assert rules[k + 1] == rules[1..][k];
    }
  }

  lemma {:induction false} SignalsOfTable(signal: Signal, s: Strategy)
    ensures CallsFor(Rejected(Evidence(signal, None)), s)
       <==> exists k :: 0 <= k < |FIXED_RULES| && FIXED_RULES[k] == Rule(signal, s)
  {
    var rules := FIXED_RULES;
    assert |rules| == 12;
    assert rules[0] == Rule(Signal(Some(429), Some("rate_limited")), Wait);
    assert rules[1] == Rule(Signal(Some(429), Some("quota_exceeded")), Wait);
    assert rules[2] == Rule(Signal(Some(401), Some("token_expired")), RefreshCredential);
    assert rules[3] == Rule(Signal(Some(401), Some("invalid_credential")), RotateCredential);
    assert rules[4] == Rule(Signal(Some(401), Some("invalid_api_key")), RotateCredential);
    assert rules[5] == Rule(Signal(Some(503), Some("service_unavailable")), SwitchEndpoint);
    assert rules[6] == Rule(Signal(Some(503), Some("overloaded")), SwitchEndpoint);
    assert rules[7] == Rule(Signal(Some(408), Some("request_timeout")), Wait);
    assert rules[8] == Rule(Signal(Some(504), Some("request_timeout")), Wait);
    assert rules[9] == Rule(Signal(Some(400), Some("bad_payload")), TransformRequest);
    assert rules[10] == Rule(Signal(Some(403), Some("forbidden")), ReturnToModel);
    assert rules[11] == Rule(Signal(Some(409), Some("conflict")), AbortOperation);
  }

  /** How many of the outcomes so far called for a strategy. */
  function CallsSoFar(outcomes: seq<PortOutcome>, s: Strategy): (n: nat) {
    if outcomes == [] then 0
    else CallsSoFar(outcomes[..|outcomes| - 1], s) + Increment(CallsFor(outcomes[|outcomes| - 1], s))
  }

  /** The counters are the history: a strategy was used once for every outcome that called for it. */
  lemma {:induction false} UsesAreHistory(plan: Plan, outcomes: seq<PortOutcome>, s: Strategy)
    requires Reach(plan, outcomes).Some?
    ensures UsesFor(Reach(plan, outcomes).value, s) == CallsSoFar(outcomes, s)
  {
    if outcomes != [] {
      var n := |outcomes| - 1;
      UsesAreHistory(plan, outcomes[..n], s);
      var c := Reach(plan, outcomes[..n]).value;
      var used := Route(plan, c, outcomes[n]).strategy;
      StrategyUseCounts(c, used, s);
      TableIsExact(outcomes[n].evidence, used);
      TableIsExact(outcomes[n].evidence, s);
    }
  }

  /** What a limit means: the entry of the strategy, or else the default. */
  lemma {:induction false} LimitMeaning(b: Budget, s: Strategy)
    requires forall i, j :: 0 <= i < j < |b.limits| ==> b.limits[i].strategy != b.limits[j].strategy
    ensures forall i :: 0 <= i < |b.limits| && b.limits[i].strategy == s ==> MaxUsesFor(b, s) == b.limits[i].max
    ensures (forall i :: 0 <= i < |b.limits| ==> b.limits[i].strategy != s) ==> MaxUsesFor(b, s) == b.defaultMax
  {
    LimitFound(b.limits, b.defaultMax, s);
  }

  lemma {:induction false} LimitFound(limits: seq<Limit>, fallback: nat, s: Strategy)
    requires forall i, j :: 0 <= i < j < |limits| ==> limits[i].strategy != limits[j].strategy
    ensures forall i :: 0 <= i < |limits| && limits[i].strategy == s ==> MaxUses(limits, fallback, s) == limits[i].max
    ensures (forall i :: 0 <= i < |limits| ==> limits[i].strategy != s) ==> MaxUses(limits, fallback, s) == fallback
  {
    if limits != [] && limits[0].strategy != s {
      var rest := limits[1..];
      assert forall i :: 0 <= i < |rest| ==> rest[i] == limits[i + 1];
      LimitFound(rest, fallback, s);
      forall i | 0 <= i < |limits| && limits[i].strategy == s
        ensures MaxUses(limits, fallback, s) == limits[i].max
      {
        assert rest[i - 1] == limits[i];
      }
    }
  }

  /** A preparing strategy is called for, but its uses or the wire attempts are spent. */
  ghost predicate Spent(plan: Plan, history: seq<PortOutcome>, o: PortOutcome) {
    exists s :: Preparing(s) && CallsFor(o, s)
                && (CallsSoFar(history, s) >= MaxUsesFor(plan.budget, s)
                    || |history| + 1 >= plan.budget.maxWireAttempts)
  }

  /** What an operation ends with, read off the last outcome and the outcomes before it. */
  ghost predicate EndsWith(plan: Plan, history: seq<PortOutcome>, o: PortOutcome, last: Decision) {
    && (last == Done <==> o.Completed?)
    && (last == Abort <==> CallsFor(o, AbortOperation))
    && (last == Return(true) <==> Spent(plan, history, o))
    && (last == Return(false) <==> Unresolved(plan, history, o))
  }

  /** Not known to be done, not listed, forbidden, or in need of a transform the plan does not carry. */
  ghost predicate Unresolved(plan: Plan, history: seq<PortOutcome>, o: PortOutcome) {
    || o.InProgress? || o.Unknown?
    || (o.Rejected? && forall s :: !CallsFor(o, s))
    || CallsFor(o, ReturnToModel)
    || (CallsFor(o, TransformRequest) && !plan.transforms && !Spent(plan, history, o))
  }

  lemma {:induction false} RouteEnds(plan: Plan, history: seq<PortOutcome>, c: Context, o: PortOutcome)
    requires Reach(plan, history) == Some(c) && !Route(plan, c, o).Prepare?
    ensures EndsWith(plan, history, o, Route(plan, c, o))
  {
    if o.Rejected? {
      var found := FixedStrategy(o.evidence);
      forall s
        ensures found == Some(s) <==> CallsFor(o, s)
      {
        TableIsExact(o.evidence, s);
      }
      RejectedEnds(plan, history, c, o, found);
    }
  }

  lemma {:induction false} RejectedEnds(plan: Plan, history: seq<PortOutcome>, c: Context, o: PortOutcome,
                                        found: Option<Strategy>)
    requires o.Rejected? && Reach(plan, history) == Some(c) && !RouteRejected(plan, c, found).Prepare?
    requires forall s :: found == Some(s) <==> CallsFor(o, s)
    ensures EndsWith(plan, history, o, RouteRejected(plan, c, found))
  {
    CountersAreConserved(plan, history);
    if found.Some? {
      var s := found.value;
      UsesAreHistory(plan, history, s);
      assert CallsFor(o, s);
      assert Spent(plan, history, o) <==> Preparing(s) && (UsesFor(c, s) >= MaxUsesFor(plan.budget, s)
                                                           || |history| + 1 >= plan.budget.maxWireAttempts);
    } else {
      assert !Spent(plan, history, o);
    }
  }

  /** The first outcomes of a port. */
  function Answers(port: nat -> PortOutcome, n: nat): (outcomes: seq<PortOutcome>)
    ensures |outcomes| == n && forall i :: 0 <= i < n ==> outcomes[i] == port(i)
  {
    seq(n, i requires 0 <= i < n => port(i))
  }

  /** Each of the first outcomes called for a strategy that prepares another attempt. */
  ghost predicate Retried(port: nat -> PortOutcome, n: nat) {
    forall i :: 0 <= i < n ==> exists s :: Preparing(s) && CallsFor(port(i), s)
  }

  /** The cycle run to its end against any port: it terminates within the bound, every earlier outcome called
      for a strategy that prepares another attempt, and the last one decides how it ends. */
  method Operate(plan: Plan, port: nat -> PortOutcome) returns (calls: nat, last: Decision, c: Context)
    requires plan.budget.maxWireAttempts >= 1
    ensures 1 <= calls <= WireBound(plan)
    ensures !last.Prepare? && Conserved(plan, c, calls - 1)
    ensures forall s :: Preparing(s) ==> UsesFor(c, s) == CallsSoFar(Answers(port, calls - 1), s)
    ensures Retried(port, calls - 1)
    ensures EndsWith(plan, Answers(port, calls - 1), port(calls - 1), last)
  {
    c := NewContext(plan);
    calls := 0;
    WireCallsBounded(plan, []);
    assert Answers(port, 0) == [];
    while true
      invariant Reach(plan, Answers(port, calls)) == Some(c) && calls + 1 <= WireBound(plan)
      invariant Retried(port, calls)
      decreases WireBound(plan) - calls
    {
      var outcome := port(calls);
      last := Route(plan, c, outcome);
      if !last.Prepare? {
        OperationEnds(plan, Answers(port, calls), c, outcome);
        calls := calls + 1;
        return;
      }
      NextAnswer(plan, port, calls, c);
      c := NextContext(c, last.strategy);
      calls := calls + 1;
    }
  }

  lemma {:induction false} OperationEnds(plan: Plan, history: seq<PortOutcome>, c: Context, o: PortOutcome)
    requires Reach(plan, history) == Some(c) && !Route(plan, c, o).Prepare?
    ensures Conserved(plan, c, |history|) && EndsWith(plan, history, o, Route(plan, c, o))
    ensures forall s :: Preparing(s) ==> UsesFor(c, s) == CallsSoFar(history, s)
  {
    CountersAreConserved(plan, history);
    RouteEnds(plan, history, c, o);
    forall s | Preparing(s)
      ensures UsesFor(c, s) == CallsSoFar(history, s)
    {
      UsesAreHistory(plan, history, s);
    }
  }

  lemma {:induction false} NextAnswer(plan: Plan, port: nat -> PortOutcome, n: nat, c: Context)
    requires plan.budget.maxWireAttempts >= 1
    requires Reach(plan, Answers(port, n)) == Some(c) && Route(plan, c, port(n)).Prepare?
    ensures Reach(plan, Answers(port, n + 1)) == Some(NextContext(c, Route(plan, c, port(n)).strategy))
    ensures n + 2 <= WireBound(plan)
    ensures Retried(port, n) ==> Retried(port, n + 1)
  {
    var all, s := Answers(port, n + 1), Route(plan, c, port(n)).strategy;
    CountersAreConserved(plan, Answers(port, n));
    assert all[..n] == Answers(port, n);
    WireCallsBounded(plan, all);
    RoutePrepares(plan, c, port(n));
    TableIsExact(port(n).evidence, s);
    assert Preparing(s) && CallsFor(port(n), s);
  }

  // ---- backoff ---------------------------------------------------------------------------

  function Pow2(n: nat): (p: real)
    ensures p >= 1.0
  {
    if n == 0 then 1.0 else 2.0 * Pow2(n - 1)
  }

  function MinReal(a: real, b: real): (m: real) { if a < b then a else b }

  function MaxReal(a: real, b: real): (m: real) { if a < b then b else a }

  /** A delay capped by the maximum and raised to a retry-after. */
  function Capped(max: real, delay: real, retryAfter: Option<real>): (d: real) {
    if retryAfter.Some? then MaxReal(MinReal(max, delay), retryAfter.value) else MinReal(max, delay)
  }

  /** The closed form of the delay before a retry. */
  function Backoff(base: real, max: real, ordinal: nat, retryAfter: Option<real>): (d: real) {
    Capped(max, base * Pow2(Min(ordinal, 1024)), retryAfter)
  }

  lemma {:induction false} CappedMonotone(max: real, x: real, y: real, retryAfter: Option<real>)
    requires x <= y
    ensures Capped(max, x, retryAfter) <= Capped(max, y, retryAfter)
  {
  }

  /** Doubling n times. */
  function Doubled(x: real, n: nat): (d: real)
    ensures x >= 0.0 ==> d >= 0.0
  {
    if n == 0 then x else 2.0 * Doubled(x, n - 1)
  }

  lemma {:induction false} DoubledIsScaled(x: real, n: nat)
    ensures Doubled(x, n) == x * Pow2(n)
  {
    if n > 0 {
      DoubledIsScaled(x, n - 1);
      Reassociate(x, Pow2(n - 1));
    }
  }

  lemma {:induction false} Reassociate(a: real, b: real)
    ensures a * (2.0 * b) == 2.0 * (a * b)
  {
  }

  lemma {:induction false} DoubleCapped(max: real, x: real)
    requires max >= 0.0 && x >= 0.0
    ensures MinReal(max, MinReal(max, x) * 2.0) == MinReal(max, 2.0 * x)
  {
  }

  /** `_backoff_seconds`: doubling with a cap at every step is the closed form. */
  method BackoffSeconds(base: real, max: real, ordinal: nat, retryAfter: Option<real>) returns (delay: real)
    requires 0.0 <= base <= max
    ensures delay == Backoff(base, max, ordinal, retryAfter)
  {
    delay := base;
    var i, n := 0, Min(ordinal, 1024);
    while i < n
      invariant 0 <= i <= n
      invariant delay == MinReal(max, Doubled(base, i))
    {
      DoubleCapped(max, Doubled(base, i));
      delay := MinReal(max, delay * 2.0);
      i := i + 1;
    }
    delay := MinReal(max, delay);
    if retryAfter.Some? {
      delay := MaxReal(delay, retryAfter.value);
    }
    BackoffIsDoubled(base, max, ordinal, retryAfter);
  }

  lemma {:induction false} BackoffIsDoubled(base: real, max: real, ordinal: nat, retryAfter: Option<real>)
    ensures Backoff(base, max, ordinal, retryAfter) == Capped(max, Doubled(base, Min(ordinal, 1024)), retryAfter)
  {
    DoubledIsScaled(base, Min(ordinal, 1024));
  }

  lemma {:induction false} Pow2Monotone(m: nat, n: nat)
    requires m <= n
    ensures Pow2(m) <= Pow2(n)
  {
    if m < n {
      Pow2Monotone(m, n - 1);
    }
  }

  lemma {:induction false} ScaleMonotone(base: real, x: real, y: real)
    requires base >= 0.0 && x <= y
    ensures base * x <= base * y
  {
    assert base * y - base * x == base * (y - x);
  }

  /** The delay never shrinks from one attempt to the next. */
  lemma {:induction false} BackoffMonotone(base: real, max: real, m: nat, n: nat, retryAfter: Option<real>)
    requires 0.0 <= base <= max && m <= n
    ensures Backoff(base, max, m, retryAfter) <= Backoff(base, max, n, retryAfter)
  {
    Pow2Monotone(Min(m, 1024), Min(n, 1024));
    ScaleMonotone(base, Pow2(Min(m, 1024)), Pow2(Min(n, 1024)));
    CappedMonotone(max, base * Pow2(Min(m, 1024)), base * Pow2(Min(n, 1024)), retryAfter);
  }

  /** Without a retry-after the delay stays between the base and the cap; with one it is exactly the
      larger of the two. */
  lemma {:induction false} BackoffBounds(base: real, max: real, ordinal: nat, retryAfter: Option<real>)
    requires 0.0 <= base <= max
    ensures base <= Backoff(base, max, ordinal, None) <= max
    ensures retryAfter.Some? ==>
              Backoff(base, max, ordinal, retryAfter) == MaxReal(Backoff(base, max, ordinal, None), retryAfter.value)
  {
    ScaleMonotone(base, 1.0, Pow2(Min(ordinal, 1024)));
  }
}
