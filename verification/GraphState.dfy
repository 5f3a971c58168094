/** The authoritative graph-run state, its durable invariants and its reducer.

    The settlement ledger is a canonical tuple with at most one record per activation; it is
    represented by the map from activation to record. Routing causes, Join progress, resource
    snapshots and the Config cursor are not part of this state: the transitions below accept every
    command the kernel accepts and possibly more, so statements over all runs cover its runs.
 */
module GraphState {
  import opened Sorted
  import opened Identity
  import opened FrameIndex

  type Digest = Text

  datatype Token = Token(generation: nat, attempt: Text)

  datatype Status = Running | Completed | Failed | Aborted

  datatype InterruptIdentity = InterruptIdentity(run: Text, superstep: nat, node: Text, generation: nat)

  datatype Settlement =
    | Pending(override: Option<Text>)
    | Succeeded(route: Option<Text>)
    | FailedNode(failure: Text)
    | Interrupted(identity: InterruptIdentity, payload: Text)

  datatype FrontierNode = FrontierNode(node: Text, settlement: Settlement)

  /** The birth facts of one committed publication. */
  datatype LedgerRecord = LedgerRecord(route: Option<Text>, revision: nat, token: Token, evidence: Option<Digest>)

  datatype State = State(
    run: Text,
    status: Status,
    superstep: nat,
    frontier: seq<FrontierNode>,
    sequence: nat,
    codec: bool,
    inputEvidence: Option<Digest>,
    ledger: map<Activation, LedgerRecord>,
    lease: Option<Token>,
    abort: Option<Text>,
    parent: Option<Activation>,
    revision: nat,
    completionRoute: Option<Text>)

  datatype Outcome =
    | SucceededOutcome(node: Text, route: Option<Text>)
    | FailedOutcome(node: Text, failure: Text)
    | InterruptedOutcome(node: Text, identity: InterruptIdentity, payload: Text)

  datatype ResumeAction = ResumeAction(node: Text, interruptId: Text, payload: Text)

  datatype Command =
    | Start(run: Text, nodes: seq<Text>, parent: Option<Activation>, codec: bool, evidence: Option<Digest>)
    | Claim(expected: nat, attempt: Text)
    | Fence(expected: nat, token: Token)
    | Settle(expected: nat, token: Token, outcome: Outcome, evidence: Option<Digest>)
    | Resume(expected: nat, actions: seq<ResumeAction>)
    | Advance(expected: nat, nodes: seq<Text>)
    | Complete(expected: nat, route: Option<Text>)
    | Abort(expected: nat, reason: Text)

  /** The command with its value commitment set. */
  function WithEvidence(c: Command, evidence: Option<Digest>): (r: Command) {
    match c
    case Start(run, nodes, parent, codec, _) => Start(run, nodes, parent, codec, evidence)
    case Settle(expected, token, outcome, _) => Settle(expected, token, outcome, evidence)
    case _ => c
  }

  // ---- frontier queries ------------------------------------------------------------------

  predicate HasPending(f: seq<FrontierNode>) {
    exists i :: 0 <= i < |f| && f[i].settlement.Pending?
  }

  predicate HasFailed(f: seq<FrontierNode>) {
    exists i :: 0 <= i < |f| && f[i].settlement.FailedNode?
  }

  predicate AllSucceeded(f: seq<FrontierNode>) {
    f != [] && forall i :: 0 <= i < |f| ==> f[i].settlement.Succeeded?
  }

  predicate IsPending(f: seq<FrontierNode>, node: Text) {
    exists i :: 0 <= i < |f| && f[i].node == node && f[i].settlement.Pending?
  }

  function NodeIds(f: seq<FrontierNode>): (ids: seq<Text>)
    ensures |ids| == |f| && forall i :: 0 <= i < |f| ==> ids[i] == f[i].node
  {
    seq(|f|, i requires 0 <= i < |f| => f[i].node)
  }

  function CurrentActivation(s: State, node: Text): (a: Activation) {
    Activation(s.run, s.superstep, node)
  }

  // ---- durable invariants ----------------------------------------------------------------

  predicate ValidLedger(s: State) {
    && (forall a :: a in s.ledger ==>
                      && a.run == s.run && a.superstep <= s.superstep
                      && 1 <= s.ledger[a].revision <= s.revision
                      && 1 <= s.ledger[a].token.generation <= s.sequence)
    && (forall a, b :: a in s.ledger && b in s.ledger && a != b ==> s.ledger[a].revision != s.ledger[b].revision)
  }

  /** Outside a completed graph the current ledger and the successful frontier nodes are the same. */
  predicate LedgerMatchesFrontier(s: State) {
    && (forall a :: a in s.ledger && a.superstep == s.superstep ==>
                      exists i :: 0 <= i < |s.frontier|
                                  && s.frontier[i] == FrontierNode(a.node, Succeeded(s.ledger[a].route)))
    && (forall i :: 0 <= i < |s.frontier| && s.frontier[i].settlement.Succeeded? ==>
                      CurrentActivation(s, s.frontier[i].node) in s.ledger)
  }

  predicate ValidNode(s: State, n: FrontierNode) {
    match n.settlement
    case Pending(override) => override.Some? ==> s.codec
    case Succeeded(_) => true
    case FailedNode(_) => true
    case Interrupted(id, _) =>
      s.codec && id.run == s.run && id.superstep == s.superstep && id.node == n.node && 1 <= id.generation <= s.sequence
  }

  predicate ValidParent(s: State) {
    s.parent.Some? ==>
      && s.parent.value.run != s.run
      && s.run == ChildRunId(s.parent.value.run, s.parent.value.superstep, s.parent.value.node)
  }

  predicate ValidLease(s: State) {
    s.lease.Some? ==> s.status == Running && s.lease.value.generation == s.sequence >= 1 && HasPending(s.frontier)
  }

  /** The route provenance a durable completed state must retain. */
  predicate ValidCompletion(s: State) {
    && (exists a :: a in s.ledger && a.superstep == s.superstep)
    && (forall a :: a in s.ledger && a.superstep == s.superstep ==>
                      s.ledger[a].revision < s.revision && s.ledger[a].route == s.completionRoute)
  }

  predicate ValidStatus(s: State) {
    match s.status
    case Running =>
      && s.frontier != []
      && (HasFailed(s.frontier) ==> HasPending(s.frontier))
      && s.abort.None? && s.completionRoute.None?
    case Completed => s.frontier == [] && s.abort.None? && (s.inputEvidence.Some? ==> ValidCompletion(s))
    case Failed =>
      HasFailed(s.frontier) && !HasPending(s.frontier) && s.abort.None? && s.completionRoute.None?
    case Aborted => s.frontier != [] && s.abort.Some? && s.completionRoute.None?
  }

  predicate Valid(s: State) {
    && ValidLedger(s)
    && (s.status != Completed ==> LedgerMatchesFrontier(s))
    && Pairwise(TextLess, NodeIds(s.frontier))
    && (forall i :: 0 <= i < |s.frontier| ==> ValidNode(s, s.frontier[i]))
    && ValidParent(s)
    && ValidLease(s)
    && ValidStatus(s)
  }

  // ---- transitions -----------------------------------------------------------------------

  function StartRun(c: Command): (r: Option<State>)
    requires c.Start?
  {
    if c.nodes == [] || !Pairwise(TextLess, c.nodes) then None
    else
      Some(State(c.run, Running, 0,
                 seq(|c.nodes|, i requires 0 <= i < |c.nodes| => FrontierNode(c.nodes[i], Pending(None))),
                 0, c.codec, c.evidence, map[], None, None, c.parent, 0, None))
  }

  function ClaimExecution(s: State, attempt: Text): (r: Option<State>) {
    if s.status != Running || s.lease.Some? || !HasPending(s.frontier) then None
    else Some(s.(sequence := s.sequence + 1, lease := Some(Token(s.sequence + 1, attempt))))
  }

  function FenceExecution(s: State, token: Token): (r: Option<State>) {
    if s.status != Running || s.lease != Some(token) then None else Some(s.(lease := None))
  }

  /** The frontier with the settlement of one node replaced. */
  function WithSettlement(f: seq<FrontierNode>, node: Text, settlement: Settlement): (g: seq<FrontierNode>)
    ensures |g| == |f|
    ensures forall i :: 0 <= i < |f| ==> g[i] == if f[i].node == node then FrontierNode(node, settlement) else f[i]
  {
    seq(|f|, i requires 0 <= i < |f| => if f[i].node == node then FrontierNode(node, settlement) else f[i])
  }

  function OutcomeSettlement(s: State, c: Command): (r: Option<Settlement>)
    requires c.Settle?
  {
    match c.outcome
    case SucceededOutcome(_, route) => Some(Succeeded(route))
    case FailedOutcome(_, failure) => if c.evidence.Some? then None else Some(FailedNode(failure))
    case InterruptedOutcome(node, id, payload) =>
      if c.evidence.Some? || id != InterruptIdentity(s.run, s.superstep, node, c.token.generation) || !s.codec
      then None else Some(Interrupted(id, payload))
  }

  function SettledLedger(s: State, c: Command): (ledger: map<Activation, LedgerRecord>)
    requires c.Settle?
  {
    match c.outcome
    case SucceededOutcome(node, route) =>
      s.ledger[CurrentActivation(s, node) := LedgerRecord(route, c.expected + 1, c.token, c.evidence)]
    case _ => s.ledger
  }

  function SettleNode(s: State, c: Command): (r: Option<State>)
    requires c.Settle?
  {
    var node := c.outcome.node;
    var settlement := OutcomeSettlement(s, c);
    if s.status != Running || s.lease != Some(c.token) || !IsPending(s.frontier, node) || settlement.None? then None
    else
      var frontier := WithSettlement(s.frontier, node, settlement.value);
      var executable := HasPending(frontier);
      Some(s.(frontier := frontier,
           ledger := SettledLedger(s, c),
           lease := if executable then s.lease else None,
           status := if !executable && HasFailed(frontier) then Failed else Running))
  }

  predicate Resumable(n: FrontierNode, a: ResumeAction) {
    && n.settlement.Interrupted?
    && var id := n.settlement.identity;
    a.interruptId == InterruptId(id.run, id.superstep, id.node, id.generation)
  }

  /** The action addressed to a node, if any. */
  function ActionFor(actions: seq<ResumeAction>, node: Text): (a: Option<ResumeAction>)
    ensures a.Some? ==> a.value in actions && a.value.node == node
    ensures a.None? ==> forall i :: 0 <= i < |actions| ==> actions[i].node != node
  {
    if actions == [] then None
    else if actions[0].node == node then Some(actions[0])
    else ActionFor(actions[1..], node)
  }

  function ActionIds(actions: seq<ResumeAction>): (ids: seq<Text>) {
    seq(|actions|, i requires 0 <= i < |actions| => actions[i].node)
  }

  function ResumeNodes(s: State, actions: seq<ResumeAction>): (r: Option<State>) {
    if s.status != Running || s.lease.Some? || actions == [] || !Pairwise(TextLess, ActionIds(actions)) then None
    else if exists i :: 0 <= i < |actions| && actions[i].node !in NodeIds(s.frontier) then None
    else if exists i :: 0 <= i < |s.frontier| && ActionFor(actions, s.frontier[i].node).Some?
                        && !Resumable(s.frontier[i], ActionFor(actions, s.frontier[i].node).value) then None
    else
      Some(s.(frontier := seq(|s.frontier|, i requires 0 <= i < |s.frontier| =>
             var a := ActionFor(actions, s.frontier[i].node);
             if a.Some? then FrontierNode(s.frontier[i].node, Pending(Some(a.value.payload))) else s.frontier[i])))
  }

  function AdvanceFrontier(s: State, nodes: seq<Text>): (r: Option<State>) {
    if s.status != Running || s.lease.Some? || !AllSucceeded(s.frontier) || nodes == [] || !Pairwise(TextLess, nodes)
    then None
    else
      Some(s.(superstep := s.superstep + 1,
           frontier := seq(|nodes|, i requires 0 <= i < |nodes| => FrontierNode(nodes[i], Pending(None))),
             completionRoute := None))
  }

  function CompleteFrontier(s: State, route: Option<Text>): (r: Option<State>) {
    if s.status != Running || s.lease.Some? || !AllSucceeded(s.frontier) then None
    else Some(s.(status := Completed, frontier := [], completionRoute := route))
  }

  function AbortRun(s: State, reason: Text): (r: Option<State>) {
    if s.status != Running || s.lease.Some? then None else Some(s.(status := Aborted, abort := Some(reason)))
  }

  /** One transition on an existing run, before the reducer validates its result. */
  function Transition(s: State, c: Command): (r: Option<State>) {
    if c.Start? || c.expected != s.revision then None
    else
      var updated :=
        match c
        case Claim(_, attempt) => ClaimExecution(s, attempt)
        case Fence(_, token) => FenceExecution(s, token)
        case Settle(_, _, _, _) => SettleNode(s, c)
        case Resume(_, actions) => ResumeNodes(s, actions)
        case Advance(_, nodes) => AdvanceFrontier(s, nodes)
        case Complete(_, route) => CompleteFrontier(s, route)
        case Abort(_, reason) => AbortRun(s, reason);
      match updated
      case None => None
      case Some(t) => Some(t.(revision := s.revision + 1))
  }

  /** `reduce_graph_run`: transition a valid state and validate the result. */
  function Reduce(s: Option<State>, c: Command): (r: Option<State>)
    ensures r.Some? ==> Valid(r.value)
  {
    match s
    case None =>
      if !c.Start? then None
      else
        var t := StartRun(c);
        if t.Some? && Valid(t.value) then t else None
    case Some(s0) =>
      if !Valid(s0) then None
      else
        var t := Transition(s0, c);
        if t.Some? && Valid(t.value) then t else None
  }

  // ---- the final validation is redundant, with one exact exception ------------------------

  /** The one command whose transition can build an invalid state: completing a durable run under a
      route that some terminal node did not select. */
  predicate ConflictingCompletion(s: State, c: Command) {
    && c.Complete? && s.inputEvidence.Some?
    && exists i :: 0 <= i < |s.frontier| && s.frontier[i].settlement != Succeeded(c.route)
  }

  lemma {:induction false} NodesDistinct(f: seq<FrontierNode>, i: nat, j: nat)
    requires Pairwise(TextLess, NodeIds(f)) && i < |f| && j < |f| && f[i].node == f[j].node
    ensures i == j
  {
    TextOrder();
    PairwiseIsAscending(TextLess, NodeIds(f));
    AscendingDistinct(TextLess, NodeIds(f), i, j);
  }

  lemma {:induction false} StartIsValid(c: Command)
    requires c.Start? && StartRun(c).Some?
    ensures Valid(StartRun(c).value) <==> ValidParent(StartRun(c).value)
  {
    var t := StartRun(c).value;
    assert NodeIds(t.frontier) == c.nodes;
    assert t.frontier[0].settlement.Pending?;
  }

  lemma {:induction false} PendingIsNotInLedger(s: State, node: Text)
    requires Valid(s) && s.status != Completed && IsPending(s.frontier, node)
    ensures CurrentActivation(s, node) !in s.ledger
  {
    var k :| 0 <= k < |s.frontier| && s.frontier[k].node == node && s.frontier[k].settlement.Pending?;
    if CurrentActivation(s, node) in s.ledger {
      var i :| 0 <= i < |s.frontier| && s.frontier[i].node == node && s.frontier[i].settlement.Succeeded?;
      NodesDistinct(s.frontier, i, k);
    }
  }

  lemma {:induction false} SettledFrontier(s: State, node: Text, settlement: Settlement) returns (k: nat)
    requires Valid(s) && IsPending(s.frontier, node)
    ensures k < |s.frontier| && s.frontier[k].node == node && s.frontier[k].settlement.Pending?
    ensures WithSettlement(s.frontier, node, settlement) == s.frontier[k := FrontierNode(node, settlement)]
    ensures NodeIds(WithSettlement(s.frontier, node, settlement)) == NodeIds(s.frontier)
  {
    k :| 0 <= k < |s.frontier| && s.frontier[k].node == node && s.frontier[k].settlement.Pending?;
    var g := WithSettlement(s.frontier, node, settlement);
    forall i | 0 <= i < |s.frontier|
      ensures g[i] == s.frontier[k := FrontierNode(node, settlement)][i]
    {
      if s.frontier[i].node == node {
        NodesDistinct(s.frontier, i, k);
      }
    }
    assert NodeIds(g) == NodeIds(s.frontier);
  }

  lemma {:induction false} SettleKeepsValid(s: State, c: Command)
    requires Valid(s) && c.Settle? && c.expected == s.revision && SettleNode(s, c).Some?
    ensures Valid(SettleNode(s, c).value.(revision := s.revision + 1))
  {
    var node, settlement := c.outcome.node, OutcomeSettlement(s, c).value;
    var t := SettleNode(s, c).value.(revision := s.revision + 1);
    var k := SettledFrontier(s, node, settlement);
    PendingIsNotInLedger(s, node);
    SettledLedgerMatches(s, c, t, k);
    SettledStatus(s, c, t, k);
    SettledLedgerValid(s, c, t);
  }

  lemma {:induction false} SettledLedgerValid(s: State, c: Command, t: State)
    requires Valid(s) && c.Settle? && c.expected == s.revision && SettleNode(s, c).Some?
    requires t == SettleNode(s, c).value.(revision := s.revision + 1)
    ensures ValidLedger(t) && ValidParent(t)
  {
  }

  lemma {:induction false} SettledStatus(s: State, c: Command, t: State, k: nat)
    requires Valid(s) && c.Settle? && SettleNode(s, c).Some?
    requires t == SettleNode(s, c).value.(revision := s.revision + 1)
    requires k < |s.frontier|
    requires t.frontier == s.frontier[k := FrontierNode(c.outcome.node, OutcomeSettlement(s, c).value)]
    ensures ValidStatus(t) && ValidLease(t)
    ensures forall i :: 0 <= i < |t.frontier| ==> ValidNode(t, t.frontier[i])
  {
    assert t.frontier[k] == FrontierNode(c.outcome.node, OutcomeSettlement(s, c).value);
    forall i | 0 <= i < |t.frontier|
      ensures ValidNode(t, t.frontier[i])
    {
      assert i != k ==> ValidNode(s, s.frontier[i]);
    }
  }

  lemma {:induction false} SettledLedgerMatches(s: State, c: Command, t: State, k: nat)
    requires Valid(s) && c.Settle? && SettleNode(s, c).Some?
    requires t == SettleNode(s, c).value.(revision := s.revision + 1)
    requires k < |s.frontier| && s.frontier[k].node == c.outcome.node && s.frontier[k].settlement.Pending?
    requires t.frontier == s.frontier[k := FrontierNode(c.outcome.node, OutcomeSettlement(s, c).value)]
    ensures LedgerMatchesFrontier(t)
  {
    var node := c.outcome.node;
    forall a | a in t.ledger && a.superstep == t.superstep
      ensures exists i :: 0 <= i < |t.frontier| && t.frontier[i] == FrontierNode(a.node, Succeeded(t.ledger[a].route))
    {
      if c.outcome.SucceededOutcome? && a == CurrentActivation(s, node) {
        assert t.frontier[k] == FrontierNode(a.node, Succeeded(t.ledger[a].route));
      } else {
        var i :| 0 <= i < |s.frontier| && s.frontier[i] == FrontierNode(a.node, Succeeded(s.ledger[a].route));
        assert i != k;
        assert t.frontier[i] == s.frontier[i];
      }
    }
  }

  lemma {:induction false} ResumeKeepsValid(s: State, actions: seq<ResumeAction>)
    requires Valid(s) && ResumeNodes(s, actions).Some?
    ensures Valid(ResumeNodes(s, actions).value.(revision := s.revision + 1))
  {
    var t := ResumeNodes(s, actions).value.(revision := s.revision + 1);
    ResumedNodes(s, actions, t);
    assert t == s.(frontier := t.frontier, revision := t.revision);
    ResumedLedgerMatches(s, t);
    ResumedStatus(s, t);
  }

  /** Node by node, a resume turns interrupted nodes into pending ones and keeps the others. */
  lemma {:induction false} ResumedNodes(s: State, actions: seq<ResumeAction>, t: State)
    requires Valid(s) && ResumeNodes(s, actions).Some?
    requires t == ResumeNodes(s, actions).value.(revision := s.revision + 1)
    ensures NodeIds(t.frontier) == NodeIds(s.frontier) && |t.frontier| == |s.frontier|
    ensures forall i :: 0 <= i < |s.frontier| ==>
                          s.frontier[i].settlement.Succeeded? || t.frontier[i].settlement.Succeeded? ==>
                            t.frontier[i] == s.frontier[i]
    ensures forall i :: 0 <= i < |s.frontier| ==> s.frontier[i].settlement.Pending? ==>
                            t.frontier[i].settlement.Pending?
    ensures forall i :: 0 <= i < |s.frontier| ==> t.frontier[i].settlement.FailedNode? ==>
                            t.frontier[i] == s.frontier[i]
    ensures forall i :: 0 <= i < |t.frontier| ==> ValidNode(t, t.frontier[i])
  {
    forall i | 0 <= i < |t.frontier|
      ensures ValidNode(t, t.frontier[i])
    {
      assert ValidNode(s, s.frontier[i]);
    }
  }

  lemma {:induction false} ResumedLedgerMatches(s: State, t: State)
    requires LedgerMatchesFrontier(s) && t == s.(frontier := t.frontier, revision := t.revision)
    requires |t.frontier| == |s.frontier|
    requires forall i :: 0 <= i < |s.frontier| ==>
                           s.frontier[i].settlement.Succeeded? || t.frontier[i].settlement.Succeeded? ==>
                             t.frontier[i] == s.frontier[i]
    ensures LedgerMatchesFrontier(t)
  {
    forall a | a in t.ledger && a.superstep == t.superstep
      ensures exists i :: 0 <= i < |t.frontier| && t.frontier[i] == FrontierNode(a.node, Succeeded(t.ledger[a].route))
    {
      var i :| 0 <= i < |s.frontier| && s.frontier[i] == FrontierNode(a.node, Succeeded(s.ledger[a].route));
      assert t.frontier[i] == s.frontier[i];
    }
  }

  lemma {:induction false} ResumedStatus(s: State, t: State)
    requires ValidStatus(s) && s.status == Running && t == s.(frontier := t.frontier, revision := t.revision)
    requires |t.frontier| == |s.frontier|
    requires forall i :: 0 <= i < |s.frontier| ==> s.frontier[i].settlement.Pending? ==>
                             t.frontier[i].settlement.Pending?
    requires forall i :: 0 <= i < |s.frontier| ==> t.frontier[i].settlement.FailedNode? ==>
                             t.frontier[i] == s.frontier[i]
    ensures ValidStatus(t)
  {
    if HasFailed(t.frontier) {
      assert HasFailed(s.frontier);
      var i :| 0 <= i < |s.frontier| && s.frontier[i].settlement.Pending?;
      assert t.frontier[i].settlement.Pending?;
    }
  }

  lemma {:induction false} AdvanceKeepsValid(s: State, nodes: seq<Text>)
    requires Valid(s) && AdvanceFrontier(s, nodes).Some?
    ensures Valid(AdvanceFrontier(s, nodes).value.(revision := s.revision + 1))
  {
    var t := AdvanceFrontier(s, nodes).value.(revision := s.revision + 1);
    assert NodeIds(t.frontier) == nodes;
    assert t.frontier[0].settlement.Pending?;
  }

  lemma {:induction false} CompletionValidity(s: State, c: Command)
    requires Valid(s) && c.Complete? && CompleteFrontier(s, c.route).Some?
    ensures Valid(CompleteFrontier(s, c.route).value.(revision := s.revision + 1)) <==> !ConflictingCompletion(s, c)
  {
    var t := CompleteFrontier(s, c.route).value.(revision := s.revision + 1);
    assert CurrentActivation(s, s.frontier[0].node) in s.ledger;
    forall i | 0 <= i < |s.frontier|
      ensures CurrentActivation(s, s.frontier[i].node) in s.ledger
      ensures s.frontier[i].settlement == Succeeded(s.ledger[CurrentActivation(s, s.frontier[i].node)].route)
    {
      var a := CurrentActivation(s, s.frontier[i].node);
      var j :| 0 <= j < |s.frontier| && s.frontier[j] == FrontierNode(a.node, Succeeded(s.ledger[a].route));
      NodesDistinct(s.frontier, i, j);
    }
    if !ConflictingCompletion(s, c) && s.inputEvidence.Some? {
      forall a | a in t.ledger && a.superstep == t.superstep
        ensures t.ledger[a].revision < t.revision && t.ledger[a].route == t.completionRoute
      {
        var j :| 0 <= j < |s.frontier| && s.frontier[j] == FrontierNode(a.node, Succeeded(s.ledger[a].route));
      }
    }
  }

  lemma {:induction false} LeaseStepsKeepValid(s: State, c: Command)
    requires Valid(s) && Transition(s, c).Some? && (c.Claim? || c.Fence? || c.Abort?)
    ensures Valid(Transition(s, c).value)
  {
    var t := Transition(s, c).value;
    assert t.frontier == s.frontier && t.ledger == s.ledger;
    forall i | 0 <= i < |t.frontier|
      ensures ValidNode(t, t.frontier[i])
    {
      assert ValidNode(s, s.frontier[i]);
    }
    assert LedgerMatchesFrontier(t) by {
      forall a | a in t.ledger && a.superstep == t.superstep
        ensures exists i :: 0 <= i < |t.frontier| && t.frontier[i] == FrontierNode(a.node, Succeeded(t.ledger[a].route))
      {
        assert a in s.ledger;
      }
    }
  }

  lemma {:induction false} SettleTransition(s: State, c: Command)
    requires Valid(s) && Transition(s, c).Some? && c.Settle?
    ensures Valid(Transition(s, c).value)
  {
    SettleKeepsValid(s, c);
    assert Transition(s, c).value == SettleNode(s, c).value.(revision := s.revision + 1);
  }

  lemma {:induction false} ResumeTransition(s: State, c: Command)
    requires Valid(s) && Transition(s, c).Some? && c.Resume?
    ensures Valid(Transition(s, c).value)
  {
    ResumeKeepsValid(s, c.actions);
    assert Transition(s, c).value == ResumeNodes(s, c.actions).value.(revision := s.revision + 1);
  }

  lemma {:induction false} AdvanceTransition(s: State, c: Command)
    requires Valid(s) && Transition(s, c).Some? && c.Advance?
    ensures Valid(Transition(s, c).value)
  {
    AdvanceKeepsValid(s, c.nodes);
    assert Transition(s, c).value == AdvanceFrontier(s, c.nodes).value.(revision := s.revision + 1);
  }

  lemma {:induction false} TransitionKeepsValid(s: State, c: Command)
    requires Valid(s) && Transition(s, c).Some? && !c.Complete?
    ensures Valid(Transition(s, c).value)
  {
    if c.Settle? {
      SettleTransition(s, c);
    } else if c.Resume? {
      ResumeTransition(s, c);
    } else if c.Advance? {
      AdvanceTransition(s, c);
    } else if !c.Start? {
      LeaseStepsKeepValid(s, c);
    }
  }

  /** The reducer's final validation rejects a transition of a valid state in exactly one case. */
  lemma {:induction false} ValidationRejectsOnlyConflictingCompletion(s: State, c: Command)
    requires Valid(s) && Transition(s, c).Some?
    ensures Reduce(Some(s), c) == (if ConflictingCompletion(s, c) then None else Transition(s, c))
  {
    if c.Complete? {
      CompletionValidity(s, c);
    } else {
      TransitionKeepsValid(s, c);
    }
  }

  // ---- what every step keeps -------------------------------------------------------------

  /** Every step keeps the identity of the run and moves its revision by one. */
  lemma {:induction false} StepKeepsIdentity(s: State, c: Command)
    requires Reduce(Some(s), c).Some?
    ensures var t := Reduce(Some(s), c).value;
            && t.run == s.run && t.parent == s.parent && t.inputEvidence == s.inputEvidence
            && t.revision == s.revision + 1 && t.superstep >= s.superstep && t.sequence >= s.sequence
  {
  }

  predicate SettlesSuccessfully(c: Command) {
    c.Settle? && c.outcome.SucceededOutcome?
  }

  lemma {:induction false} TransitionLedger(s: State, c: Command)
    requires Transition(s, c).Some?
    ensures var t := Transition(s, c).value;
            if SettlesSuccessfully(c) then
              && s.status == Running && IsPending(s.frontier, c.outcome.node) && t.superstep == s.superstep
              && t.ledger == s.ledger[CurrentActivation(s, c.outcome.node) :=
                             LedgerRecord(c.outcome.route, t.revision, c.token, c.evidence)]
            else t.ledger == s.ledger
  {
  }

  /** The ledger is append-only: a step adds a record exactly when it settles a node successfully,
      for an activation not recorded before, born in this revision under this token. */
  lemma {:induction false} LedgerIsAppendOnly(s: State, c: Command)
    requires Reduce(Some(s), c).Some?
    ensures var t := Reduce(Some(s), c).value;
            if SettlesSuccessfully(c) then
              var a := CurrentActivation(s, c.outcome.node);
              && a !in s.ledger && t.superstep == s.superstep
              && t.ledger == s.ledger[a := LedgerRecord(c.outcome.route, t.revision, c.token, c.evidence)]
            else t.ledger == s.ledger
  {
    TransitionLedger(s, c);
    if SettlesSuccessfully(c) {
      PendingIsNotInLedger(s, c.outcome.node);
    }
  }

  /** Only a running graph holds a lease, and its own fence is always admitted: it clears the lease,
      moves the revision and touches nothing else. */
  lemma {:induction false} FenceAlwaysAdmitted(s: State)
    requires Valid(s) && s.lease.Some?
    ensures s.status == Running
    ensures Reduce(Some(s), Fence(s.revision, s.lease.value)) == Some(s.(lease := None, revision := s.revision + 1))
  {
    ValidationRejectsOnlyConflictingCompletion(s, Fence(s.revision, s.lease.value));
  }

  /** A resume keeps status, superstep, ledger and lease; every pending node stays pending. */
  lemma {:induction false} ResumeFacts(s: State, actions: seq<ResumeAction>)
    requires Reduce(Some(s), Resume(s.revision, actions)).Some?
    ensures var t := Reduce(Some(s), Resume(s.revision, actions)).value;
            && s.status == Running && s.lease.None?
            && t == s.(frontier := t.frontier, revision := s.revision + 1)
            && NodeIds(t.frontier) == NodeIds(s.frontier)
            && (forall node :: IsPending(s.frontier, node) ==> IsPending(t.frontier, node))
  {
    var t := Reduce(Some(s), Resume(s.revision, actions)).value;
    assert NodeIds(t.frontier) == NodeIds(s.frontier);
    forall node | IsPending(s.frontier, node)
      ensures IsPending(t.frontier, node)
    {
      var i :| 0 <= i < |s.frontier| && s.frontier[i].node == node && s.frontier[i].settlement.Pending?;
      assert t.frontier[i].node == node && t.frontier[i].settlement.Pending?;
    }
  }
}
