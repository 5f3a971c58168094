/** What each command means for a graph run, and what a claimed run can always do. */
module GraphRuns {
  import opened Sorted
  import opened Identity
  import opened FrameIndex
  import opened GraphState

  // ---- claims, fences, aborts ------------------------------------------------------------

  ghost predicate Pends(s: State) {
    exists i :: 0 <= i < |s.frontier| && s.frontier[i].settlement.Pending?
  }

  ghost predicate Fails(s: State) {
    exists i :: 0 <= i < |s.frontier| && s.frontier[i].settlement.FailedNode?
  }

  /** A run that may be moved on without a claim. */
  ghost predicate Quiescent(s: State, expected: nat) {
    expected == s.revision && s.status == Running && s.lease.None?
  }

  lemma {:induction false} ReduceIs(s: State, c: Command)
    requires Valid(s)
    ensures Reduce(Some(s), c)
         == if GraphState.Transition(s, c).None?
               || ConflictingCompletion(s, c) then None else GraphState.Transition(s, c)
  {
    if GraphState.Transition(s, c).Some? {
      ValidationRejectsOnlyConflictingCompletion(s, c);
    }
  }

  /** A claim is accepted exactly on a quiescent run with something pending, and takes the next generation. */
  lemma {:induction false} ClaimMeaning(s: State, expected: nat, attempt: Text)
    requires Valid(s)
    ensures Reduce(Some(s), Claim(expected, attempt)).Some? <==> Quiescent(s, expected) && Pends(s)
    ensures var t := Reduce(Some(s), Claim(expected, attempt));
            t.Some? ==> t.value == s.(sequence := s.sequence + 1, lease := Some(Token(s.sequence + 1, attempt)),
                                   revision := s.revision + 1)
  {
    ReduceIs(s, Claim(expected, attempt));
  }

  /** A fence is accepted exactly under the current token, and only clears the lease. */
  lemma {:induction false} FenceMeaning(s: State, expected: nat, token: Token)
    requires Valid(s)
    ensures Reduce(Some(s), Fence(expected, token)).Some? <==> expected == s.revision && s.lease == Some(token)
    ensures var t := Reduce(Some(s), Fence(expected, token));
            t.Some? ==> t.value == s.(lease := None, revision := s.revision + 1)
  {
    ReduceIs(s, Fence(expected, token));
  }

  /** An abort is accepted exactly on a quiescent run, and keeps everything but the status and the reason. */
  lemma {:induction false} AbortMeaning(s: State, expected: nat, reason: Text)
    requires Valid(s)
    ensures Reduce(Some(s), Abort(expected, reason)).Some? <==> Quiescent(s, expected)
    ensures var t := Reduce(Some(s), Abort(expected, reason));
            t.Some? ==> t.value == s.(status := Aborted, abort := Some(reason), revision := s.revision + 1)
  {
    ReduceIs(s, Abort(expected, reason));
  }

  // ---- starting, advancing, completing ---------------------------------------------------

  /** Exactly these nodes, in this order, all pending without an answer. */
  ghost predicate FreshFrontier(f: seq<FrontierNode>, nodes: seq<Text>) {
    |f| == |nodes| && forall i :: 0 <= i < |nodes| ==> f[i] == FrontierNode(nodes[i], Pending(None))
  }

  ghost predicate InOrder(nodes: seq<Text>) {
    nodes != [] && forall i, j :: 0 <= i < j < |nodes| ==> TextLess(nodes[i], nodes[j])
  }

  lemma {:induction false} PairwiseIsInOrder(nodes: seq<Text>)
    ensures nodes != [] && Pairwise(TextLess, nodes) <==> InOrder(nodes)
  {
    TextOrder();
    PairwiseIsAscending(TextLess, nodes);
  }

  /** A start is accepted exactly for nodes in order and a run id that fits its parent, and begins with them. */
  lemma {:induction false} StartMeaning(c: Command)
    requires c.Start?
    ensures Reduce(None, c).Some?
       <==> InOrder(c.nodes)
            && (c.parent.Some? ==>
                  && c.parent.value.run != c.run
                  && c.run == ChildRunId(c.parent.value.run, c.parent.value.superstep, c.parent.value.node))
    ensures var t := Reduce(None, c);
            t.Some? ==> FreshFrontier(t.value.frontier, c.nodes)
                        && t.value == State(c.run, Running, 0, t.value.frontier, 0, c.codec, c.evidence, map[], None,
                                            None,
                                            c.parent, 0, None)
  {
    PairwiseIsInOrder(c.nodes);
    if StartRun(c).Some? {
      StartIsValid(c);
    }
  }

  /** An advance is accepted exactly on a quiescent run whose every node succeeded, and begins the next
      superstep with exactly the given nodes. */
  lemma {:induction false} AdvanceMeaning(s: State, expected: nat, nodes: seq<Text>)
    requires Valid(s)
    ensures Reduce(Some(s), Advance(expected, nodes)).Some?
       <==> Quiescent(s, expected) && InOrder(nodes) && s.frontier != []
            && (forall i :: 0 <= i < |s.frontier| ==> s.frontier[i].settlement.Succeeded?)
    ensures var t := Reduce(Some(s), Advance(expected, nodes));
            t.Some? ==> FreshFrontier(t.value.frontier, nodes)
                        && t.value == s.(superstep := s.superstep + 1, frontier := t.value.frontier,
                                      completionRoute := None, revision := s.revision + 1)
  {
    PairwiseIsInOrder(nodes);
    ReduceIs(s, Advance(expected, nodes));
  }

  /** A completion is accepted exactly on a quiescent run whose every node succeeded, in a durable run under
      the very route that is reported. */
  lemma {:induction false} CompleteMeaning(s: State, expected: nat, route: Option<Text>)
    requires Valid(s)
    ensures Reduce(Some(s), Complete(expected, route)).Some?
       <==> Quiescent(s, expected) && s.frontier != []
            && (forall i :: 0 <= i < |s.frontier| ==> s.frontier[i].settlement.Succeeded?)
            && (s.inputEvidence.Some? ==>
                  forall i :: 0 <= i < |s.frontier| ==> s.frontier[i].settlement == Succeeded(route))
    ensures var t := Reduce(Some(s), Complete(expected, route));
            t.Some? ==> t.value == s.(status := Completed, frontier := [], completionRoute := route,
                                   revision := s.revision + 1)
  {
    ReduceIs(s, Complete(expected, route));
  }

  // ---- settling --------------------------------------------------------------------------

  /** What an outcome makes of its node. */
  function Reported(o: Outcome): (n: FrontierNode) {
    match o
    case SucceededOutcome(node, route) => FrontierNode(node, Succeeded(route))
    case FailedOutcome(node, failure) => FrontierNode(node, FailedNode(failure))
    case InterruptedOutcome(node, identity, payload) => FrontierNode(node, Interrupted(identity, payload))
  }

  /** An outcome the run can take under its current claim. */
  ghost predicate Settleable(s: State, o: Outcome) {
    && s.lease.Some? && IsPending(s.frontier, o.node)
    && (o.InterruptedOutcome? ==>
          s.codec && o.identity == InterruptIdentity(s.run, s.superstep, o.node, s.lease.value.generation))
  }

  /** A settlement is accepted exactly for a pending node under the current token. */
  lemma {:induction false} SettlementAcceptedIff(s: State, expected: nat, token: Token, o: Outcome,
                                                 evidence: Option<Digest>)
    requires Valid(s)
    ensures Reduce(Some(s), Settle(expected, token, o, evidence)).Some?
       <==> && expected == s.revision && s.lease == Some(token) && Settleable(s, o)
            && (evidence.Some? ==> o.SucceededOutcome?)
  {
    ReduceIs(s, Settle(expected, token, o, evidence));
  }

  /** It settles its node as reported and leaves every other node as it was; it keeps the lease exactly while
      something is pending, and ends the run as failed exactly when nothing is pending and something failed. */
  lemma {:induction false} SettlementMeaning(s: State, c: Command)
    requires c.Settle? && Reduce(Some(s), c).Some?
    ensures var t := Reduce(Some(s), c).value;
            && |t.frontier| == |s.frontier|
            && (forall i :: 0 <= i < |s.frontier| ==>
                              t.frontier[i] == if s.frontier[i].node == c.outcome.node then Reported(c.outcome)
                              else s.frontier[i])
            && s.lease == Some(c.token) && t.lease == (if Pends(t) then s.lease else None)
            && t.status == (if !Pends(t) && Fails(t) then Failed else Running)
            && t == s.(frontier := t.frontier, lease := t.lease, status := t.status, ledger := t.ledger,
                    revision := s.revision + 1)
  {
    assert s.status == Running;
  }

  // ---- a whole claim ---------------------------------------------------------------------

  /** Settle one outcome after the other under one token. */
  function SettleAll(s: State, token: Token, outcomes: seq<Outcome>): (t: Option<State>)
    decreases outcomes
  {
    if outcomes == [] then Some(s)
    else
      match Reduce(Some(s), Settle(s.revision, token, outcomes[0], None))
      case None => None
      case Some(next) => SettleAll(next, token, outcomes[1..])
  }

  ghost predicate DistinctNodes(outcomes: seq<Outcome>) {
    forall i, j :: 0 <= i < j < |outcomes| ==> outcomes[i].node != outcomes[j].node
  }

  /** The frontier in which exactly the reported nodes are settled, as reported. */
  ghost predicate SettledAs(before: seq<FrontierNode>, outcomes: seq<Outcome>, after: seq<FrontierNode>) {
    && |after| == |before|
    && (forall i, j :: 0 <= i < |before| && 0 <= j < |outcomes| && before[i].node == outcomes[j].node ==>
                         after[i] == Reported(outcomes[j]))
    && (forall i :: 0 <= i < |before| && (forall j :: 0 <= j < |outcomes| ==> outcomes[j].node != before[i].node) ==>
                      after[i] == before[i])
  }

  lemma {:induction false} SettledFirst(s: State, o: Outcome, t: State)
    requires Valid(s) && Settleable(s, o) && Reduce(Some(s), Settle(s.revision, s.lease.value, o, None)) == Some(t)
    ensures forall p: Outcome :: p.node != o.node && Settleable(s, p) ==> Settleable(t, p)
  {
    SettlementMeaning(s, Settle(s.revision, s.lease.value, o, None));
    forall p: Outcome | p.node != o.node && Settleable(s, p)
      ensures Settleable(t, p)
    {
      var i :| 0 <= i < |s.frontier| && s.frontier[i].node == p.node && s.frontier[i].settlement.Pending?;
      assert t.frontier[i].node == p.node && t.frontier[i].settlement.Pending?;
    }
  }

  lemma {:induction false} SettledCons(before: seq<FrontierNode>, outcomes: seq<Outcome>, mid: seq<FrontierNode>,
                                       after: seq<FrontierNode>)
    requires outcomes != [] && DistinctNodes(outcomes) && |mid| == |before|
    requires forall i :: 0 <= i < |before| ==>
                           mid[i] == if before[i].node == outcomes[0].node then Reported(outcomes[0]) else before[i]
    requires SettledAs(mid, outcomes[1..], after)
    ensures SettledAs(before, outcomes, after)
  {
    forall i, j | 0 <= i < |before| && 0 <= j < |outcomes| && before[i].node == outcomes[j].node
      ensures after[i] == Reported(outcomes[j])
    {
      if j > 0 {
        assert outcomes[1..][j - 1] == outcomes[j] && outcomes[0].node != outcomes[j].node;
      } else {
        assert forall k :: 0 <= k < |outcomes[1..]| ==> outcomes[1..][k] == outcomes[k + 1];
      }
    }
    forall i | 0 <= i < |before| && (forall j :: 0 <= j < |outcomes| ==> outcomes[j].node != before[i].node)
      ensures after[i] == before[i]
    {
      assert forall k :: 0 <= k < |outcomes[1..]| ==> outcomes[1..][k] == outcomes[k + 1];
    }
  }

  /** Any pending nodes of a claimed run can be settled in any order under the one token: every settlement is
      accepted, exactly these nodes end as reported, and the lease is kept exactly while something is pending. */
  lemma {:induction false} ClaimSettlesInAnyOrder(s: State, outcomes: seq<Outcome>)
    requires Valid(s) && s.lease.Some? && DistinctNodes(outcomes)
    requires forall i :: 0 <= i < |outcomes| ==> Settleable(s, outcomes[i])
    ensures var t := SettleAll(s, s.lease.value, outcomes);
            && t.Some? && Valid(t.value) && SettledAs(s.frontier, outcomes, t.value.frontier)
            && t.value.revision == s.revision + |outcomes| && t.value.superstep == s.superstep && t.value.run == s.run
            && t.value.lease == (if Pends(t.value) then s.lease else None)
            && t.value.status == (if !Pends(t.value) && Fails(t.value) then Failed else Running)
    decreases outcomes
  {
    if outcomes == [] {
      assert Pends(s) && s.status == Running;
    } else {
      var o, rest := outcomes[0], outcomes[1..];
      SettlementAcceptedIff(s, s.revision, s.lease.value, o, None);
      var c := Settle(s.revision, s.lease.value, o, None);
      var next := Reduce(Some(s), c).value;
      SettlementMeaning(s, c);
      SettledFirst(s, o, next);
      forall i | 0 <= i < |rest|
        ensures Settleable(next, rest[i])
      {
        assert rest[i] == outcomes[i + 1] && Settleable(s, outcomes[i + 1]) && outcomes[0].node != outcomes[i + 1].node;
      }
      if rest == [] {
        assert SettledAs(next.frontier, rest, next.frontier);
        assert SettleAll(next, s.lease.value, rest) == Some(next);
      } else {
        assert Settleable(next, rest[0]) && next.lease == s.lease;
        ClaimSettlesInAnyOrder(next, rest);
      }
      SettledCons(s.frontier, outcomes, next.frontier, SettleAll(next, s.lease.value, rest).value.frontier);
    }
  }

  /** A superstep can always be finished: if every pending node of a claimed run succeeds and no other node
      failed or waits, the run may advance to any nodes in order. */
  lemma {:induction false} SuperstepCompletes(s: State, outcomes: seq<Outcome>, nodes: seq<Text>)
    requires Valid(s) && s.lease.Some? && DistinctNodes(outcomes) && InOrder(nodes)
    requires forall i :: 0 <= i < |outcomes| ==> Settleable(s, outcomes[i]) && outcomes[i].SucceededOutcome?
    requires forall i :: 0 <= i < |s.frontier| ==>
                           || s.frontier[i].settlement.Succeeded?
                           || exists j :: 0 <= j < |outcomes| && outcomes[j].node == s.frontier[i].node
    ensures var t := SettleAll(s, s.lease.value, outcomes);
            t.Some? && Reduce(Some(t.value), Advance(t.value.revision, nodes)).Some?
  {
    ClaimSettlesInAnyOrder(s, outcomes);
    var t := SettleAll(s, s.lease.value, outcomes).value;
    AllSettled(s.frontier, outcomes, t.frontier);
    assert s.frontier != [];
    MayAdvance(t, nodes);
  }

  lemma {:induction false} MayAdvance(t: State, nodes: seq<Text>)
    requires Valid(t) && InOrder(nodes) && t.frontier != []
    requires forall i :: 0 <= i < |t.frontier| ==> t.frontier[i].settlement.Succeeded?
    requires t.lease == (if Pends(t) then t.lease else None)
    requires t.status == (if !Pends(t) && Fails(t) then Failed else Running)
    ensures Reduce(Some(t), Advance(t.revision, nodes)).Some?
  {
    AdvanceMeaning(t, t.revision, nodes);
  }

  lemma {:induction false} AllSettled(before: seq<FrontierNode>, outcomes: seq<Outcome>, after: seq<FrontierNode>)
    requires SettledAs(before, outcomes, after)
    requires forall i :: 0 <= i < |outcomes| ==> outcomes[i].SucceededOutcome?
    requires forall i :: 0 <= i < |before| ==>
                           || before[i].settlement.Succeeded?
                           || exists j :: 0 <= j < |outcomes| && outcomes[j].node == before[i].node
    ensures forall i :: 0 <= i < |after| ==> after[i].settlement.Succeeded?
  {
    forall i | 0 <= i < |after|
      ensures after[i].settlement.Succeeded?
    {
      if j :| 0 <= j < |outcomes| && outcomes[j].node == before[i].node {
        assert after[i] == Reported(outcomes[j]);
      }
    }
  }
}
