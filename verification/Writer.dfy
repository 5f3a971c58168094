/** The attempt loop of the authorized writer against every store that honours the port contract. */
module Writer {
  import opened FrameIndex
  import opened Recovery

  // ---- the durable log -------------------------------------------------------------------

  function At(q: Request): (at: ScopeRun) { ScopeRun(q.scope, q.candidate.run) }

  /** The number of commits of one scoped run. */
  function Commits(log: seq<Request>, at: ScopeRun): (n: nat) {
    if log == [] then 0
    else Commits(log[..|log| - 1], at) + (if At(log[|log| - 1]) == at then 1 else 0)
  }

  /** A request names the predecessor it replaces. */
  predicate WellFormed(q: Request) {
    q.expected == if q.revision == 0 then None else Some(q.revision - 1)
  }

  /** The head revision of a scoped run, absent before its first commit. */
  function Head(log: seq<Request>, at: ScopeRun): (h: Option<nat>) {
    var n := Commits(log, at);
    if n == 0 then None else Some(n - 1)
  }

  /** The compare-and-set condition of a commit. */
  predicate Applicable(log: seq<Request>, q: Request) {
    WellFormed(q) && q.expected == Head(log, At(q))
  }

  /** Every scoped run's durable revisions are 0, 1, 2, ... in the order of the log. */
  ghost predicate Contiguous(log: seq<Request>) {
    forall i :: 0 <= i < |log| ==> log[i].revision == Commits(log[..i], At(log[i]))
  }

  lemma {:induction false} AppliedStaysContiguous(log: seq<Request>, q: Request)
    requires Contiguous(log) && Applicable(log, q)
    ensures Contiguous(log + [q])
  {
    var next := log + [q];
    forall i | 0 <= i < |next|
      ensures next[i].revision == Commits(next[..i], At(next[i]))
    {
      assert next[..i] == if i < |log| then log[..i] else log;
    }
  }

  lemma {:induction false} CommitsGrow(log: seq<Request>, i: nat, at: ScopeRun)
    requires i <= |log|
    ensures Commits(log[..i], at) <= Commits(log, at)
  {
    if i < |log| {
      CommitsGrow(log[..|log| - 1], i, at);
      assert log[..|log| - 1][..i] == log[..i];
    } else {
      assert log[..i] == log;
    }
  }

  /** In a contiguous log no two entries commit the same revision of the same run, so nothing is applied
      twice. */
  lemma {:induction false} AppliedAtMostOnce(log: seq<Request>, i: nat, j: nat)
    requires Contiguous(log) && i < j < |log|
    ensures !(At(log[i]) == At(log[j]) && log[i].revision == log[j].revision)
    ensures log[i] != log[j]
  {
    if At(log[i]) == At(log[j]) {
      var at := At(log[i]);
      CommitsGrow(log[..j], i + 1, at);
      assert log[..j][..i + 1] == log[..i + 1] && log[..i + 1][..i] == log[..i];
    }
  }

  // ---- the port --------------------------------------------------------------------------

  datatype Outcome = Applied | NotApplied | Unknown

  datatype Call = CommitCall(outcome: Outcome) | ReconcileCall(outcome: Outcome)

  /** Any store honouring the port contract. An uncertain write may stay in flight and land or be dropped
      at any later call; Applied and NotApplied are only answered when they are proven. */
  class Store {
    var log: seq<Request>
    var inFlight: Option<Request>
    var calls: seq<Call>

    ghost predicate Valid()
      reads this
    {
      Contiguous(log)
    }

    constructor ()
      ensures Valid() && log == [] && inFlight.None? && calls == []
    {
      log, inFlight, calls := [], None, [];
    }

    /** The write in flight lands if it still can, or is dropped, or stays. */
    method Settle()
      requires Valid()
      modifies this`log, this`inFlight
      ensures Valid()
      ensures inFlight == old(inFlight) || inFlight.None?
      ensures log == old(log) || (old(inFlight).Some? && inFlight.None? && log == old(log) + [old(inFlight).value])
    {
      if inFlight.Some? {
        if * {
          if Applicable(log, inFlight.value) {
            AppliedStaysContiguous(log, inFlight.value);
            log := log + [inFlight.value];
          }
          inFlight := None;
        } else if * {
          inFlight := None;
        }
      }
    }

    method Commit(q: Request) returns (outcome: Outcome)
      requires Valid() && inFlight.None?
      modifies this
      ensures Valid() && calls == old(calls) + [CommitCall(outcome)]
      ensures log == old(log) || (q !in old(log) && log == old(log) + [q])
      ensures inFlight.None? || (inFlight == Some(q) && outcome == Unknown && log == old(log) && q !in log)
      ensures outcome == Applied ==> q in log
      ensures outcome == NotApplied ==> q !in log && inFlight.None?
    {
      outcome := Unknown;
      if q in log {
        if * {
          outcome := Applied;
        }
      } else if * {
        inFlight := Some(q);
      } else if Applicable(log, q) {
        if * {
          AppliedStaysContiguous(log, q);
          log := log + [q];
          if * {
            outcome := Applied;
          }
        } else if * {
          outcome := NotApplied;
        }
      } else if * {
        outcome := NotApplied;
      }
      calls := calls + [CommitCall(outcome)];
    }

    method Reconcile(q: Request) returns (outcome: Outcome)
      requires Valid() && (inFlight.None? || (inFlight == Some(q) && q !in log))
      modifies this
      ensures Valid() && calls == old(calls) + [ReconcileCall(outcome)]
      ensures log == old(log) || (old(inFlight) == Some(q) && q !in old(log) && inFlight.None? && log == old(log) + [q])
      ensures inFlight.None? || (inFlight == old(inFlight) && outcome == Unknown)
      ensures outcome == Applied ==> q in log
      ensures outcome == NotApplied ==> q !in log && inFlight.None?
    {
      ghost var before := log;
      Settle();
      if log != before && q in before {
        AppliedTwice(before, q);
      }
      outcome := Unknown;
      if * {
        if q in log {
          outcome := Applied;
        } else if inFlight.None? {
          outcome := NotApplied;
        }
      }
      calls := calls + [ReconcileCall(outcome)];
    }
  }

  lemma {:induction false} AppliedTwice(log: seq<Request>, q: Request)
    ensures q in log ==> !Contiguous(log + [q])
  {
    if q in log && Contiguous(log + [q]) {
      var i :| 0 <= i < |log| && log[i] == q;
      AppliedAtMostOnce(log + [q], i, |log|);
    }
  }

  // ---- the writer ------------------------------------------------------------------------

  datatype Written = Confirmed | Unresolved | Exhausted

  function CommitCalls(calls: seq<Call>): (n: nat) {
    if calls == [] then 0
    else CommitCalls(calls[..|calls| - 1]) + (if calls[|calls| - 1].CommitCall? then 1 else 0)
  }

  /** Every further commit call follows a proven NotApplied, and every reconcile an unknown commit. */
  predicate Disciplined(calls: seq<Call>) {
    && (forall i :: 0 < i < |calls| && calls[i].CommitCall? ==> calls[i - 1].outcome == NotApplied)
    && (forall i :: 0 <= i < |calls| && calls[i].ReconcileCall? ==> i > 0 && calls[i - 1] == CommitCall(Unknown))
  }

  /** The calls a write makes: disciplined, within budget, and ended by the outcome it reports. */
  predicate WriteCalls(calls: seq<Call>, budget: nat, r: Written) {
    && Disciplined(calls) && CommitCalls(calls) <= budget
    && (r == Exhausted ==> CommitCalls(calls) == budget && (calls == [] || calls[|calls| - 1].outcome == NotApplied))
    && (r == Confirmed ==> calls != [] && calls[|calls| - 1].outcome == Applied)
    && (r == Unresolved ==> calls != [] && calls[|calls| - 1] == ReconcileCall(Unknown))
  }

  /** The calls of one attempt: a commit, followed by one reconcile exactly when it was unknown. */
  predicate AttemptCalls(made: seq<Call>, outcome: Outcome) {
    || (made == [CommitCall(outcome)] && outcome != Unknown)
    || made == [CommitCall(Unknown), ReconcileCall(outcome)]
  }

  lemma {:induction false} CallAppended(calls: seq<Call>, c: Call)
    requires Disciplined(calls)
    requires c.CommitCall? && calls != [] ==> calls[|calls| - 1].outcome == NotApplied
    requires c.ReconcileCall? ==> calls != [] && calls[|calls| - 1] == CommitCall(Unknown)
    ensures Disciplined(calls + [c])
    ensures CommitCalls(calls + [c]) == CommitCalls(calls) + (if c.CommitCall? then 1 else 0)
  {
    assert (calls + [c])[..|calls|] == calls;
  }

  /** The calls of a number of attempts that all ended in a proven NotApplied. */
  ghost predicate Resumable(calls: seq<Call>, attempts: nat) {
    Disciplined(calls) && CommitCalls(calls) == attempts && (calls == [] || calls[|calls| - 1].outcome == NotApplied)
  }

  /** The calls after one attempt more than the given number. */
  ghost predicate Attempted(calls: seq<Call>, attempts: nat, outcome: Outcome) {
    && calls != [] && calls[|calls| - 1].outcome == outcome && Disciplined(calls) && CommitCalls(calls) == attempts + 1
    && (outcome == Unknown ==> calls[|calls| - 1] == ReconcileCall(Unknown))
  }

  lemma {:induction false} CommitAttempted(calls: seq<Call>, attempts: nat, outcome: Outcome)
    requires Resumable(calls, attempts) && outcome != Unknown
    ensures Attempted(calls + [CommitCall(outcome)], attempts, outcome)
  {
    CallAppended(calls, CommitCall(outcome));
  }

  lemma {:induction false} ReconcileAttempted(calls: seq<Call>, attempts: nat, outcome: Outcome)
    requires Resumable(calls, attempts)
    ensures Attempted(calls + [CommitCall(Unknown)] + [ReconcileCall(outcome)], attempts, outcome)
  {
    CallAppended(calls, CommitCall(Unknown));
    CallAppended(calls + [CommitCall(Unknown)], ReconcileCall(outcome));
  }

  /** One more attempt: the loop goes on after a proven NotApplied and ends otherwise. */
  lemma {:induction false} AttemptExtends(calls: seq<Call>, attempts: nat, made: seq<Call>, outcome: Outcome,
                                          budget: nat)
    requires Resumable(calls, attempts) && attempts < budget && AttemptCalls(made, outcome)
    ensures outcome == Applied ==> WriteCalls(calls + made, budget, Confirmed)
    ensures outcome == Unknown ==> WriteCalls(calls + made, budget, Unresolved)
    ensures outcome == NotApplied ==> Resumable(calls + made, attempts + 1)
  {
    if |made| == 1 {
      CommitAttempted(calls, attempts, outcome);
    } else {
      ReconcileAttempted(calls, attempts, outcome);
      TwoCalls(calls, made[0], made[1]);
      assert made == [made[0]] + [made[1]];
    }
    assert Attempted(calls + made, attempts, outcome);
  }

  lemma {:induction false} TwoCalls(calls: seq<Call>, a: Call, b: Call)
    ensures calls + [a] + [b] == calls + ([a] + [b])
  {
  }

  /** One attempt: commit, and reconcile an unknown outcome. */
  method Attempt(store: Store, q: Request) returns (outcome: Outcome, ghost made: seq<Call>)
    requires store.Valid() && store.inFlight.None?
    modifies store
    ensures store.Valid() && store.calls == old(store.calls) + made && AttemptCalls(made, outcome)
    ensures store.log == old(store.log) || (q !in old(store.log) && store.log == old(store.log) + [q])
    ensures store.inFlight.None? || (outcome == Unknown && store.inFlight == Some(q))
    ensures outcome == Applied ==> q in store.log
    ensures outcome == NotApplied ==> q !in store.log && store.log == old(store.log)
  {
    outcome := store.Commit(q);
    made := [CommitCall(outcome)];
    if outcome == Unknown {
      outcome := store.Reconcile(q);
      made := made + [ReconcileCall(outcome)];
    }
    assert q in old(store.log) + [q];
  }

  /** The attempt loop. The request is applied at most once; a normal return means it is applied, running
      out of attempts means it is not; only an unresolved outcome leaves it open. */
  method Write(store: Store, q: Request, maxAttempts: nat) returns (r: Written, ghost mine: seq<Call>)
    requires store.Valid() && store.inFlight.None?
    modifies store
    ensures store.Valid()
    ensures store.log == old(store.log) || (q !in old(store.log) && store.log == old(store.log) + [q])
    ensures r == Confirmed ==> q in store.log
    ensures r == Exhausted ==>
              store.log == old(store.log) && store.inFlight.None? && (maxAttempts > 0 ==> q !in store.log)
    ensures store.inFlight.None? || (r == Unresolved && store.inFlight == Some(q))
    ensures store.calls == old(store.calls) + mine && WriteCalls(mine, maxAttempts, r)
  {
    var attempt := 0;
    mine := [];
    ghost var calls := store.calls;
    NoCalls(calls);
    while attempt < maxAttempts
      invariant 0 <= attempt <= maxAttempts && store.Valid() && store.inFlight.None?
      invariant store.log == old(store.log) && (attempt > 0 ==> q !in store.log)
      invariant store.calls == calls + mine && Resumable(mine, attempt)
    {
      var outcome, made := Attempt(store, q);
      AttemptExtends(mine, attempt, made, outcome, maxAttempts);
      CallsJoin(calls, mine, made);
      mine := mine + made;
      if outcome != NotApplied {
        r := if outcome == Applied then Confirmed else Unresolved;
        return;
      }
      attempt := attempt + 1;
    }
    r := Exhausted;
  }

  lemma {:induction false} NoCalls(calls: seq<Call>)
    ensures calls + [] == calls && Resumable([], 0)
  {
  }

  lemma {:induction false} CallsJoin(before: seq<Call>, mine: seq<Call>, made: seq<Call>)
    ensures before + mine + made == before + (mine + made)
  {
  }
}
