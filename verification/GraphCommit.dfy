/** Preparing and confirming transitions, and the agreement of the settlement ledger with the frames. */
module GraphCommit {
  import opened Sorted
  import opened FrameIndex
  import opened GraphState
  import opened GraphRuns
  import opened ScopedFrames

  // ---- one transition --------------------------------------------------------------------

  /** The frame descriptors of the compiled graph at each scope. */
  datatype Schema = Schema(input: seq<Text> -> nat, output: (seq<Text>, Text) -> nat)

  datatype TaskResult<+V> =
    | TaskSuccess(activation: Activation, output: V)
    | TaskUnsuccessful(activation: Activation)

  datatype Transition<+V> = Transition(
    at: ScopeRun,
    previous: Option<State>,
    command: Command,
    candidate: State,
    inputs: seq<Record<V>>,
    settlement: Option<TaskResult<V>>,
    publications: seq<Record<Publication<V>>>)

  function InputKey(schema: Schema, at: ScopeRun): (c: Coordinate) {
    GraphInputAt(at, schema.input(at.scope))
  }

  function PublicationKey(schema: Schema, at: ScopeRun, a: Activation): (c: Coordinate) {
    PublicationAt(Stable(at, a), schema.output(at.scope, a.node))
  }

  /** `prepare_transition` up to the construction of the transition record. */
  function Prepare<V>(schema: Schema, at: ScopeRun, previous: Option<State>, command: Command,
                      result: Option<TaskResult<V>>, input: Option<V>): (r: Option<Transition<V>>)
  {
    match Reduce(previous, command)
    case None => None
    case Some(candidate) =>
      if command.Start? != input.Some? || command.Settle? != result.Some? then None
      else if command.Settle? && result.value.activation != CurrentActivation(candidate, command.outcome.node) then None
      else
        var inputs := if command.Start? then [Record(InputKey(schema, at), input.value)] else [];
        var publications :=
          if command.Settle? && result.value.TaskSuccess? then
            [Record(PublicationKey(schema, at, result.value.activation),
                    Publication(result.value.output, candidate.revision, command.token))]
          else [];
        Some(Transition(at, previous, command, candidate, inputs, result, publications))
  }

  /** The checks a transition record makes of itself. */
  predicate TransitionAdmitted<V>(t: Transition<V>) {
    && (t.command.Start? ==>
          && t.settlement.None? && t.publications == [] && |t.inputs| == 1
          && t.candidate.inputEvidence == t.command.evidence)
    && (!t.command.Start? ==> t.inputs == [])
    && (t.command.Settle? ==>
          && t.settlement.Some? && t.settlement.value.activation.node == t.command.outcome.node
          && (t.settlement.value.TaskSuccess? ==>
                && |t.publications| == 1 && t.command.outcome.SucceededOutcome?
                && var a := CurrentActivation(t.candidate, t.command.outcome.node);
                && a in t.candidate.ledger
                && t.candidate.ledger[a] == LedgerRecord(t.candidate.ledger[a].route, t.candidate.revision,
                                                         t.command.token, t.command.evidence))
          && (!t.settlement.value.TaskSuccess? ==> t.publications == []))
    && (!t.command.Settle? ==> t.settlement.None? && t.publications == [])
  }

  /** The result reports success exactly when the outcome does. */
  predicate Matched<V>(command: Command, result: Option<TaskResult<V>>) {
    command.Settle? && result.Some? ==> (result.value.TaskSuccess? <==> command.outcome.SucceededOutcome?)
  }

  /** A prepared transition fails its own checks in one case only: a successful result reported
      under an unsuccessful outcome. */
  lemma {:induction false} PreparedIsAdmitted<V>(schema: Schema, at: ScopeRun, previous: Option<State>,
                                                 command: Command,
                                                 result: Option<TaskResult<V>>, input: Option<V>)
    requires Prepare(schema, at, previous, command, result, input).Some?
    ensures TransitionAdmitted(Prepare(schema, at, previous, command, result, input).value)
       <==> !(command.Settle? && result.value.TaskSuccess? && !command.outcome.SucceededOutcome?)
  {
    if SettlesSuccessfully(command) {
      LedgerIsAppendOnly(previous.value, command);
    }
  }

  function PrepareTransition<V>(schema: Schema, at: ScopeRun, previous: Option<State>, command: Command,
                                result: Option<TaskResult<V>>, input: Option<V>): (r: Option<Transition<V>>)
  {
    match Prepare(schema, at, previous, command, result, input)
    case None => None
    case Some(t) => if TransitionAdmitted(t) then Some(t) else None
  }

  /** A transition is prepared exactly for an accepted command with what belongs to it: the graph input of a start,
      the result of a settlement, for the activation it settles, and a success only under a success. It writes
      that input, or that output under the revision and token it is settled in, and nothing else. */
  lemma {:induction false} PreparedExactly<V>(schema: Schema, at: ScopeRun, previous: Option<State>, command: Command,
                                              result: Option<TaskResult<V>>, input: Option<V>)
    ensures PrepareTransition(schema, at, previous, command, result, input).Some?
       <==> && Reduce(previous, command).Some?
            && (input.Some? <==> command.Start?) && (result.Some? <==> command.Settle?)
            && (result.Some? ==>
                  && result.value.activation
                     == Activation(previous.value.run, previous.value.superstep, command.outcome.node)
                  && (result.value.TaskSuccess? ==> command.outcome.SucceededOutcome?))
    ensures var r := PrepareTransition(schema, at, previous, command, result, input);
            r.Some? ==>
              var s := Reduce(previous, command).value;
              && r.value.candidate == s
              && r.value.inputs == (if input.Some? then [Record(GraphInputAt(at, schema.input(at.scope)), input.value)]
                                    else [])
              && r.value.publications
                 == if result.Some? && result.value.TaskSuccess? then
                      [Record(PublicationAt(Stable(at, result.value.activation),
                                            schema.output(at.scope, command.outcome.node)),
                              Publication(result.value.output, s.revision, previous.value.lease.value))]
                    else []
  {
    if Reduce(previous, command).Some? && command.Settle? {
      SettlementMeaning(previous.value, command);
    }
    if Prepare(schema, at, previous, command, result, input).Some? {
      PreparedIsAdmitted(schema, at, previous, command, result, input);
    }
  }

  /** `apply_commit_writes`. */
  function ApplyWrites<V>(frames: Index<V>, t: Transition<V>): (r: Option<Index<V>>) {
    match InsertAll(frames.inputs, t.inputs)
    case None => None
    case Some(inputs) =>
      match InsertAll(frames.publications, t.publications)
      case None => None
      case Some(publications) => Some(frames.(inputs := inputs, publications := publications))
  }

  // ---- a family of runs ------------------------------------------------------------------

  /** The scoped states of a family and the frames of all its owners. */
  datatype Live<+V> = Live(states: map<ScopeRun, State>, frames: Index<V>)

  datatype Event<+V> = Event(at: ScopeRun, command: Command, result: Option<TaskResult<V>>, input: Option<V>)

  function Previous<V>(live: Live<V>, at: ScopeRun): (s: Option<State>) {
    if at in live.states then Some(live.states[at]) else None
  }

  /** One confirmed transition of a scoped owner. */
  function Confirm<V>(schema: Schema, live: Live<V>, e: Event<V>): (r: Option<Live<V>>) {
    match PrepareTransition(schema, e.at, Previous(live, e.at), e.command, e.result, e.input)
    case None => None
    case Some(t) =>
      if t.candidate.run != e.at.run then None
      else
        match ApplyWrites(live.frames, t)
        case None => None
        case Some(frames) => Some(Live(live.states[e.at := t.candidate], frames))
  }

  lemma {:induction false} ConfirmedCandidate<V>(schema: Schema, live: Live<V>, e: Event<V>) returns (t: State)
    requires Confirm(schema, live, e).Some?
    ensures Reduce(Previous(live, e.at), e.command) == Some(t)
    ensures Confirm(schema, live, e).value.states == live.states[e.at := t]
  {
    t := Confirm(schema, live, e).value.states[e.at];
  }

  function NewFamily<V>(): (live: Live<V>) { Live(map[], EmptyIndex()) }

  function Run<V>(schema: Schema, events: seq<Event<V>>): (r: Option<Live<V>>) {
    if events == [] then Some(NewFamily())
    else
      var n := |events| - 1;
      match Run(schema, events[..n])
      case None => None
      case Some(live) => Confirm(schema, live, events[n])
  }

  // ---- ledger and index ------------------------------------------------------------------

  /** The frame record a ledger entry stands for. */
  function LedgerPublication<V>(schema: Schema, at: ScopeRun, s: State, a: Activation,
                                frame: V): (r: Record<Publication<V>>)
    requires a in s.ledger
  {
    Record(PublicationKey(schema, at, a), Publication(frame, s.ledger[a].revision, s.ledger[a].token))
  }

  ghost predicate StatesPlaced(states: map<ScopeRun, State>) {
    forall at :: at in states ==> states[at].run == at.run && Valid(states[at])
  }

  ghost predicate InputsAgree<V>(schema: Schema, states: map<ScopeRun, State>, inputs: seq<Record<V>>) {
    && Canonical(inputs)
    && (forall r :: r in inputs ==>
                      r.coordinate.GraphInputAt? && r.coordinate.at in states
                      && r.coordinate == InputKey(schema, r.coordinate.at))
    && (forall at :: at in states ==> Has(inputs, InputKey(schema, at)))
  }

  /** The activation a publication coordinate names in its own run. */
  function OwnActivation(c: Coordinate): (a: Activation) {
    Activation(Place(c).at.run, Place(c).superstep, Place(c).node)
  }

  ghost predicate PublicationAgrees<V>(schema: Schema, states: map<ScopeRun, State>, r: Record<Publication<V>>) {
    && r.coordinate.PublicationAt?
    && r.coordinate.activation.at in states
    && var at := r.coordinate.activation.at;
    OwnActivation(r.coordinate) in states[at].ledger
    && r == LedgerPublication(schema, at, states[at], OwnActivation(r.coordinate), r.value.frame)
  }

  ghost predicate PublicationsAgree<V>(schema: Schema, states: map<ScopeRun, State>,
                                       publications: seq<Record<Publication<V>>>) {
    && Canonical(publications)
    && RecordsAgree(schema, states, publications)
    && LedgersCovered(schema, states, publications)
  }

  ghost predicate RecordsAgree<V>(schema: Schema, states: map<ScopeRun, State>,
                                  publications: seq<Record<Publication<V>>>) {
    forall r :: r in publications ==> PublicationAgrees(schema, states, r)
  }

  ghost predicate LedgersCovered<V>(schema: Schema, states: map<ScopeRun, State>,
                                    publications: seq<Record<Publication<V>>>) {
    forall at, a :: at in states && a in states[at].ledger ==> Has(publications, PublicationKey(schema, at, a))
  }

  /** The publications of the index are exactly the settlement ledgers, with the same revisions and
      tokens, and every bound run has its one graph input. */
  ghost predicate Agrees<V>(schema: Schema, live: Live<V>) {
    && StatesPlaced(live.states)
    && InputsAgree(schema, live.states, live.frames.inputs)
    && PublicationsAgree(schema, live.states, live.frames.publications)
  }

  // ---- starting a run --------------------------------------------------------------------

  lemma {:induction false} StartedInputs<V>(schema: Schema, states: map<ScopeRun, State>, inputs: seq<Record<V>>,
                                            at: ScopeRun, s: State, v: V)
    returns (next: seq<Record<V>>)
    requires InputsAgree(schema, states, inputs) && at !in states
    ensures InsertAll(inputs, [Record(InputKey(schema, at), v)]) == Some(next)
    ensures InputsAgree(schema, states[at := s], next)
  {
    var r := Record(InputKey(schema, at), v);
    HasMembers(inputs, r.coordinate);
    InsertAllSpec(inputs, [r]);
    next := InsertedMembers(inputs, [r]);
    forall x | x in states[at := s]
      ensures Has(next, InputKey(schema, x))
    {
      HasMembers(inputs, InputKey(schema, x));
      HasMembers(next, InputKey(schema, x));
      assert r in [r];
    }
  }

  lemma {:induction false} KeptInputs<V>(schema: Schema, states: map<ScopeRun, State>, inputs: seq<Record<V>>,
                                         at: ScopeRun, s: State)
    requires InputsAgree(schema, states, inputs) && at in states
    ensures InputsAgree(schema, states[at := s], inputs)
  {
  }

  /** A run whose ledger does not change, or which is new and has none. */
  lemma {:induction false} KeptPublications<V>(schema: Schema, states: map<ScopeRun, State>,
                                               publications: seq<Record<Publication<V>>>, at: ScopeRun, s: State)
    requires PublicationsAgree(schema, states, publications)
    requires s.ledger == if at in states then states[at].ledger else map[]
    ensures PublicationsAgree(schema, states[at := s], publications)
  {
    forall r | r in publications
      ensures PublicationAgrees(schema, states[at := s], r)
    {
      assert PublicationAgrees(schema, states, r);
    }
  }

  // ---- settling a node -------------------------------------------------------------------

  lemma {:induction false} SettledPublications<V>(schema: Schema, states: map<ScopeRun, State>,
                                                  publications: seq<Record<Publication<V>>>,
                                                  at: ScopeRun, s: State, a: Activation, v: V)
    returns (next: seq<Record<Publication<V>>>)
    requires StatesPlaced(states) && PublicationsAgree(schema, states, publications) && at in states && a.run == at.run
    requires a !in states[at].ledger && a in s.ledger && s.ledger == states[at].ledger[a := s.ledger[a]]
    ensures InsertAll(publications, [LedgerPublication(schema, at, s, a, v)]) == Some(next)
    ensures PublicationsAgree(schema, states[at := s], next)
  {
    var r := LedgerPublication(schema, at, s, a, v);
    HasMembers(publications, r.coordinate);
    forall q | q in publications
      ensures q.coordinate != r.coordinate && PublicationAgrees(schema, states[at := s], q)
    {
      assert PublicationAgrees(schema, states, q);
    }
    InsertAllSpec(publications, [r]);
    next := InsertedMembers(publications, [r]);
    forall q | q in next
      ensures PublicationAgrees(schema, states[at := s], q)
    {
      assert q in publications || q in [r];
    }
    forall x, b | x in states[at := s] && b in states[at := s][x].ledger
      ensures Has(next, PublicationKey(schema, x, b))
    {
      HasMembers(publications, PublicationKey(schema, x, b));
      HasMembers(next, PublicationKey(schema, x, b));
      assert r in [r];
    }
  }

  // ---- agreement over every run ----------------------------------------------------------

  lemma {:induction false} StartFacts(c: Command)
    requires c.Start? && Reduce(None, c).Some?
    ensures Reduce(None, c).value.ledger == map[] && Reduce(None, c).value.inputEvidence == c.evidence
  {
  }

  /** Staging never collides: a prepared transition of a placed owner is always confirmed. */
  lemma {:induction false} StagingNeverCollides<V>(schema: Schema, live: Live<V>, e: Event<V>)
    requires Agrees(schema, live)
    requires PrepareTransition(schema, e.at, Previous(live, e.at), e.command, e.result, e.input).Some?
    requires PrepareTransition(schema, e.at, Previous(live, e.at), e.command, e.result, e.input).value.candidate.run
          == e.at.run
    ensures Confirm(schema, live, e).Some?
  {
    var t := PrepareTransition(schema, e.at, Previous(live, e.at), e.command, e.result, e.input).value;
    if e.command.Start? {
      var _ := StartedInputs(schema, live.states, live.frames.inputs, e.at, t.candidate, e.input.value);
      assert InsertAll(live.frames.publications, []) == Some(live.frames.publications);
    } else {
      assert InsertAll(live.frames.inputs, []) == Some(live.frames.inputs);
      if t.publications != [] {
        LedgerIsAppendOnly(live.states[e.at], e.command);
        var _ := SettledPublications(schema, live.states, live.frames.publications, e.at, t.candidate,
                                     e.result.value.activation, e.result.value.output);
      }
    }
  }

  lemma {:induction false} StartAgrees<V>(schema: Schema, live: Live<V>, e: Event<V>)
    requires Agrees(schema, live) && Confirm(schema, live, e).Some? && e.command.Start?
    ensures Agrees(schema, Confirm(schema, live, e).value)
  {
    var s := Confirm(schema, live, e).value.states[e.at];
    StartFacts(e.command);
    var _ := StartedInputs(schema, live.states, live.frames.inputs, e.at, s, e.input.value);
    KeptPublications(schema, live.states, live.frames.publications, e.at, s);
  }

  lemma {:induction false} SettleAgrees<V>(schema: Schema, live: Live<V>, e: Event<V>)
    requires Agrees(schema, live) && Confirm(schema, live, e).Some? && SettlesSuccessfully(e.command)
    requires e.result.value.TaskSuccess?
    ensures Agrees(schema, Confirm(schema, live, e).value)
  {
    var s := Confirm(schema, live, e).value.states[e.at];
    LedgerIsAppendOnly(live.states[e.at], e.command);
    KeptInputs(schema, live.states, live.frames.inputs, e.at, s);
    var _ := SettledPublications(schema, live.states, live.frames.publications, e.at, s,
                                 e.result.value.activation, e.result.value.output);
  }

  lemma {:induction false} QuietAgrees<V>(schema: Schema, live: Live<V>, e: Event<V>)
    requires Agrees(schema, live) && Confirm(schema, live, e).Some? && !e.command.Start?
    requires !SettlesSuccessfully(e.command)
    ensures Agrees(schema, Confirm(schema, live, e).value)
  {
    var s := Confirm(schema, live, e).value.states[e.at];
    LedgerIsAppendOnly(live.states[e.at], e.command);
    KeptInputs(schema, live.states, live.frames.inputs, e.at, s);
    KeptPublications(schema, live.states, live.frames.publications, e.at, s);
  }

  lemma {:induction false} UnpublishedDisagrees<V>(schema: Schema, live: Live<V>, e: Event<V>)
    requires Agrees(schema, live) && Confirm(schema, live, e).Some? && SettlesSuccessfully(e.command)
    requires !e.result.value.TaskSuccess?
    ensures !Agrees(schema, Confirm(schema, live, e).value)
  {
    var t := UnsuccessfulWritesNothing(schema, live, e);
    var next, a := Confirm(schema, live, e).value, CurrentActivation(live.states[e.at], e.command.outcome.node);
    LedgerIsAppendOnly(live.states[e.at], e.command);
    UnsettledIsUnpublished(schema, live.states, live.frames.publications, e.at, a);
    assert e.at in next.states && a in next.states[e.at].ledger;
  }

  lemma {:induction false} UnsuccessfulWritesNothing<V>(schema: Schema, live: Live<V>, e: Event<V>) returns (t: State)
    requires Confirm(schema, live, e).Some? && SettlesSuccessfully(e.command) && !e.result.value.TaskSuccess?
    ensures e.at in live.states && Reduce(Some(live.states[e.at]), e.command) == Some(t)
    ensures Confirm(schema, live, e).value.states == live.states[e.at := t]
    ensures Confirm(schema, live, e).value.frames.publications == live.frames.publications
  {
    t := Confirm(schema, live, e).value.states[e.at];
  }

  lemma {:induction false} UnsettledIsUnpublished<V>(schema: Schema, states: map<ScopeRun, State>,
                                                     publications: seq<Record<Publication<V>>>, at: ScopeRun,
                                                     a: Activation)
    requires RecordsAgree(schema, states, publications) && at in states && a !in states[at].ledger && a.run == at.run
    ensures !Has(publications, PublicationKey(schema, at, a))
  {
    forall r | r in publications
      ensures r.coordinate != PublicationKey(schema, at, a)
    {
      assert PublicationAgrees(schema, states, r);
    }
    HasMembers(publications, PublicationKey(schema, at, a));
  }

  /** Every confirmed transition keeps the agreement of ledger and index exactly when its result
      matches its outcome. */
  lemma {:induction false} AgreementKeptIffMatched<V>(schema: Schema, live: Live<V>, e: Event<V>)
    requires Agrees(schema, live) && Confirm(schema, live, e).Some?
    ensures Agrees(schema, Confirm(schema, live, e).value) <==> Matched(e.command, e.result)
  {
    if e.command.Start? {
      StartAgrees(schema, live, e);
    } else if !SettlesSuccessfully(e.command) {
      QuietAgrees(schema, live, e);
    } else if e.result.value.TaskSuccess? {
      SettleAgrees(schema, live, e);
    } else {
      UnpublishedDisagrees(schema, live, e);
    }
  }

  // ---- what the driver transitions -------------------------------------------------------

  /** How the work of one task ended. */
  datatype Report<+V> = Succeeded(route: Option<Text>, output: V) | Failed(failure: Text) | Asked(payload: Text)

  /** `settle_result`: the settlement of one task, projected from its report and the state the execution
      session has acknowledged. */
  function SettleResult<V>(seen: State, task: Activation, report: Report<V>): (c: Option<Command>) {
    if seen.lease.None? || task.run != seen.run || task.superstep != seen.superstep
       || !IsPending(seen.frontier, task.node) then None
    else
      var token := seen.lease.value;
      match report
      case Succeeded(route, _) => Some(Settle(seen.revision, token, SucceededOutcome(task.node, route), None))
      case Failed(failure) => Some(Settle(seen.revision, token, FailedOutcome(task.node, failure), None))
      case Asked(payload) =>
        if !seen.codec then None
        else
          var id := InterruptIdentity(seen.run, seen.superstep, task.node, token.generation);
          Some(Settle(seen.revision, token, InterruptedOutcome(task.node, id, payload), None))
  }

  /** What a report makes of its node. */
  function ReportedNode<V>(seen: State, task: Activation, report: Report<V>): (n: FrontierNode)
    requires seen.lease.Some?
  {
    match report
    case Succeeded(route, _) => FrontierNode(task.node, Settlement.Succeeded(route))
    case Failed(failure) => FrontierNode(task.node, FailedNode(failure))
    case Asked(payload) =>
      var id := InterruptIdentity(seen.run, seen.superstep, task.node, seen.lease.value.generation);
      FrontierNode(task.node, Interrupted(id, payload))
  }

  /** Every report of a pending task of the current superstep is projected, a question only where answers can be
      decoded; its settlement is always accepted, and settles the node as what was reported and no other. */
  lemma {:induction false} ReportIsSettled<V>(seen: State, task: Activation, report: Report<V>)
    requires Valid(seen)
    ensures SettleResult(seen, task, report).Some?
       <==> && seen.lease.Some? && task == CurrentActivation(seen, task.node) && IsPending(seen.frontier, task.node)
            && (report.Asked? ==> seen.codec)
    ensures SettleResult(seen, task, report).Some? ==>
              var t := Reduce(Some(seen), SettleResult(seen, task, report).value);
              && t.Some? && |t.value.frontier| == |seen.frontier|
              && (forall i :: 0 <= i < |seen.frontier| ==>
                                t.value.frontier[i] == if seen.frontier[i].node == task.node
                                then ReportedNode(seen, task, report) else seen.frontier[i])
  {
    if SettleResult(seen, task, report).Some? {
      var c := SettleResult(seen, task, report).value;
      SettlementAcceptedIff(seen, c.expected, c.token, c.outcome, c.evidence);
      SettlementMeaning(seen, c);
    }
  }

  function ResultOf<V>(task: Activation, report: Report<V>): (r: TaskResult<V>) {
    if report.Succeeded? then TaskSuccess(task, report.output) else TaskUnsuccessful(task)
  }

  /** What an owner transitions: a command of its own, or the settlement of a task that ended. */
  datatype Move<+V> =
    | Issue(at: ScopeRun, command: Command, input: Option<V>)
    | Finish(at: ScopeRun, seen: State, task: Activation, report: Report<V>)

  function EventOf<V>(m: Move<V>): (e: Option<Event<V>>) {
    match m
    case Issue(at, command, input) => if command.Settle? then None else Some(Event(at, command, None, input))
    case Finish(at, seen, task, report) =>
      match SettleResult(seen, task, report)
      case None => None
      case Some(command) => Some(Event(at, command, Some(ResultOf(task, report)), None))
  }

  function Drive<V>(schema: Schema, moves: seq<Move<V>>): (r: Option<Live<V>>) {
    if moves == [] then Some(NewFamily())
    else
      var n := |moves| - 1;
      var before, e := Drive(schema, moves[..n]), EventOf(moves[n]);
      if before.None? || e.None? then None else Confirm(schema, before.value, e.value)
  }

  lemma {:induction false} EventMatches<V>(m: Move<V>)
    requires EventOf(m).Some?
    ensures Matched(EventOf(m).value.command, EventOf(m).value.result)
  {
  }

  lemma {:induction false} DriveAgrees<V>(schema: Schema, moves: seq<Move<V>>)
    requires Drive(schema, moves).Some?
    ensures Agrees(schema, Drive(schema, moves).value)
  {
    if moves != [] {
      var n := |moves| - 1;
      DriveAgrees(schema, moves[..n]);
      EventMatches(moves[n]);
      AgreementKeptIffMatched(schema, Drive(schema, moves[..n]).value, EventOf(moves[n]).value);
    }
  }

  /** Over everything the driver transitions, ledger and index agree: after every sequence of confirmed moves
      the publications are exactly the settlement ledgers, and the validation of the index accepts it. */
  lemma {:induction false} LedgerIndexAgreement<V>(schema: Schema, moves: seq<Move<V>>)
    requires Drive(schema, moves).Some?
    ensures Agrees(schema, Drive(schema, moves).value)
    ensures ContextValidates(schema, Drive(schema, moves).value)
  {
    DriveAgrees(schema, moves);
    ValidationIsExact(schema, Drive(schema, moves).value);
  }

  // ---- later validation ------------------------------------------------------------------

  /** The checks `_validate_publication_records` makes of one publication. */
  predicate PublicationValidates<V>(schema: Schema, states: map<ScopeRun, State>, r: Record<Publication<V>>) {
    && r.coordinate.PublicationAt?
    && var at := r.coordinate.activation.at;
    var a := OwnActivation(r.coordinate);
    && at in states
    && r.coordinate.descriptor == schema.output(at.scope, a.node)
    && a.superstep <= states[at].superstep
    && r.value.revision >= 1
    && a in states[at].ledger
    && states[at].ledger[a].revision == r.value.revision
    && states[at].ledger[a].token == r.value.token
  }

  predicate InputValidates<V>(schema: Schema, states: map<ScopeRun, State>, r: Record<V>) {
    && r.coordinate.GraphInputAt?
    && r.coordinate.at in states
    && r.coordinate.descriptor == schema.input(r.coordinate.at.scope)
  }

  predicate InputsValidate<V>(schema: Schema, states: map<ScopeRun, State>, inputs: seq<Record<V>>) {
    && Pairwise(CoordinateLess, Keys(inputs))
    && (forall i :: 0 <= i < |inputs| ==> InputValidates(schema, states, inputs[i]))
    && (forall at :: at in states ==> Supplied(inputs, at))
  }

  predicate Supplied<V>(inputs: seq<Record<V>>, at: ScopeRun) {
    exists i :: 0 <= i < |inputs| && Place(inputs[i].coordinate).at == at
  }

  predicate Published<V>(publications: seq<Record<Publication<V>>>, a: StableActivation) {
    exists i :: 0 <= i < |publications| && Place(publications[i].coordinate) == a
  }

  predicate PublicationsValidate<V>(schema: Schema, states: map<ScopeRun, State>,
                                    publications: seq<Record<Publication<V>>>) {
    && Pairwise(CoordinateLess, Keys(publications))
    && RecordsValid(schema, states, publications)
    && SettlementsPublished(states, publications)
  }

  predicate SettlementsPublished<V>(states: map<ScopeRun, State>, publications: seq<Record<Publication<V>>>) {
    forall at :: at in states ==> forall a :: a in states[at].ledger ==> Published(publications, Stable(at, a))
  }

  predicate RecordsValid<V>(schema: Schema, states: map<ScopeRun, State>, publications: seq<Record<Publication<V>>>) {
    forall i :: 0 <= i < |publications| ==> PublicationValidates(schema, states, publications[i])
  }

  /** The frame-index validation and the completeness check of a continuation, as far as graph
      inputs, publications and ledgers go. */
  predicate ContextValidates<V>(schema: Schema, live: Live<V>) {
    && InputsValidate(schema, live.states, live.frames.inputs)
    && PublicationsValidate(schema, live.states, live.frames.publications)
  }

  lemma {:induction false} PublicationValidation<V>(schema: Schema, states: map<ScopeRun, State>,
                                                    r: Record<Publication<V>>)
    requires StatesPlaced(states)
    ensures PublicationAgrees(schema, states, r) <==> PublicationValidates(schema, states, r)
  {
    if PublicationAgrees(schema, states, r) {
      var at := r.coordinate.activation.at;
      assert Valid(states[at]);
    }
  }

  lemma {:induction false} SuppliedKey<V>(schema: Schema, states: map<ScopeRun, State>, inputs: seq<Record<V>>,
                                          at: ScopeRun)
    requires forall i :: 0 <= i < |inputs| ==> InputValidates(schema, states, inputs[i])
    ensures Supplied(inputs, at) <==> Has(inputs, InputKey(schema, at))
  {
    if i :| 0 <= i < |inputs| && Place(inputs[i].coordinate).at == at {
      assert InputValidates(schema, states, inputs[i]);
      assert inputs[i].coordinate == InputKey(schema, at);
    }
    if i :| 0 <= i < |inputs| && inputs[i].coordinate == InputKey(schema, at) {
      assert Place(inputs[i].coordinate).at == at;
    }
  }

  lemma {:induction false} InputsValidation<V>(schema: Schema, states: map<ScopeRun, State>, inputs: seq<Record<V>>)
    ensures InputsValidate(schema, states, inputs) <==> InputsAgree(schema, states, inputs)
  {
    CoordinateOrder();
    PairwiseIsAscending(CoordinateLess, Keys(inputs));
    InputRecordsValidate(schema, states, inputs);
    if forall i :: 0 <= i < |inputs| ==> InputValidates(schema, states, inputs[i]) {
      forall at
        ensures Supplied(inputs, at) <==> Has(inputs, InputKey(schema, at))
      {
        SuppliedKey(schema, states, inputs, at);
      }
    }
  }

  lemma {:induction false} InputRecordsValidate<V>(schema: Schema, states: map<ScopeRun, State>, inputs: seq<Record<V>>)
    ensures (forall i :: 0 <= i < |inputs| ==> InputValidates(schema, states, inputs[i]))
       <==> (forall r :: r in inputs ==>
                           r.coordinate.GraphInputAt? && r.coordinate.at in states
                           && r.coordinate == InputKey(schema, r.coordinate.at))
  {
  }

  lemma {:induction false} PublishedKey<V>(schema: Schema, states: map<ScopeRun, State>,
                                           publications: seq<Record<Publication<V>>>, at: ScopeRun, a: Activation)
    requires forall i :: 0 <= i < |publications| ==> PublicationValidates(schema, states, publications[i])
    ensures Published(publications, Stable(at, a)) <==> Has(publications, PublicationKey(schema, at, a))
  {
    if i :| 0 <= i < |publications| && Place(publications[i].coordinate) == Stable(at, a) {
      assert PublicationValidates(schema, states, publications[i]);
      assert publications[i].coordinate == PublicationKey(schema, at, a);
    }
    if i :| 0 <= i < |publications| && publications[i].coordinate == PublicationKey(schema, at, a) {
      assert Place(publications[i].coordinate) == Stable(at, a);
    }
  }

  lemma {:induction false} PublicationsValidation<V>(schema: Schema, states: map<ScopeRun, State>,
                                                     publications: seq<Record<Publication<V>>>)
    requires StatesPlaced(states)
    ensures PublicationsValidate(schema, states, publications) <==> PublicationsAgree(schema, states, publications)
  {
    CoordinateOrder();
    PairwiseIsAscending(CoordinateLess, Keys(publications));
    RecordsValidate(schema, states, publications);
    if RecordsValid(schema, states, publications) {
      SettlementsAreCovered(schema, states, publications);
    }
  }

  lemma {:induction false} SettlementsAreCovered<V>(schema: Schema, states: map<ScopeRun, State>,
                                                    publications: seq<Record<Publication<V>>>)
    requires RecordsValid(schema, states, publications)
    ensures SettlementsPublished(states, publications) <==> LedgersCovered(schema, states, publications)
  {
    forall at, a
      ensures Published(publications, Stable(at, a)) <==> Has(publications, PublicationKey(schema, at, a))
    {
      PublishedKey(schema, states, publications, at, a);
    }
  }

  lemma {:induction false} RecordsValidate<V>(schema: Schema, states: map<ScopeRun, State>,
                                              publications: seq<Record<Publication<V>>>)
    requires StatesPlaced(states)
    ensures RecordsValid(schema, states, publications) <==> RecordsAgree(schema, states, publications)
  {
    forall i | 0 <= i < |publications|
      ensures PublicationAgrees(schema, states, publications[i])
         <==> PublicationValidates(schema, states, publications[i])
    {
      PublicationValidation(schema, states, publications[i]);
    }
  }

  /** Validation accepts exactly the indexes that agree with their ledgers, so it never rejects one
      the owners built. */
  lemma {:induction false} ValidationIsExact<V>(schema: Schema, live: Live<V>)
    requires StatesPlaced(live.states)
    ensures ContextValidates(schema, live) <==> Agrees(schema, live)
  {
    InputsValidation(schema, live.states, live.frames.inputs);
    PublicationsValidation(schema, live.states, live.frames.publications);
  }

  // ---- a successful outcome without its value --------------------------------------------

  /** The events of one run that settles its only node successfully although its work failed. */
  function UnpublishedRun<V>(run: Text, node: Text, input: V): (events: seq<Event<V>>) {
    var at := RootScopeRun(run);
    [Event(at, Start(run, [node], None, false, None), None, Some(input)),
     Event(at, Claim(0, []), None, None),
     Event(at, Settle(1, Token(1, []), SucceededOutcome(node, None), None),
           Some(TaskUnsuccessful(Activation(run, 0, node))), None)]
  }

  /** A running graph of one pending node. */
  function OneNode(run: Text, node: Text, sequence: nat, lease: Option<Token>, revision: nat): (s: State) {
    State(run, Running, 0, [FrontierNode(node, Pending(None))], sequence, false, None, map[], lease, None, None,
          revision, None)
  }

  lemma {:induction false} UnpublishedStart<V>(schema: Schema, run: Text, node: Text, input: V) returns (live: Live<V>)
    ensures Run(schema, UnpublishedRun(run, node, input)[..1]) == Some(live)
    ensures live.states == map[RootScopeRun(run) := OneNode(run, node, 0, None, 0)]
    ensures Agrees(schema, live)
  {
    var events := UnpublishedRun(run, node, input);
    var e := events[0];
    StartIsValid(e.command);
    var s := StartRun(e.command).value;
    assert s.frontier == [FrontierNode(node, Pending(None))];
    assert Reduce(None, e.command) == Some(s);
    assert Run(schema, []) == Some(NewFamily<V>());
    assert Agrees(schema, NewFamily<V>());
    PreparedIsAdmitted(schema, e.at, None, e.command, e.result, e.input);
    StagingNeverCollides(schema, NewFamily(), e);
    live := Confirm(schema, NewFamily(), e).value;
    AgreementKeptIffMatched(schema, NewFamily(), e);
    assert events[..1] == [e] && events[..1][..0] == [];
  }

  /** The transition function leads from one state to the other. */
  ghost predicate Goes(s: State, c: Command, t: State) {
    forall z: Seal :: z.Broken() ==> GraphState.Transition(s, c) == Some(t)
  }

  lemma {:induction false} UnsuccessfulIsPrepared<V>(schema: Schema, e: Event<V>, s: State, t: State)
    requires Reduce(Some(s), e.command) == Some(t) && e.input.None?
    requires e.command.Settle? <==> e.result.Some?
    requires e.command.Settle? ==> e.result == Some(TaskUnsuccessful(CurrentActivation(t, e.command.outcome.node)))
    ensures PrepareTransition(schema, e.at, Some(s), e.command, e.result, e.input).Some?
    ensures PrepareTransition(schema, e.at, Some(s), e.command, e.result, e.input).value.candidate == t
  {
    PreparedIsAdmitted(schema, e.at, Some(s), e.command, e.result, e.input);
  }

  lemma {:induction false} TransitionConfirms<V>(schema: Schema, before: Live<V>, e: Event<V>, t: State)
    requires Agrees(schema, before) && e.at in before.states && e.input.None? && !e.command.Complete?
    requires Goes(before.states[e.at], e.command, t) && t.run == e.at.run
    requires e.command.Settle? <==> e.result.Some?
    requires e.command.Settle? ==> e.result == Some(TaskUnsuccessful(CurrentActivation(t, e.command.outcome.node)))
    ensures Confirm(schema, before, e).Some? && Confirm(schema, before, e).value.states == before.states[e.at := t]
  {
    assert Seal.Seal.Broken();
    var s := before.states[e.at];
    assert Valid(s);
    ValidationRejectsOnlyConflictingCompletion(s, e.command);
    UnsuccessfulIsPrepared(schema, e, s, t);
    StagingNeverCollides(schema, before, e);
  }

  lemma {:induction false} FirstClaim(run: Text, node: Text)
    ensures Goes(OneNode(run, node, 0, None, 0), Claim(0, []), OneNode(run, node, 1, Some(Token(1, [])), 1))
  {
    assert OneNode(run, node, 0, None, 0).frontier[0].settlement.Pending?;
  }

  lemma {:induction false} FirstSettlement(run: Text, node: Text) returns (t: State)
    ensures Goes(OneNode(run, node, 1, Some(Token(1, [])), 1),
                 Settle(1, Token(1, []), SucceededOutcome(node, None), None), t)
    ensures t.run == run && t.superstep == 0
  {
    var s := OneNode(run, node, 1, Some(Token(1, [])), 1);
    assert s.frontier[0].node == node && s.frontier[0].settlement.Pending?;
    t := GraphState.Transition(s, Settle(1, Token(1, []), SucceededOutcome(node, None), None)).value;
  }

  lemma {:induction false} UnpublishedClaim<V>(schema: Schema, run: Text, node: Text, input: V) returns (live: Live<V>)
    ensures Run(schema, UnpublishedRun(run, node, input)[..2]) == Some(live)
    ensures live.states == map[RootScopeRun(run) := OneNode(run, node, 1, Some(Token(1, [])), 1)]
    ensures Agrees(schema, live)
  {
    var events := UnpublishedRun(run, node, input);
    var before := UnpublishedStart(schema, run, node, input);
    FirstClaim(run, node);
    live := ConfirmedNext(schema, events, 1, before, OneNode(run, node, 1, Some(Token(1, [])), 1));
  }

  /** The next event of a list is confirmed, and agreement is kept exactly if it matches. */
  lemma {:induction false} ConfirmedNext<V>(schema: Schema, events: seq<Event<V>>, n: nat, before: Live<V>, t: State)
    returns (live: Live<V>)
    requires n < |events| && Run(schema, events[..n]) == Some(before) && Agrees(schema, before)
    requires var e := events[n];
             && e.at in before.states && e.input.None? && !e.command.Complete?
             && Goes(before.states[e.at], e.command, t) && t.run == e.at.run
             && (e.command.Settle? <==> e.result.Some?)
             && (e.command.Settle? ==> e.result == Some(TaskUnsuccessful(CurrentActivation(t, e.command.outcome.node))))
    ensures Run(schema, events[..n + 1]) == Some(live) && live.states == before.states[events[n].at := t]
    ensures Agrees(schema, live) <==> Matched(events[n].command, events[n].result)
  {
    TransitionConfirms(schema, before, events[n], t);
    AgreementKeptIffMatched(schema, before, events[n]);
    RunNext(schema, events, n, before);
    live := Confirm(schema, before, events[n]).value;
  }

  lemma {:induction false} RunNext<V>(schema: Schema, events: seq<Event<V>>, n: nat, before: Live<V>)
    requires n < |events| && Run(schema, events[..n]) == Some(before)
    ensures Run(schema, events[..n + 1]) == Confirm(schema, before, events[n])
  {
    assert events[..n + 1][..n] == events[..n];
  }

  /** Without matching results the agreement fails: a run can settle its node successfully with an
      unsuccessful result, and its ledger then names a publication that no frame holds. */
  lemma {:induction false} UnpublishedSettlement<V>(schema: Schema, run: Text, node: Text, input: V)
    ensures Run(schema, UnpublishedRun(run, node, input)).Some?
    ensures !Agrees(schema, Run(schema, UnpublishedRun(run, node, input)).value)
  {
    var events := UnpublishedRun(run, node, input);
    var before := UnpublishedClaim(schema, run, node, input);
    var t := FirstSettlement(run, node);
    var live := ConfirmedNext(schema, events, 2, before, t);
    assert events[..3] == events;
  }
}
