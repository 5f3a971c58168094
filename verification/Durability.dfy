/** Every run of durable commits: no check of the durable path fires, and the stored values stay the
    exact image of the frames in memory. */
module Durability {
  import opened Sorted
  import opened FrameIndex
  import opened GraphState
  import opened ScopedFrames
  import opened GraphCommit
  import opened Recovery

  // ---- binding evidence refines the candidate --------------------------------------------

  lemma {:induction false} StartWithEvidence(c: Command, ev: Option<Digest>)
    requires c.Start? && Reduce(None, c).Some?
    ensures Reduce(None, WithEvidence(c, ev)) == Some(Reduce(None, c).value.(inputEvidence := ev))
    ensures Reduce(None, c).value.revision == 0 && Reduce(None, c).value.inputEvidence == c.evidence
    ensures Reduce(None, c).value.ledger == map[]
  {
    StartIsValid(c);
    StartIsValid(WithEvidence(c, ev));
  }

  lemma {:induction false} SettleTransitionWith(s: State, c: Command, ev: Option<Digest>)
    requires SettlesSuccessfully(c) && GraphState.Transition(s, c).Some?
    ensures var t, a := GraphState.Transition(s, c).value, CurrentActivation(s, c.outcome.node);
            GraphState.Transition(s, WithEvidence(c, ev))
            == Some(t.(ledger := s.ledger[a := LedgerRecord(c.outcome.route, t.revision, c.token, ev)]))
  {
  }

  lemma {:induction false} SettleWithEvidence(s: State, c: Command, ev: Option<Digest>)
    requires SettlesSuccessfully(c) && Reduce(Some(s), c).Some?
    ensures var t, a := Reduce(Some(s), c).value, CurrentActivation(s, c.outcome.node);
            Reduce(Some(s), WithEvidence(c, ev))
            == Some(t.(ledger := s.ledger[a := LedgerRecord(c.outcome.route, t.revision, c.token, ev)]))
  {
    SettleTransitionWith(s, c, ev);
    ValidationRejectsOnlyConflictingCompletion(s, c);
    ValidationRejectsOnlyConflictingCompletion(s, WithEvidence(c, ev));
  }

  // ---- the invariant of a durable family -------------------------------------------------

  ghost predicate InputStored<V>(env: Env<V>, states: map<ScopeRun, State>, r: Record<V>, q: Record<StoredInput>) {
    && q.coordinate == r.coordinate && InputAdmitted(env, q)
    && EncodeFrame(env.codec, r.value) == Some(q.value.frame)
    && r.coordinate.at in states && states[r.coordinate.at].inputEvidence == Some(q.value.evidence)
  }

  ghost predicate PublicationStored<V>(env: Env<V>, states: map<ScopeRun, State>, r: Record<Publication<V>>,
                                       q: Record<StoredPublication>) {
    && q.coordinate == r.coordinate && PublicationAdmitted(env, q)
    && EncodeFrame(env.codec, r.value.frame) == Some(q.value.frame)
    && r.value.revision == q.value.revision && r.value.token == q.value.token
    && r.coordinate.activation.at in states && PublicationBound(states[r.coordinate.activation.at], q)
  }

  ghost predicate InputsStored<V>(env: Env<V>, states: map<ScopeRun, State>, rs: seq<Record<V>>,
                                  qs: seq<Record<StoredInput>>) {
    |rs| == |qs| && forall i :: 0 <= i < |rs| ==> InputStored(env, states, rs[i], qs[i])
  }

  ghost predicate PublicationsStored<V>(env: Env<V>, states: map<ScopeRun, State>, rs: seq<Record<Publication<V>>>,
                                        qs: seq<Record<StoredPublication>>) {
    |rs| == |qs| && forall i :: 0 <= i < |rs| ==> PublicationStored(env, states, rs[i], qs[i])
  }

  ghost predicate DurableStates(states: map<ScopeRun, State>) {
    forall at :: at in states ==> DurableState(states[at])
  }

  /** Memory and store agree: same head states, and stored values that are, position by position, the
      encodings of the frames in memory, bound to the evidence the states carry. */
  ghost predicate InStep<V>(env: Env<V>, schema: Schema, d: Durable<V>) {
    && Agrees(schema, d.live)
    && d.store.heads == d.live.states
    && DurableStates(d.live.states)
    && InputsStored(env, d.live.states, d.live.frames.inputs, d.store.inputs)
    && PublicationsStored(env, d.live.states, d.live.frames.publications, d.store.publications)
  }

  // ---- inserting the same coordinate twice -----------------------------------------------

  /** Two segments with the same coordinates accept a new coordinate together and at the same place. */
  lemma {:induction false} InsertAligned<A, B>(a: seq<Record<A>>, b: seq<Record<B>>, x: Record<A>, y: Record<B>)
    returns (p: nat)
    requires Keys(a) == Keys(b) && x.coordinate == y.coordinate
    ensures InsertAll(a, [x]).Some? <==> InsertAll(b, [y]).Some?
    ensures p <= |a| == |b|
    ensures InsertAll(a, [x]).Some? ==>
              InsertAll(a, [x]).value == a[..p] + [x] + a[p..] && InsertAll(b, [y]).value == b[..p] + [y] + b[p..]
  {
    assert |Keys(a)| == |a| && |Keys(b)| == |b|;
    p := Bisect(CoordinateLess, Keys(a), x.coordinate, 0, |a|);
    assert forall i :: 0 <= i < |a| ==> a[i].coordinate == Keys(a)[i] && b[i].coordinate == Keys(b)[i];
    assert Has(a, x.coordinate) <==> Has(b, y.coordinate);
    assert [x][1..] == [] && [y][1..] == [];
  }

  lemma {:induction false} StoredInputKeys<V>(env: Env<V>, states: map<ScopeRun, State>, rs: seq<Record<V>>,
                                              qs: seq<Record<StoredInput>>)
    requires InputsStored(env, states, rs, qs)
    ensures Keys(rs) == Keys(qs)
  {
  }

  lemma {:induction false} StoredPublicationKeys<V>(env: Env<V>, states: map<ScopeRun, State>,
                                                    rs: seq<Record<Publication<V>>>, qs: seq<Record<StoredPublication>>)
    requires PublicationsStored(env, states, rs, qs)
    ensures Keys(rs) == Keys(qs)
  {
  }

  /** What a step may do to the states without disturbing what is already stored. */
  ghost predicate Extends(before: map<ScopeRun, State>, after: map<ScopeRun, State>) {
    forall at :: at in before ==>
                   && at in after && after[at].inputEvidence == before[at].inputEvidence
                   && forall a :: a in before[at].ledger ==>
                                    a in after[at].ledger && after[at].ledger[a] == before[at].ledger[a]
  }

  lemma {:induction false} StoredStays<V>(env: Env<V>, before: map<ScopeRun, State>, after: map<ScopeRun, State>,
                                          d: Durable<V>)
    requires Extends(before, after)
    requires InputsStored(env, before, d.live.frames.inputs, d.store.inputs)
    requires PublicationsStored(env, before, d.live.frames.publications, d.store.publications)
    ensures InputsStored(env, after, d.live.frames.inputs, d.store.inputs)
    ensures PublicationsStored(env, after, d.live.frames.publications, d.store.publications)
  {
    forall i | 0 <= i < |d.live.frames.publications|
      ensures PublicationStored(env, after, d.live.frames.publications[i], d.store.publications[i])
    {
      assert PublicationStored(env, before, d.live.frames.publications[i], d.store.publications[i]);
    }
    forall i | 0 <= i < |d.live.frames.inputs|
      ensures InputStored(env, after, d.live.frames.inputs[i], d.store.inputs[i])
    {
      assert InputStored(env, before, d.live.frames.inputs[i], d.store.inputs[i]);
    }
  }

  lemma {:induction false} InsertedAt<T>(s: seq<T>, p: nat, x: T, i: nat)
    requires p <= |s| && i <= |s|
    ensures (s[..p] + [x] + s[p..])[i] == if i < p then s[i] else if i == p then x else s[i - 1]
  {
  }

  lemma {:induction false} InputsStoredInsert<V>(env: Env<V>, states: map<ScopeRun, State>, rs: seq<Record<V>>,
                                                 qs: seq<Record<StoredInput>>,
                                                 r: Record<V>, q: Record<StoredInput>)
    requires InputsStored(env, states, rs, qs) && InputStored(env, states, r, q) && InsertAll(rs, [r]).Some?
    ensures InsertAll(qs, [q]).Some? && InputsStored(env, states, InsertAll(rs, [r]).value, InsertAll(qs, [q]).value)
  {
    StoredInputKeys(env, states, rs, qs);
    var p := InsertAligned(rs, qs, r, q);
    var xs, ys := rs[..p] + [r] + rs[p..], qs[..p] + [q] + qs[p..];
    forall i | 0 <= i < |xs|
      ensures InputStored(env, states, xs[i], ys[i])
    {
      InsertedAt(rs, p, r, i);
      InsertedAt(qs, p, q, i);
    }
  }

  lemma {:induction false} PublicationsStoredInsert<V>(env: Env<V>, states: map<ScopeRun, State>,
                                                       rs: seq<Record<Publication<V>>>,
                                                       qs: seq<Record<StoredPublication>>,
                                                       r: Record<Publication<V>>, q: Record<StoredPublication>)
    requires PublicationsStored(env, states, rs, qs) && PublicationStored(env, states, r, q) && InsertAll(rs, [r]).Some?
    ensures InsertAll(qs, [q]).Some?
    ensures PublicationsStored(env, states, InsertAll(rs, [r]).value, InsertAll(qs, [q]).value)
  {
    StoredPublicationKeys(env, states, rs, qs);
    var p := InsertAligned(rs, qs, r, q);
    var xs, ys := rs[..p] + [r] + rs[p..], qs[..p] + [q] + qs[p..];
    forall i | 0 <= i < |xs|
      ensures PublicationStored(env, states, xs[i], ys[i])
    {
      InsertedAt(rs, p, r, i);
      InsertedAt(qs, p, q, i);
    }
  }

  // ---- one durable commit ----------------------------------------------------------------

  /** What a durable commit does, in terms of the same commit in memory: it confirms the event with the
      evidence bound into its command, and stores the captured values. */
  ghost predicate DurablyConfirmed<V>(env: Env<V>, schema: Schema, d: Durable<V>, e: Event<V>, next: Durable<V>,
                                      t: Transition<V>,
                                      bound: Transition<V>, q: Request) {
    && PrepareTransition(schema, e.at, Previous(d.live, e.at), e.command, e.result, e.input) == Some(t)
    && t.candidate.run == e.at.run
    && CaptureInputs(env, t) == Some(q.inputs) && CapturePublications(env, t) == Some(q.publications)
    && BindEvidence(t, if q.inputs == [] then None else Some(q.inputs[0].value.evidence),
                    if q.publications == [] then None else Some(q.publications[0].value.evidence)) == Some(bound)
    && q == RequestFor(t, bound.candidate, q.inputs, q.publications)
    && RequestAdmitted(env, q) && ConfirmationAdmitted(t.previous, t.command, bound.candidate)
    && ApplyWrites(d.live.frames, t) == Some(next.live.frames)
    && next.live.states == d.live.states[e.at := bound.candidate]
    && ApplyRequest(d.store, q) == Some(next.store)
  }

  lemma {:induction false} ConfirmedShape<V>(env: Env<V>, schema: Schema, d: Durable<V>, e: Event<V>)
    returns (t: Transition<V>, bound: Transition<V>, q: Request)
    requires DurableConfirm(env, schema, d, e).Some?
    ensures DurablyConfirmed(env, schema, d, e, DurableConfirm(env, schema, d, e).value, t, bound, q)
  {
    t := PrepareTransition(schema, e.at, Previous(d.live, e.at), e.command, e.result, e.input).value;
    var inputs, publications := CaptureInputs(env, t).value, CapturePublications(env, t).value;
    bound := BindEvidence(t, if inputs == [] then None else Some(inputs[0].value.evidence),
                          if publications == [] then None else Some(publications[0].value.evidence)).value;
    q := RequestFor(t, bound.candidate, inputs, publications);
  }

  /** Binding evidence changes nothing a transition writes. */
  lemma {:induction false} BoundIsPrepared<V>(schema: Schema, e: Event<V>, previous: Option<State>, t: Transition<V>,
                                              i: Option<Digest>, p: Option<Digest>)
    requires PrepareTransition(schema, e.at, previous, e.command, e.result, e.input) == Some(t)
    requires BindEvidence(t, i, p).Some?
    ensures var bound := BindEvidence(t, i, p).value;
            && PrepareTransition(schema, e.at, previous, bound.command, e.result, e.input) == Some(bound)
            && bound.candidate.run == t.candidate.run && bound.candidate.revision == t.candidate.revision
            && Matched(bound.command, e.result) == Matched(e.command, e.result)
  {
    if e.command.Start? {
      StartWithEvidence(e.command, i);
    } else if SettlesSuccessfully(e.command) {
      SettleWithEvidence(previous.value, e.command, p);
    }
  }

  /** The digests a command can carry: the one of its kind, and not another than it carries already. */
  ghost predicate Binds(c: Command, i: Option<Digest>, p: Option<Digest>) {
    if c.Start? then i.Some? && p.None? && (c.evidence.None? || c.evidence == i)
    else if SettlesSuccessfully(c) then i.None? && p.Some? && (c.evidence.None? || c.evidence == p)
    else i.None? && p.None?
  }

  /** What binding adds: the digest in the input evidence of a start, in the new ledger record of a success. */
  ghost predicate Carries<V>(t: Transition<V>, i: Option<Digest>, p: Option<Digest>, bound: Transition<V>) {
    && bound == t.(command := bound.command, candidate := bound.candidate)
    && (t.command.Start? ==> bound.candidate == t.candidate.(inputEvidence := i))
    && (SettlesSuccessfully(t.command) ==>
          var a := CurrentActivation(t.candidate, t.command.outcome.node);
          && a in t.candidate.ledger
          && bound.candidate
             == t.candidate.(ledger := t.candidate.ledger[a := t.candidate.ledger[a].(evidence := p)]))
    && (!t.command.Start? && !SettlesSuccessfully(t.command) ==> bound == t)
  }

  lemma {:induction false} StartBinds<V>(schema: Schema, e: Event<V>, t: Transition<V>, i: Option<Digest>)
    requires PrepareTransition(schema, e.at, None, e.command, e.result, e.input) == Some(t)
    requires e.command.Start? && (e.command.evidence.None? || e.command.evidence == i)
    ensures var c := WithEvidence(e.command, i);
            && Reduce(None, c) == Some(t.candidate.(inputEvidence := i))
            && TransitionAdmitted(t.(command := c, candidate := t.candidate.(inputEvidence := i)))
  {
    StartWithEvidence(e.command, i);
  }

  lemma {:induction false} SettlementBinds<V>(schema: Schema, e: Event<V>, s: State, t: Transition<V>,
                                              p: Option<Digest>)
    requires PrepareTransition(schema, e.at, Some(s), e.command, e.result, e.input) == Some(t)
    requires SettlesSuccessfully(e.command)
    ensures var c, a := WithEvidence(e.command, p), CurrentActivation(t.candidate, e.command.outcome.node);
            && a in t.candidate.ledger
            && var candidate := t.candidate.(ledger := t.candidate.ledger[a := t.candidate.ledger[a].(evidence := p)]);
            Reduce(Some(s), c) == Some(candidate) && TransitionAdmitted(t.(command := c, candidate := candidate))
  {
    SettleWithEvidence(s, e.command, p);
    LedgerIsAppendOnly(s, e.command);
    var a := CurrentActivation(s, e.command.outcome.node);
    assert t.candidate.ledger[a := t.candidate.ledger[a].(evidence := p)]
        == s.ledger[a := t.candidate.ledger[a].(evidence := p)];
  }

  lemma {:induction false} CommandBinds(c: Command, i: Option<Digest>, p: Option<Digest>)
    ensures BindCommand(c, i, p).Some? <==> Binds(c, i, p)
    ensures BindCommand(c, i, p).Some? ==>
              BindCommand(c, i, p).value == if c.Start? then WithEvidence(c, i)
              else if SettlesSuccessfully(c) then WithEvidence(c, p) else c
  {
  }

  /** Binding is refused for nothing but the digests, and puts them into the candidate and nowhere else. */
  lemma {:induction false} BindingIsExact<V>(schema: Schema, e: Event<V>, previous: Option<State>, t: Transition<V>,
                                             i: Option<Digest>, p: Option<Digest>)
    requires PrepareTransition(schema, e.at, previous, e.command, e.result, e.input) == Some(t)
    ensures BindEvidence(t, i, p).Some? <==> Binds(e.command, i, p)
    ensures BindEvidence(t, i, p).Some? ==> Carries(t, i, p, BindEvidence(t, i, p).value)
  {
    CommandBinds(e.command, i, p);
    if Binds(e.command, i, p) {
      if e.command.Start? {
        StartBinds(schema, e, t, i);
      } else if SettlesSuccessfully(e.command) {
        SettlementBinds(schema, e, previous.value, t, p);
      } else {
        assert BindEvidence(t, i, p) == Some(t);
      }
    }
  }

  lemma {:induction false} BoundConfirm<V>(env: Env<V>, schema: Schema, d: Durable<V>, e: Event<V>, next: Durable<V>,
                                           t: Transition<V>, bound: Transition<V>, q: Request)
    requires DurablyConfirmed(env, schema, d, e, next, t, bound, q)
    ensures Confirm(schema, d.live, e.(command := bound.command)) == Some(next.live)
    ensures Matched(e.command, e.result) && Matched(bound.command, e.result)
  {
    BoundIsPrepared(schema, e, Previous(d.live, e.at), t,
                    if q.inputs == [] then None else Some(q.inputs[0].value.evidence),
                    if q.publications == [] then None else Some(q.publications[0].value.evidence));
    assert ApplyWrites(d.live.frames, bound) == ApplyWrites(d.live.frames, t);
    DurableIsMatched(env, schema, d, e, next, t, bound, q);
  }

  lemma {:induction false} DurableIsMatched<V>(env: Env<V>, schema: Schema, d: Durable<V>, e: Event<V>,
                                               next: Durable<V>,
                                               t: Transition<V>, bound: Transition<V>, q: Request)
    requires DurablyConfirmed(env, schema, d, e, next, t, bound, q)
    ensures Matched(e.command, e.result)
  {
    if e.command.Settle? && !e.result.value.TaskSuccess? {
      assert t.publications == [] && q.publications == [];
    }
  }

  lemma {:induction false} StepExtends<V>(schema: Schema, live: Live<V>, e: Event<V>)
    requires Confirm(schema, live, e).Some?
    ensures Extends(live.states, Confirm(schema, live, e).value.states)
  {
    var t := ConfirmedCandidate(schema, live, e);
    if e.at in live.states {
      CandidateExtends(live.states[e.at], e.command);
    }
  }

  lemma {:induction false} CandidateExtends(s: State, c: Command)
    requires Reduce(Some(s), c).Some?
    ensures Reduce(Some(s), c).value.inputEvidence == s.inputEvidence
    ensures forall a :: a in s.ledger ==>
                          a in Reduce(Some(s), c).value.ledger && Reduce(Some(s), c).value.ledger[a] == s.ledger[a]
  {
    StepKeepsIdentity(s, c);
    LedgerIsAppendOnly(s, c);
  }

  lemma {:induction false} CapturedInput<V>(env: Env<V>, schema: Schema, d: Durable<V>, e: Event<V>, next: Durable<V>,
                                            t: Transition<V>, bound: Transition<V>, q: Request)
    requires DurablyConfirmed(env, schema, d, e, next, t, bound, q)
    ensures |t.inputs| == |q.inputs| <= 1
    ensures t.inputs != [] ==> InputStored(env, next.live.states, t.inputs[0], q.inputs[0])
  {
    if e.command.Start? {
      StartWithEvidence(e.command, None);
      BoundIsPrepared(schema, e, Previous(d.live, e.at), t, Some(q.inputs[0].value.evidence), None);
    }
  }

  lemma {:induction false} CapturedPublication<V>(env: Env<V>, schema: Schema, d: Durable<V>, e: Event<V>,
                                                  next: Durable<V>,
                                                  t: Transition<V>, bound: Transition<V>, q: Request)
    requires DurablyConfirmed(env, schema, d, e, next, t, bound, q)
    ensures |t.publications| == |q.publications| <= 1
    ensures t.publications != [] ==> PublicationStored(env, next.live.states, t.publications[0], q.publications[0])
  {
    if t.publications != [] {
      BoundIsPrepared(schema, e, Previous(d.live, e.at), t, None, Some(q.publications[0].value.evidence));
    }
  }

  /** The stored values stay the image of the frames when both gain the same records. */
  lemma {:induction false} StoredTogether<V>(env: Env<V>, states: map<ScopeRun, State>, d: Durable<V>, next: Durable<V>,
                                             t: Transition<V>, q: Request)
    requires InputsStored(env, states, d.live.frames.inputs, d.store.inputs)
    requires PublicationsStored(env, states, d.live.frames.publications, d.store.publications)
    requires |t.inputs| == |q.inputs| <= 1 && (t.inputs != [] ==> InputStored(env, states, t.inputs[0], q.inputs[0]))
    requires |t.publications| == |q.publications| <= 1
    requires t.publications != [] ==> PublicationStored(env, states, t.publications[0], q.publications[0])
    requires ApplyWrites(d.live.frames, t) == Some(next.live.frames)
    ensures ApplyRequest(d.store, q).Some?
    ensures InputsStored(env, states, next.live.frames.inputs, ApplyRequest(d.store, q).value.inputs)
    ensures PublicationsStored(env, states, next.live.frames.publications, ApplyRequest(d.store, q).value.publications)
  {
    if t.inputs != [] {
      assert t.inputs == [t.inputs[0]] && q.inputs == [q.inputs[0]];
      InputsStoredInsert(env, states, d.live.frames.inputs, d.store.inputs, t.inputs[0], q.inputs[0]);
    }
    if t.publications != [] {
      assert t.publications == [t.publications[0]] && q.publications == [q.publications[0]];
      PublicationsStoredInsert(env, states, d.live.frames.publications, d.store.publications, t.publications[0],
                               q.publications[0]);
    }
  }

  /** Every durable commit keeps memory and store in step. */
  lemma {:induction false} DurableCommitKeepsStep<V>(env: Env<V>, schema: Schema, d: Durable<V>, e: Event<V>)
    requires InStep(env, schema, d) && DurableConfirm(env, schema, d, e).Some?
    ensures InStep(env, schema, DurableConfirm(env, schema, d, e).value)
  {
    var next := DurableConfirm(env, schema, d, e).value;
    var t, bound, q := ConfirmedShape(env, schema, d, e);
    BoundConfirm(env, schema, d, e, next, t, bound, q);
    var b := e.(command := bound.command);
    AgreementKeptIffMatched(schema, d.live, b);
    StepExtends(schema, d.live, b);
    StoredStays(env, d.live.states, next.live.states, d);
    CapturedInput(env, schema, d, e, next, t, bound, q);
    CapturedPublication(env, schema, d, e, next, t, bound, q);
    StoredTogether(env, next.live.states, d, next, t, q);
    HeadsFollow(env, schema, d, e, next, t, bound, q);
  }

  lemma {:induction false} HeadsFollow<V>(env: Env<V>, schema: Schema, d: Durable<V>, e: Event<V>, next: Durable<V>,
                                          t: Transition<V>, bound: Transition<V>, q: Request)
    requires DurablyConfirmed(env, schema, d, e, next, t, bound, q)
    requires d.store.heads == d.live.states && DurableStates(d.live.states)
    ensures next.store.heads == next.live.states && DurableStates(next.live.states)
  {
    BoundIsPrepared(schema, e, Previous(d.live, e.at), t,
                    if q.inputs == [] then None else Some(q.inputs[0].value.evidence),
                    if q.publications == [] then None else Some(q.publications[0].value.evidence));
    assert ScopeRun(q.scope, q.candidate.run) == e.at;
  }

  /** Over every run of durable commits, memory and store are in step. */
  lemma {:induction false} DurableRunsAreInStep<V>(env: Env<V>, schema: Schema, events: seq<Event<V>>)
    requires DurableRun(env, schema, events).Some?
    ensures InStep(env, schema, DurableRun(env, schema, events).value)
  {
    if events != [] {
      var n := |events| - 1;
      DurableRunsAreInStep(env, schema, events[..n]);
      DurableCommitKeepsStep(env, schema, DurableRun(env, schema, events[..n]).value, events[n]);
    }
  }

  // ---- no check of the durable path fires ------------------------------------------------

  /** The values an event carries are accepted by the codec. */
  predicate Encodable<V>(env: Env<V>, e: Event<V>) {
    && (e.input.Some? ==> EncodeFrame(env.codec, e.input.value).Some?)
    && (e.result.Some? && e.result.value.TaskSuccess? ==> EncodeFrame(env.codec, e.result.value.output).Some?)
  }

  /** The owner leaves the evidence of a value-producing command to the durable path. */
  predicate Unbound(c: Command) {
    c.Start? || SettlesSuccessfully(c) ==> c.evidence.None?
  }

  lemma {:induction false} StartRequest<V>(env: Env<V>, schema: Schema, d: Durable<V>, e: Event<V>, t: Transition<V>)
    returns (bound: Transition<V>, q: Request)
    requires PrepareTransition(schema, e.at, Previous(d.live, e.at), e.command, e.result, e.input) == Some(t)
    requires t.candidate.run == e.at.run && e.command.Start? && Encodable(env, e) && Unbound(e.command)
    ensures CaptureInputs(env, t) == Some(q.inputs) && CapturePublications(env, t) == Some(q.publications)
    ensures |q.inputs| == 1 && q.publications == []
    ensures BindEvidence(t, Some(q.inputs[0].value.evidence), None) == Some(bound)
    ensures q == RequestFor(t, bound.candidate, q.inputs, q.publications)
    ensures RequestAdmitted(env, q) && ConfirmationAdmitted(t.previous, t.command, bound.candidate)
  {
    var inputs := CaptureInputs(env, t).value;
    var ev := Some(inputs[0].value.evidence);
    StartWithEvidence(e.command, ev);
    bound := BindEvidence(t, ev, None).value;
    q := RequestFor(t, bound.candidate, inputs, []);
  }

  /** A successful settlement binds its commitment into the ledger record it adds. */
  lemma {:induction false} SettleBinds<V>(schema: Schema, e: Event<V>, before: State, t: Transition<V>, ev: Digest)
    requires PrepareTransition(schema, e.at, Some(before), e.command, e.result, e.input) == Some(t)
    requires SettlesSuccessfully(e.command) && e.result.value.TaskSuccess? && Unbound(e.command)
    ensures BindEvidence(t, None, Some(ev)).Some?
    ensures var a, s := e.result.value.activation, BindEvidence(t, None, Some(ev)).value.candidate;
            && a == CurrentActivation(before, e.command.outcome.node) && a in t.candidate.ledger
            && s == t.candidate.(ledger := before.ledger[a := LedgerRecord(e.command.outcome.route,
                                                                           t.candidate.revision,
                                                                           e.command.token, Some(ev))])
            && t.candidate.ledger[a].route == e.command.outcome.route
            && t.candidate.revision == before.revision + 1 && t.candidate.inputEvidence == before.inputEvidence
            && Valid(s) && ConfirmationAdmitted(t.previous, t.command, s)
  {
    var s := SettleReduces(before, e.command, ev);
    BoundAdmitted(t, s, ev);
    SettleConfirms(before, e.command, s, ev);
  }

  lemma {:induction false} SettleReduces(before: State, c: Command, ev: Digest) returns (s: State)
    requires SettlesSuccessfully(c) && Reduce(Some(before), c).Some?
    ensures Reduce(Some(before), WithEvidence(c, Some(ev))) == Some(s)
    ensures var t, a := Reduce(Some(before), c).value, CurrentActivation(before, c.outcome.node);
            && a in t.ledger && t.ledger[a].route == c.outcome.route && t.superstep == before.superstep
            && t.run == before.run
            && t.revision == before.revision + 1 && t.inputEvidence == before.inputEvidence
            && s == t.(ledger := before.ledger[a := LedgerRecord(c.outcome.route, t.revision, c.token, Some(ev))])
  {
    LedgerIsAppendOnly(before, c);
    StepKeepsIdentity(before, c);
    SettleWithEvidence(before, c, Some(ev));
    s := Reduce(Some(before), WithEvidence(c, Some(ev))).value;
  }

  lemma {:induction false} BoundAdmitted<V>(t: Transition<V>, s: State, ev: Digest)
    requires TransitionAdmitted(t) && SettlesSuccessfully(t.command) && t.command.evidence.None?
    requires t.settlement.Some? && t.settlement.value.TaskSuccess?
    requires Reduce(t.previous, WithEvidence(t.command, Some(ev))) == Some(s)
    requires var a := CurrentActivation(t.candidate, t.command.outcome.node);
             s == t.candidate.(ledger := s.ledger) && a in s.ledger
             && s.ledger[a] == LedgerRecord(t.command.outcome.route, s.revision, t.command.token, Some(ev))
    ensures BindEvidence(t, None, Some(ev)).Some? && BindEvidence(t, None, Some(ev)).value.candidate == s
  {
  }

  lemma {:induction false} SettleConfirms(before: State, c: Command, s: State, ev: Digest)
    requires SettlesSuccessfully(c) && c.evidence.None? && Reduce(Some(before), WithEvidence(c, Some(ev))) == Some(s)
    requires s.run == before.run && s.superstep == before.superstep
    requires var a := CurrentActivation(before, c.outcome.node); a in s.ledger && s.ledger[a].evidence == Some(ev)
    ensures ConfirmationAdmitted(Some(before), c, s)
  {
  }

  lemma {:induction false} SettleRequest<V>(env: Env<V>, schema: Schema, d: Durable<V>, e: Event<V>, t: Transition<V>)
    returns (bound: Transition<V>, q: Request)
    requires PrepareTransition(schema, e.at, Previous(d.live, e.at), e.command, e.result, e.input) == Some(t)
    requires t.candidate.run == e.at.run && SettlesSuccessfully(e.command) && e.result.value.TaskSuccess?
    requires Encodable(env, e) && Unbound(e.command) && e.at in d.live.states && DurableState(d.live.states[e.at])
    ensures CaptureInputs(env, t) == Some(q.inputs) && CapturePublications(env, t) == Some(q.publications)
    ensures q.inputs == [] && |q.publications| == 1
    ensures BindEvidence(t, None, Some(q.publications[0].value.evidence)) == Some(bound)
    ensures q == RequestFor(t, bound.candidate, q.inputs, q.publications)
    ensures RequestAdmitted(env, q) && ConfirmationAdmitted(t.previous, t.command, bound.candidate)
  {
    var before := d.live.states[e.at];
    SettleBinds(schema, e, before, t, []);
    var r := SettleCaptured(env, schema, e, before, t);
    SettleBinds(schema, e, before, t, r.value.evidence);
    bound := BindEvidence(t, None, Some(r.value.evidence)).value;
    q := RequestFor(t, bound.candidate, [], [r]);
    SettleAdmitted(env, schema, e, before, t, bound.candidate, r);
  }

  /** The one value a successful settlement stores. */
  lemma {:induction false} SettleCaptured<V>(env: Env<V>, schema: Schema, e: Event<V>, before: State, t: Transition<V>)
    returns (r: Record<StoredPublication>)
    requires PrepareTransition(schema, e.at, Some(before), e.command, e.result, e.input) == Some(t)
    requires t.candidate.run == e.at.run && SettlesSuccessfully(e.command) && e.result.value.TaskSuccess?
    requires Encodable(env, e)
    requires e.result.value.activation in t.candidate.ledger
    requires t.candidate.ledger[e.result.value.activation].route == e.command.outcome.route
    requires e.result.value.activation == CurrentActivation(before, e.command.outcome.node)
    ensures t.at == e.at && t.previous == Some(before) && CaptureInputs(env, t) == Some([])
    ensures CapturePublications(env, t) == Some([r])
    ensures PublicationAdmitted(env, r) && r.coordinate.activation.at == e.at
    ensures r.value.run == t.candidate.run && r.value.revision == t.candidate.revision
    ensures r.value.token == e.command.token
    ensures r.value.activation == e.result.value.activation && r.value.route == e.command.outcome.route
  {
    r := CapturePublications(env, t).value[0];
  }

  lemma {:induction false} SettleAdmitted<V>(env: Env<V>, schema: Schema, e: Event<V>, before: State, t: Transition<V>,
                                             s: State, r: Record<StoredPublication>)
    requires t.at == e.at && t.previous == Some(before) && t.candidate.run == e.at.run && Valid(s)
    requires DurableState(before)
    requires e.command.Settle? && t.candidate.revision == before.revision + 1
    requires t.candidate.inputEvidence == before.inputEvidence
    requires PublicationAdmitted(env, r) && r.coordinate.activation.at == e.at
    requires r.value.run == t.candidate.run && r.value.revision == t.candidate.revision
    requires var born := LedgerRecord(r.value.route, r.value.revision, r.value.token, Some(r.value.evidence));
             s == t.candidate.(ledger := before.ledger[r.value.activation := born])
    ensures RequestAdmitted(env, RequestFor(t, s, [], [r]))
  {
  }

  lemma {:induction false} QuietRequest<V>(env: Env<V>, schema: Schema, d: Durable<V>, e: Event<V>, t: Transition<V>)
    returns (bound: Transition<V>, q: Request)
    requires PrepareTransition(schema, e.at, Previous(d.live, e.at), e.command, e.result, e.input) == Some(t)
    requires t.candidate.run == e.at.run && !e.command.Start? && !SettlesSuccessfully(e.command)
    requires Matched(e.command, e.result)
    requires e.at in d.live.states && DurableState(d.live.states[e.at])
    ensures CaptureInputs(env, t) == Some(q.inputs) && CapturePublications(env, t) == Some(q.publications)
    ensures q.inputs == [] && q.publications == [] && BindEvidence(t, None, None) == Some(bound)
    ensures q == RequestFor(t, bound.candidate, q.inputs, q.publications)
    ensures RequestAdmitted(env, q) && ConfirmationAdmitted(t.previous, t.command, bound.candidate)
  {
    QuietPrepared(schema, e, d.live.states[e.at], t);
    bound := t;
    q := RequestFor(t, t.candidate, [], []);
    QuietAdmitted(env, d.live.states[e.at], t);
  }

  /** A transition that neither starts a run nor settles a node successfully writes nothing and is bound as it is. */
  lemma {:induction false} QuietPrepared<V>(schema: Schema, e: Event<V>, before: State, t: Transition<V>)
    requires PrepareTransition(schema, e.at, Some(before), e.command, e.result, e.input) == Some(t)
    requires !e.command.Start? && !SettlesSuccessfully(e.command) && Matched(e.command, e.result)
    ensures t.inputs == [] && t.publications == [] && t.previous == Some(before) && t.command == e.command
    ensures BindEvidence(t, None, None) == Some(t) && Reduce(Some(before), t.command) == Some(t.candidate)
  {
  }

  lemma {:induction false} QuietAdmitted<V>(env: Env<V>, before: State, t: Transition<V>)
    requires t.previous == Some(before) && DurableState(before) && !t.command.Start? && !SettlesSuccessfully(t.command)
    requires Reduce(Some(before), t.command) == Some(t.candidate)
    ensures RequestAdmitted(env, RequestFor(t, t.candidate, [], []))
    ensures ConfirmationAdmitted(t.previous, t.command, t.candidate)
  {
    LedgerIsAppendOnly(before, t.command);
    StepKeepsIdentity(before, t.command);
  }

  /** A prepared transition with a matching, encodable result is always confirmed durably: neither the
      evidence binding, nor the request's own checks, nor the confirmation check reject it. */
  lemma {:induction false} DurablePathNeverRejects<V>(env: Env<V>, schema: Schema, d: Durable<V>, e: Event<V>,
                                                      t: Transition<V>)
    requires InStep(env, schema, d)
    requires PrepareTransition(schema, e.at, Previous(d.live, e.at), e.command, e.result, e.input) == Some(t)
    requires t.candidate.run == e.at.run && Matched(e.command, e.result) && Encodable(env, e) && Unbound(e.command)
    ensures DurableConfirm(env, schema, d, e).Some?
  {
    StagingNeverCollides(schema, d.live, e);
    if e.command.Start? {
      var bound, q := StartRequest(env, schema, d, e, t);
      StoreAccepts(env, d, t, q);
      Assembled(env, d, e.at, t, bound, q);
    } else if SettlesSuccessfully(e.command) {
      var bound, q := SettleRequest(env, schema, d, e, t);
      StoreAccepts(env, d, t, q);
      Assembled(env, d, e.at, t, bound, q);
    } else {
      var bound, q := QuietRequest(env, schema, d, e, t);
      StoreAccepts(env, d, t, q);
      Assembled(env, d, e.at, t, bound, q);
    }
  }

  lemma {:induction false} Assembled<V>(env: Env<V>, d: Durable<V>, at: ScopeRun, t: Transition<V>,
                                        bound: Transition<V>, q: Request)
    requires CaptureInputs(env, t) == Some(q.inputs) && CapturePublications(env, t) == Some(q.publications)
    requires BindEvidence(t, if q.inputs == [] then None else Some(q.inputs[0].value.evidence),
                          if q.publications == [] then None else Some(q.publications[0].value.evidence)) == Some(bound)
    requires q == RequestFor(t, bound.candidate, q.inputs, q.publications)
    requires RequestAdmitted(env, q) && ConfirmationAdmitted(t.previous, t.command, bound.candidate)
    requires ApplyWrites(d.live.frames, t).Some? && ApplyRequest(d.store, q).Some?
    ensures ConfirmPrepared(env, d, at, t).Some?
  {
  }

  lemma {:induction false} StoreAccepts<V>(env: Env<V>, d: Durable<V>, t: Transition<V>, q: Request)
    requires InputsStored(env, d.live.states, d.live.frames.inputs, d.store.inputs)
    requires PublicationsStored(env, d.live.states, d.live.frames.publications, d.store.publications)
    requires |t.inputs| <= 1 && |t.publications| <= 1
    requires CaptureInputs(env, t) == Some(q.inputs) && CapturePublications(env, t) == Some(q.publications)
    requires ApplyWrites(d.live.frames, t).Some?
    ensures ApplyRequest(d.store, q).Some?
  {
    var inputs, publications := d.live.frames.inputs, d.live.frames.publications;
    if q.inputs != [] {
      StoredInputKeys(env, d.live.states, inputs, d.store.inputs);
      assert t.inputs == [t.inputs[0]] && q.inputs == [q.inputs[0]];
      var _ := InsertAligned(inputs, d.store.inputs, t.inputs[0], q.inputs[0]);
    }
    if q.publications != [] {
      StoredPublicationKeys(env, d.live.states, publications, d.store.publications);
      assert t.publications == [t.publications[0]] && q.publications == [q.publications[0]];
      var _ := InsertAligned(publications, d.store.publications, t.publications[0], q.publications[0]);
    }
  }
}
