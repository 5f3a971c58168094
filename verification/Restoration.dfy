/** The cold start: what reading the store back yields, compared with the frames in memory. */
module Restoration {
  import opened Sorted
  import opened Identity
  import opened FrameIndex
  import opened GraphState
  import opened ScopedFrames
  import opened GraphCommit
  import opened Recovery
  import opened Durability

  // ---- restore_checkpoint ----------------------------------------------------------------

  predicate InputRestorable<V>(env: Env<V>, states: map<ScopeRun, State>, r: Record<StoredInput>) {
    && InputAdmitted(env, r)
    && r.coordinate.at in states
    && states[r.coordinate.at].inputEvidence == Some(r.value.evidence)
  }

  predicate PublicationRestorable<V>(env: Env<V>, states: map<ScopeRun, State>, r: Record<StoredPublication>) {
    && PublicationAdmitted(env, r)
    && r.coordinate.activation.at in states
    && PublicationBound(states[r.coordinate.activation.at], r)
  }

  /** What a checkpoint must satisfy to be restored. */
  predicate Restorable<V>(env: Env<V>, states: map<ScopeRun, State>, inputs: seq<Record<StoredInput>>,
                          publications: seq<Record<StoredPublication>>) {
    && Pairwise(CoordinateLess, Keys(inputs)) && Pairwise(CoordinateLess, Keys(publications))
    && (forall at :: at in states ==> DurableState(states[at]))
    && (forall i :: 0 <= i < |inputs| ==> InputRestorable(env, states, inputs[i]))
    && (forall i :: 0 <= i < |publications| ==> PublicationRestorable(env, states, publications[i]))
    && (forall i :: 0 <= i < |inputs| ==> DecodeFrame(env.codec, inputs[i].value.frame).Some?)
    && (forall i :: 0 <= i < |publications| ==> DecodeFrame(env.codec, publications[i].value.frame).Some?)
  }

  function RestoredInputs<V>(env: Env<V>, inputs: seq<Record<StoredInput>>): (rs: seq<Record<V>>)
    requires forall i :: 0 <= i < |inputs| ==> DecodeFrame(env.codec, inputs[i].value.frame).Some?
    ensures |rs| == |inputs|
    ensures forall i :: 0 <= i < |rs| ==>
                          rs[i] == Record(inputs[i].coordinate, DecodeFrame(env.codec, inputs[i].value.frame).value)
  {
    seq(|inputs|, i requires 0 <= i < |inputs| => Record(inputs[i].coordinate,
                                                         DecodeFrame(env.codec, inputs[i].value.frame).value))
  }

  function RestoredPublications<V>(env: Env<V>,
                                   publications: seq<Record<StoredPublication>>): (rs: seq<Record<Publication<V>>>)
    requires forall i :: 0 <= i < |publications| ==> DecodeFrame(env.codec, publications[i].value.frame).Some?
    ensures |rs| == |publications|
    ensures forall i :: 0 <= i < |rs| ==>
                          rs[i] == Record(publications[i].coordinate,
                                          Publication(DecodeFrame(env.codec, publications[i].value.frame).value,
                                                      publications[i].value.revision, publications[i].value.token))
  {
    seq(|publications|, i requires 0 <= i < |publications| =>
      Record(publications[i].coordinate,
             Publication(DecodeFrame(env.codec, publications[i].value.frame).value, publications[i].value.revision,
                         publications[i].value.token)))
  }

  /** A restored publication names a settlement of a bound run, with the revision and token that run records. */
  ghost predicate FollowsLedger<V>(states: map<ScopeRun, State>, r: Record<Publication<V>>) {
    && r.coordinate.PublicationAt? && r.coordinate.activation.at in states
    && var at, place := r.coordinate.activation.at, r.coordinate.activation;
    var a := Activation(at.run, place.superstep, place.node);
    && a in states[at].ledger
    && r.value.revision == states[at].ledger[a].revision && r.value.token == states[at].ledger[a].token
  }

  /** Whatever hash is used, nothing is restored that the states do not know of. */
  lemma {:induction false} RestoredFollowStates<V>(env: Env<V>, states: map<ScopeRun, State>,
                                                   inputs: seq<Record<StoredInput>>,
                                                   publications: seq<Record<StoredPublication>>)
    requires Restorable(env, states, inputs, publications)
    ensures var rs := RestoredInputs(env, inputs);
            forall i :: 0 <= i < |rs| ==> rs[i].coordinate.GraphInputAt? && rs[i].coordinate.at in states
    ensures var rs := RestoredPublications(env, publications);
            forall i :: 0 <= i < |rs| ==> FollowsLedger(states, rs[i])
  {
    forall i | 0 <= i < |inputs|
      ensures inputs[i].coordinate.GraphInputAt? && inputs[i].coordinate.at in states
    {
      assert InputRestorable(env, states, inputs[i]);
    }
    var rs := RestoredPublications(env, publications);
    forall i | 0 <= i < |rs|
      ensures FollowsLedger(states, rs[i])
    {
      assert PublicationRestorable(env, states, publications[i]);
    }
  }

  /** Adding one record after all the others of a canonical list appends it. */
  lemma {:induction false} AppendNext<V>(rs: seq<Record<V>>, i: nat)
    requires Canonical(rs) && i < |rs|
    ensures Insert(rs[..i], rs[i]) == Some(rs[..i + 1])
  {
    var front, all := rs[..i], rs[..i + 1];
    assert Keys(front) == Keys(rs)[..i] && Keys(all) == Keys(rs)[..i + 1];
    CanonicalIsDistinct(rs);
    InsertSpec(front, rs[i]);
    assert all == front + [rs[i]];
    CanonicalUnique(Insert(front, rs[i]).value, all);
  }

  /** Materialize stored values as frames, checking every record against the authoritative states. */
  method RestoreCheckpoint<V>(env: Env<V>, states: map<ScopeRun, State>, inputs: seq<Record<StoredInput>>,
                              publications: seq<Record<StoredPublication>>)
    returns (r: Option<Index<V>>)
    ensures r.Some? <==> Restorable(env, states, inputs, publications)
    ensures r.Some? ==> r.value == Index(RestoredInputs(env, inputs), RestoredPublications(env, publications), [], [])
    ensures r.Some? ==> forall i :: 0 <= i < |r.value.publications| ==> FollowsLedger(states, r.value.publications[i])
  {
    if !Pairwise(CoordinateLess, Keys(inputs)) || !Pairwise(CoordinateLess, Keys(publications)) {
      return None;
    }
    if exists at :: at in states && !DurableState(states[at]) {
      return None;
    }
    var bound := CheckEvidence(env, states, inputs, publications);
    if !bound {
      return None;
    }
    var restoredInputs := RestoreInputs(env, inputs);
    if restoredInputs.None? {
      return None;
    }
    var restoredPublications := RestorePublications(env, publications);
    if restoredPublications.None? {
      return None;
    }
    RestoredFollowStates(env, states, inputs, publications);
    return Some(Index(restoredInputs.value, restoredPublications.value, [], []));
  }

  /** Check every record against the evidence of its authoritative state. */
  method CheckEvidence<V>(env: Env<V>, states: map<ScopeRun, State>, inputs: seq<Record<StoredInput>>,
                          publications: seq<Record<StoredPublication>>)
    returns (ok: bool)
    ensures ok <==> && (forall i :: 0 <= i < |inputs| ==> InputRestorable(env, states, inputs[i]))
                    && (forall i :: 0 <= i < |publications| ==> PublicationRestorable(env, states, publications[i]))
  {
    ok := CheckInputs(env, states, inputs);
    if ok {
      ok := CheckPublications(env, states, publications);
    }
  }

  method CheckInputs<V>(env: Env<V>, states: map<ScopeRun, State>, inputs: seq<Record<StoredInput>>) returns (ok: bool)
    ensures ok <==> forall i :: 0 <= i < |inputs| ==> InputRestorable(env, states, inputs[i])
  {
    for i := 0 to |inputs|
      invariant forall j :: 0 <= j < i ==> InputRestorable(env, states, inputs[j])
    {
      if !InputRestorable(env, states, inputs[i]) {
        return false;
      }
    }
    return true;
  }

  method CheckPublications<V>(env: Env<V>, states: map<ScopeRun, State>, publications: seq<Record<StoredPublication>>)
    returns (ok: bool)
    ensures ok <==> forall i :: 0 <= i < |publications| ==> PublicationRestorable(env, states, publications[i])
  {
    for i := 0 to |publications|
      invariant forall j :: 0 <= j < i ==> PublicationRestorable(env, states, publications[j])
    {
      if !PublicationRestorable(env, states, publications[i]) {
        return false;
      }
    }
    return true;
  }

  method RestoreInputs<V>(env: Env<V>, inputs: seq<Record<StoredInput>>) returns (r: Option<seq<Record<V>>>)
    requires Pairwise(CoordinateLess, Keys(inputs))
    ensures r.Some? <==> forall i :: 0 <= i < |inputs| ==> DecodeFrame(env.codec, inputs[i].value.frame).Some?
    ensures r.Some? ==> r.value == RestoredInputs(env, inputs)
  {
    var frames: seq<Record<V>> := [];
    var i := 0;
    while i < |inputs|
      invariant 0 <= i <= |inputs|
      invariant forall j :: 0 <= j < i ==> DecodeFrame(env.codec, inputs[j].value.frame).Some?
      invariant frames == RestoredInputs(env, inputs[..i])
    {
      var value := DecodeFrame(env.codec, inputs[i].value.frame);
      if value.None? {
        return None;
      }
      InputAppends(env, inputs, i);
      frames := Insert(frames, Record(inputs[i].coordinate, value.value)).value;
      i := i + 1;
    }
    assert inputs[..|inputs|] == inputs;
    return Some(frames);
  }

  lemma {:induction false} InputAppends<V>(env: Env<V>, inputs: seq<Record<StoredInput>>, i: nat)
    requires Pairwise(CoordinateLess, Keys(inputs)) && i < |inputs|
    requires forall j :: 0 <= j <= i ==> DecodeFrame(env.codec, inputs[j].value.frame).Some?
    ensures Insert(RestoredInputs(env, inputs[..i]),
                   Record(inputs[i].coordinate, DecodeFrame(env.codec, inputs[i].value.frame).value))
         == Some(RestoredInputs(env, inputs[..i + 1]))
  {
    var rs := RestoredInputs(env, inputs[..i + 1]);
    assert Keys(rs) == Keys(inputs)[..i + 1];
    CoordinateOrder();
    PairwiseIsAscending(CoordinateLess, Keys(inputs));
    AppendNext(rs, i);
    assert rs[..i] == RestoredInputs(env, inputs[..i]) && rs[..i + 1] == rs;
  }

  method RestorePublications<V>(env: Env<V>, publications: seq<Record<StoredPublication>>)
    returns (r: Option<seq<Record<Publication<V>>>>)
    requires Pairwise(CoordinateLess, Keys(publications))
    ensures r.Some? <==> forall i :: 0 <= i < |publications| ==>
                                       DecodeFrame(env.codec, publications[i].value.frame).Some?
    ensures r.Some? ==> r.value == RestoredPublications(env, publications)
  {
    var frames: seq<Record<Publication<V>>> := [];
    var i := 0;
    while i < |publications|
      invariant 0 <= i <= |publications|
      invariant forall j :: 0 <= j < i ==> DecodeFrame(env.codec, publications[j].value.frame).Some?
      invariant frames == RestoredPublications(env, publications[..i])
    {
      var p := publications[i];
      var value := DecodeFrame(env.codec, p.value.frame);
      if value.None? {
        return None;
      }
      PublicationAppends(env, publications, i);
      frames := Insert(frames, Record(p.coordinate, Publication(value.value, p.value.revision, p.value.token))).value;
      i := i + 1;
    }
    assert publications[..|publications|] == publications;
    return Some(frames);
  }

  lemma {:induction false} PublicationAppends<V>(env: Env<V>, publications: seq<Record<StoredPublication>>, i: nat)
    requires Pairwise(CoordinateLess, Keys(publications)) && i < |publications|
    requires forall j :: 0 <= j <= i ==> DecodeFrame(env.codec, publications[j].value.frame).Some?
    ensures var p := publications[i];
            Insert(RestoredPublications(env, publications[..i]),
                   Record(p.coordinate, Publication(DecodeFrame(env.codec, p.value.frame).value, p.value.revision,
                                                    p.value.token)))
            == Some(RestoredPublications(env, publications[..i + 1]))
  {
    var rs := RestoredPublications(env, publications[..i + 1]);
    assert Keys(rs) == Keys(publications)[..i + 1];
    CoordinateOrder();
    PairwiseIsAscending(CoordinateLess, Keys(publications));
    AppendNext(rs, i);
    assert rs[..i] == RestoredPublications(env, publications[..i]) && rs[..i + 1] == rs;
  }

  // ---- cold recovery refines live execution ----------------------------------------------

  /** Every frame of the index survives the codec. */
  ghost predicate FramesSurvive<V>(codec: Codec<V>, frames: Index<V>) {
    && (forall i :: 0 <= i < |frames.inputs| ==> Survives(codec, frames.inputs[i].value))
    && (forall i :: 0 <= i < |frames.publications| ==> Survives(codec, frames.publications[i].value.frame))
  }

  lemma {:induction false} StoreIsRestorable<V(!new)>(env: Env<V>, schema: Schema, d: Durable<V>)
    requires InStep(env, schema, d)
    ensures Restorable(env, d.store.heads, d.store.inputs, d.store.publications)
  {
    CoordinateOrder();
    StoredInputKeys(env, d.live.states, d.live.frames.inputs, d.store.inputs);
    StoredPublicationKeys(env, d.live.states, d.live.frames.publications, d.store.publications);
    PairwiseIsAscending(CoordinateLess, Keys(d.store.inputs));
    PairwiseIsAscending(CoordinateLess, Keys(d.store.publications));
    forall i | 0 <= i < |d.store.inputs|
      ensures InputRestorable(env, d.store.heads, d.store.inputs[i])
      ensures DecodeFrame(env.codec, d.store.inputs[i].value.frame).Some?
    {
      assert InputStored(env, d.live.states, d.live.frames.inputs[i], d.store.inputs[i]);
      AcceptedFrameDecodes(env.codec, d.live.frames.inputs[i].value);
    }
    forall i | 0 <= i < |d.store.publications|
      ensures PublicationRestorable(env, d.store.heads, d.store.publications[i])
      ensures DecodeFrame(env.codec, d.store.publications[i].value.frame).Some?
    {
      assert PublicationStored(env, d.live.states, d.live.frames.publications[i], d.store.publications[i]);
      AcceptedFrameDecodes(env.codec, d.live.frames.publications[i].value.frame);
    }
  }

  lemma {:induction false} RestoredInputsAreLive<V(!new)>(env: Env<V>, states: map<ScopeRun, State>, rs: seq<Record<V>>,
                                                          qs: seq<Record<StoredInput>>)
    requires InputsStored(env, states, rs, qs)
    requires forall i :: 0 <= i < |qs| ==> DecodeFrame(env.codec, qs[i].value.frame).Some?
    ensures RestoredInputs(env, qs) == rs <==> forall i :: 0 <= i < |rs| ==> Survives(env.codec, rs[i].value)
  {
    var out := RestoredInputs(env, qs);
    forall i | 0 <= i < |rs|
      ensures out[i] == rs[i] <==> Survives(env.codec, rs[i].value)
    {
      assert InputStored(env, states, rs[i], qs[i]);
      AcceptedFrameDecodes(env.codec, rs[i].value);
    }
  }

  lemma {:induction false} RestoredPublicationsAreLive<V(!new)>(env: Env<V>, states: map<ScopeRun, State>,
                                                                rs: seq<Record<Publication<V>>>,
                                                                qs: seq<Record<StoredPublication>>)
    requires PublicationsStored(env, states, rs, qs)
    requires forall i :: 0 <= i < |qs| ==> DecodeFrame(env.codec, qs[i].value.frame).Some?
    ensures RestoredPublications(env, qs) == rs <==> forall i :: 0 <= i < |rs| ==>
                                                                   Survives(env.codec, rs[i].value.frame)
  {
    var out := RestoredPublications(env, qs);
    forall i | 0 <= i < |rs|
      ensures out[i] == rs[i] <==> Survives(env.codec, rs[i].value.frame)
    {
      assert PublicationStored(env, states, rs[i], qs[i]);
      AcceptedFrameDecodes(env.codec, rs[i].value.frame);
    }
  }

  /** Cold recovery refines live execution: after every run of durable commits the store is restorable,
      and the restored graph inputs and publications are those in memory exactly when the codec
      round-trips them, as a codec with distinct encodings always does. */
  lemma {:induction false} ColdRecoveryRefinesLive<V(!new)>(env: Env<V>, schema: Schema, events: seq<Event<V>>)
    requires DurableRun(env, schema, events).Some?
    ensures var d := DurableRun(env, schema, events).value;
            && Restorable(env, d.store.heads, d.store.inputs, d.store.publications)
            && (RestoredInputs(env, d.store.inputs) == d.live.frames.inputs
                && RestoredPublications(env, d.store.publications) == d.live.frames.publications
                <==> FramesSurvive(env.codec, d.live.frames))
            && (CanonicalCodec(env.codec) ==> FramesSurvive(env.codec, d.live.frames))
  {
    DurableRunsAreInStep(env, schema, events);
    StoreRefinesLive(env, schema, DurableRun(env, schema, events).value);
  }

  /** A store in step with memory restores, and to what memory holds exactly if the frames survive the codec. */
  lemma {:induction false} StoreRefinesLive<V(!new)>(env: Env<V>, schema: Schema, d: Durable<V>)
    requires InStep(env, schema, d)
    ensures Restorable(env, d.store.heads, d.store.inputs, d.store.publications)
    ensures RestoredInputs(env, d.store.inputs) == d.live.frames.inputs
            && RestoredPublications(env, d.store.publications) == d.live.frames.publications
       <==> FramesSurvive(env.codec, d.live.frames)
    ensures CanonicalCodec(env.codec) ==> FramesSurvive(env.codec, d.live.frames)
  {
    StoreIsRestorable(env, schema, d);
    RestoredInputsAreLive(env, d.live.states, d.live.frames.inputs, d.store.inputs);
    RestoredPublicationsAreLive(env, d.live.states, d.live.frames.publications, d.store.publications);
    CanonicalSurvival(env, d);
  }

  lemma {:induction false} CanonicalSurvival<V(!new)>(env: Env<V>, d: Durable<V>)
    requires InputsStored(env, d.live.states, d.live.frames.inputs, d.store.inputs)
    requires PublicationsStored(env, d.live.states, d.live.frames.publications, d.store.publications)
    ensures CanonicalCodec(env.codec) ==> FramesSurvive(env.codec, d.live.frames)
  {
    forall i | 0 <= i < |d.live.frames.inputs|
      ensures CanonicalCodec(env.codec) ==> Survives(env.codec, d.live.frames.inputs[i].value)
    {
      assert InputStored(env, d.live.states, d.live.frames.inputs[i], d.store.inputs[i]);
      AcceptedFrameDecodes(env.codec, d.live.frames.inputs[i].value);
    }
    forall i | 0 <= i < |d.live.frames.publications|
      ensures CanonicalCodec(env.codec) ==> Survives(env.codec, d.live.frames.publications[i].value.frame)
    {
      assert PublicationStored(env, d.live.states, d.live.frames.publications[i], d.store.publications[i]);
      AcceptedFrameDecodes(env.codec, d.live.frames.publications[i].value.frame);
    }
  }

  /** The restored index agrees with the ledgers, so context validation accepts it. */
  lemma {:induction false} RestoredContextValidates<V(!new)>(env: Env<V>, schema: Schema, events: seq<Event<V>>)
    requires DurableRun(env, schema, events).Some?
    ensures var d := DurableRun(env, schema, events).value;
            && Restorable(env, d.store.heads, d.store.inputs, d.store.publications)
            && ContextValidates(schema, Live(d.store.heads, Index(RestoredInputs(env, d.store.inputs),
                                                                  RestoredPublications(env, d.store.publications), [],
                                                                  [])))
  {
    var d := DurableRun(env, schema, events).value;
    DurableRunsAreInStep(env, schema, events);
    StoreIsRestorable(env, schema, d);
    var inputs, publications := RestoredInputs(env, d.store.inputs), RestoredPublications(env, d.store.publications);
    SameKeysAgree(schema, d.live.states, d.live.frames.inputs, inputs);
    SameBirthsAgree(env, schema, d, publications);
    ValidationIsExact(schema, Live(d.store.heads, Index(inputs, publications, [], [])));
  }

  lemma {:induction false} SameKeysAgree<V>(schema: Schema, states: map<ScopeRun, State>, a: seq<Record<V>>,
                                            b: seq<Record<V>>)
    requires InputsAgree(schema, states, a) && |b| == |a|
    requires forall i :: 0 <= i < |a| ==> b[i].coordinate == a[i].coordinate
    ensures InputsAgree(schema, states, b)
  {
    assert Keys(a) == Keys(b);
    forall r | r in b
      ensures r.coordinate.GraphInputAt? && r.coordinate.at in states
      ensures r.coordinate == InputKey(schema, r.coordinate.at)
    {
      var i :| 0 <= i < |b| && b[i] == r;
      assert a[i] in a;
    }
    forall at | at in states
      ensures Has(b, InputKey(schema, at))
    {
      var i :| 0 <= i < |a| && a[i].coordinate == InputKey(schema, at);
      assert b[i].coordinate == InputKey(schema, at);
    }
  }

  lemma {:induction false} SameBirthsAgree<V>(env: Env<V>, schema: Schema, d: Durable<V>,
                                              b: seq<Record<Publication<V>>>)
    requires InStep(env, schema, d) && |b| == |d.store.publications|
    requires forall i :: 0 <= i < |b| ==>
                           && b[i].coordinate == d.store.publications[i].coordinate
                           && b[i].value.revision == d.store.publications[i].value.revision
                           && b[i].value.token == d.store.publications[i].value.token
    ensures PublicationsAgree(schema, d.live.states, b)
  {
    var a := d.live.frames.publications;
    forall i | 0 <= i < |a|
      ensures b[i].coordinate == a[i].coordinate && PublicationAgrees(schema, d.live.states, b[i])
    {
      assert PublicationStored(env, d.live.states, a[i], d.store.publications[i]);
      assert a[i] in a;
      assert PublicationAgrees(schema, d.live.states, a[i]);
    }
    SameKeysCovered(schema, d.live.states, a, b);
    SamePlaces(schema, d.live.states, b);
  }

  lemma {:induction false} SameKeysCovered<V>(schema: Schema, states: map<ScopeRun, State>,
                                              a: seq<Record<Publication<V>>>, b: seq<Record<Publication<V>>>)
    requires Canonical(a) && LedgersCovered(schema, states, a)
    requires |a| == |b| && forall i :: 0 <= i < |a| ==> b[i].coordinate == a[i].coordinate
    ensures Canonical(b) && LedgersCovered(schema, states, b)
  {
    assert Keys(a) == Keys(b);
    forall at, x | at in states && x in states[at].ledger
      ensures Has(b, PublicationKey(schema, at, x))
    {
      var i :| 0 <= i < |a| && a[i].coordinate == PublicationKey(schema, at, x);
      assert b[i].coordinate == PublicationKey(schema, at, x);
    }
  }

  lemma {:induction false} SamePlaces<V>(schema: Schema, states: map<ScopeRun, State>, b: seq<Record<Publication<V>>>)
    requires forall i :: 0 <= i < |b| ==> PublicationAgrees(schema, states, b[i])
    ensures RecordsAgree(schema, states, b)
  {
  }

  // ---- evidence is binding ---------------------------------------------------------------

  /** A collision-free hash over an injective metadata printer that escapes NUL. */
  ghost predicate CollisionFree<V>(env: Env<V>) {
    && (forall x, y :: env.hash(x) == env.hash(y) ==> x == y)
    && (forall m :: 0 !in env.json(m))
    && (forall m, n :: env.json(m) == env.json(n) ==> m == n)
  }

  lemma {:induction false} DomainHasNoNul(m: Metadata)
    ensures 0 !in Domain(m)
  {
    forall i | 0 <= i < |"mote.graph-input-evidence.v1"|
      ensures "mote.graph-input-evidence.v1"[i] != 0 as char
    {
    }
    forall i | 0 <= i < |"mote.graph-publication-evidence.v1"|
      ensures "mote.graph-publication-evidence.v1"[i] != 0 as char
    {
    }
  }

  lemma {:induction false} CommitmentBinds<V>(env: Env<V>, m: Metadata, p: Text, m': Metadata, p': Text)
    requires CollisionFree(env) && Commitment(env, m, p) == Commitment(env, m', p')
    ensures m == m' && p == p'
  {
    DomainHasNoNul(m);
    DomainHasNoNul(m');
    CommitmentPreimageInjective(env.json, Domain(m), m, p, Domain(m'), m', p');
  }

  lemma {:induction false} InputBinds<V>(env: Env<V>, states: map<ScopeRun, State>, a: Record<StoredInput>,
                                         b: Record<StoredInput>)
    requires CollisionFree(env) && InputRestorable(env, states, a) && InputRestorable(env, states, b)
    requires a.coordinate.at == b.coordinate.at
    ensures a == b
  {
    CommitmentBinds(env, InputFacts(a.coordinate, a.value.frame, a.value.run, a.value.revision), a.value.frame.payload,
                    InputFacts(b.coordinate, b.value.frame, b.value.run, b.value.revision), b.value.frame.payload);
  }

  lemma {:induction false} PublicationBinds<V>(env: Env<V>, states: map<ScopeRun, State>, a: Record<StoredPublication>,
                                               b: Record<StoredPublication>)
    requires CollisionFree(env) && PublicationRestorable(env, states, a) && PublicationRestorable(env, states, b)
    requires a.coordinate.activation == b.coordinate.activation
    ensures a == b
  {
    CommitmentBinds(env, PublicationFacts(a.coordinate, a.value.frame, a.value.run, a.value.revision, a.value.token,
                                          a.value.route), a.value.frame.payload,
                    PublicationFacts(b.coordinate, b.value.frame, b.value.run, b.value.revision, b.value.token,
                                     b.value.route), b.value.frame.payload);
  }

  ghost predicate StoredFor<T>(records: seq<Record<T>>, a: StableActivation) {
    exists i :: 0 <= i < |records| && Place(records[i].coordinate) == a
  }

  ghost predicate StoredAt<T>(records: seq<Record<T>>, at: ScopeRun) {
    exists i :: 0 <= i < |records| && Place(records[i].coordinate).at == at
  }

  ghost predicate RestorableInputs<V>(env: Env<V>, states: map<ScopeRun, State>, inputs: seq<Record<StoredInput>>) {
    && Canonical(inputs)
    && (forall i :: 0 <= i < |inputs| ==> InputRestorable(env, states, inputs[i]))
    && (forall at :: at in states ==> StoredAt(inputs, at))
  }

  ghost predicate RestorablePublications<V>(env: Env<V>, states: map<ScopeRun, State>,
                                            publications: seq<Record<StoredPublication>>) {
    && Canonical(publications)
    && (forall i :: 0 <= i < |publications| ==> PublicationRestorable(env, states, publications[i]))
    && (forall at, a :: at in states && a in states[at].ledger ==> StoredFor(publications, Stable(at, a)))
  }

  lemma {:induction false} InputCovered<V>(env: Env<V>, states: map<ScopeRun, State>, r: Record<StoredInput>,
                                           b: seq<Record<StoredInput>>)
    requires CollisionFree(env) && InputRestorable(env, states, r) && RestorableInputs(env, states, b)
    ensures r in b
  {
    assert StoredAt(b, r.coordinate.at);
    var j :| 0 <= j < |b| && Place(b[j].coordinate).at == r.coordinate.at;
    assert InputRestorable(env, states, b[j]);
    InputBinds(env, states, r, b[j]);
  }

  lemma {:induction false} PublicationCovered<V>(env: Env<V>, states: map<ScopeRun, State>,
                                                 r: Record<StoredPublication>, b: seq<Record<StoredPublication>>)
    requires CollisionFree(env) && PublicationRestorable(env, states, r) && RestorablePublications(env, states, b)
    ensures r in b
  {
    var at, x := r.coordinate.activation.at, OwnActivation(r.coordinate);
    assert Stable(at, x) == r.coordinate.activation;
    assert StoredFor(b, Stable(at, x));
    var j :| 0 <= j < |b| && Place(b[j].coordinate) == Stable(at, x);
    assert PublicationRestorable(env, states, b[j]);
    PublicationBinds(env, states, r, b[j]);
  }

  lemma {:induction false} InputsDetermined<V>(env: Env<V>, states: map<ScopeRun, State>, a: seq<Record<StoredInput>>,
                                               b: seq<Record<StoredInput>>)
    requires CollisionFree(env) && RestorableInputs(env, states, a) && RestorableInputs(env, states, b)
    ensures a == b
  {
    forall i | 0 <= i < |a| ensures a[i] in b { InputCovered(env, states, a[i], b); }
    forall i | 0 <= i < |b| ensures b[i] in a { InputCovered(env, states, b[i], a); }
    CanonicalUnique(a, b);
  }

  lemma {:induction false} PublicationsDetermined<V>(env: Env<V>, states: map<ScopeRun, State>,
                                                     a: seq<Record<StoredPublication>>,
                                                     b: seq<Record<StoredPublication>>)
    requires CollisionFree(env) && RestorablePublications(env, states, a) && RestorablePublications(env, states, b)
    ensures a == b
  {
    forall i | 0 <= i < |a| ensures a[i] in b { PublicationCovered(env, states, a[i], b); }
    forall i | 0 <= i < |b| ensures b[i] in a { PublicationCovered(env, states, b[i], a); }
    CanonicalUnique(a, b);
  }

  lemma {:induction false} StoredInputsComplete<V>(env: Env<V>, schema: Schema, states: map<ScopeRun, State>,
                                                   rs: seq<Record<V>>, qs: seq<Record<StoredInput>>)
    requires InputsAgree(schema, states, rs) && InputsStored(env, states, rs, qs)
    ensures RestorableInputs(env, states, qs)
  {
    StoredInputKeys(env, states, rs, qs);
    forall i | 0 <= i < |qs|
      ensures InputRestorable(env, states, qs[i])
    {
      assert InputStored(env, states, rs[i], qs[i]);
    }
    forall at | at in states
      ensures StoredAt(qs, at)
    {
      StoredKey(rs, qs, InputKey(schema, at));
    }
  }

  lemma {:induction false} StoredPublicationsComplete<V>(env: Env<V>, schema: Schema, states: map<ScopeRun, State>,
                                                         rs: seq<Record<Publication<V>>>,
                                                         qs: seq<Record<StoredPublication>>)
    requires PublicationsAgree(schema, states, rs) && PublicationsStored(env, states, rs, qs)
    ensures RestorablePublications(env, states, qs)
  {
    StoredPublicationKeys(env, states, rs, qs);
    StoredPublicationsRestorable(env, states, rs, qs);
    LedgersStored(schema, states, rs, qs);
  }

  lemma {:induction false} LedgersStored<V>(schema: Schema, states: map<ScopeRun, State>,
                                            rs: seq<Record<Publication<V>>>, qs: seq<Record<StoredPublication>>)
    requires LedgersCovered(schema, states, rs) && Keys(rs) == Keys(qs)
    ensures forall at, a :: at in states && a in states[at].ledger ==> StoredFor(qs, Stable(at, a))
  {
    forall at, a | at in states && a in states[at].ledger
      ensures StoredFor(qs, Stable(at, a))
    {
      StoredKey(rs, qs, PublicationKey(schema, at, a));
    }
  }

  lemma {:induction false} StoredPublicationsRestorable<V>(env: Env<V>, states: map<ScopeRun, State>,
                                                           rs: seq<Record<Publication<V>>>,
                                                           qs: seq<Record<StoredPublication>>)
    requires PublicationsStored(env, states, rs, qs)
    ensures forall i :: 0 <= i < |qs| ==> PublicationRestorable(env, states, qs[i])
  {
    forall i | 0 <= i < |qs|
      ensures PublicationRestorable(env, states, qs[i])
    {
      assert PublicationStored(env, states, rs[i], qs[i]);
    }
  }

  lemma {:induction false} StoredKey<A, B>(rs: seq<Record<A>>, qs: seq<Record<B>>, c: Coordinate)
    requires Keys(rs) == Keys(qs) && Has(rs, c)
    ensures StoredFor(qs, Place(c)) && StoredAt(qs, Place(c).at)
  {
    var i :| 0 <= i < |rs| && rs[i].coordinate == c;
    assert |Keys(rs)| == |rs| && |Keys(qs)| == |qs|;
    assert Keys(qs)[i] == Keys(rs)[i];
  }

  /** Only what was written restores: with a collision-free hash, any complete list of records that the
      evidence checks accept against the states of a durable run is the list that run stored. */
  lemma {:induction false} OnlyWrittenRecordsRestore<V(!new)>(env: Env<V>, schema: Schema, events: seq<Event<V>>,
                                                              inputs: seq<Record<StoredInput>>,
                                                              publications: seq<Record<StoredPublication>>)
    requires CollisionFree(env) && DurableRun(env, schema, events).Some?
    requires RestorableInputs(env, DurableRun(env, schema, events).value.store.heads, inputs)
    requires RestorablePublications(env, DurableRun(env, schema, events).value.store.heads, publications)
    ensures inputs == DurableRun(env, schema, events).value.store.inputs
    ensures publications == DurableRun(env, schema, events).value.store.publications
  {
    var d := DurableRun(env, schema, events).value;
    DurableRunsAreInStep(env, schema, events);
    StoredInputsComplete(env, schema, d.live.states, d.live.frames.inputs, d.store.inputs);
    StoredPublicationsComplete(env, schema, d.live.states, d.live.frames.publications, d.store.publications);
    InputsDetermined(env, d.store.heads, inputs, d.store.inputs);
    PublicationsDetermined(env, d.store.heads, publications, d.store.publications);
  }

  // ---- requests of any origin ------------------------------------------------------------

  /** The compare-and-set holds, and the candidate keeps the evidence and the ledger of the head it replaces. */
  ghost predicate Replaces(heads: map<ScopeRun, State>, q: Request) {
    var at := ScopeRun(q.scope, q.candidate.run);
    && q.expected == (if at in heads then Some(heads[at].revision) else None)
    && Extends(heads, heads[at := q.candidate])
  }

  /** The store can be restored, and holds the graph input of every head. */
  ghost predicate Sound<V>(env: Env<V>, store: Store) {
    && Restorable(env, store.heads, store.inputs, store.publications)
    && forall at :: at in store.heads ==> StoredAt(store.inputs, at)
  }

  ghost predicate Decodes<V>(env: Env<V>, q: Request) {
    && (forall i :: 0 <= i < |q.inputs| ==> DecodeFrame(env.codec, q.inputs[i].value.frame).Some?)
    && (forall i :: 0 <= i < |q.publications| ==> DecodeFrame(env.codec, q.publications[i].value.frame).Some?)
  }

  lemma {:induction false} OwnRecordsRestore<V>(env: Env<V>, heads: map<ScopeRun, State>, q: Request)
    requires RequestAdmitted(env, q)
    ensures var after := heads[ScopeRun(q.scope, q.candidate.run) := q.candidate];
            && (forall i :: 0 <= i < |q.inputs| ==> InputRestorable(env, after, q.inputs[i]))
            && (forall i :: 0 <= i < |q.publications| ==> PublicationRestorable(env, after, q.publications[i]))
  {
  }

  lemma {:induction false} InputStillRestores<V>(env: Env<V>, store: Store, q: Request, r: Record<StoredInput>)
    requires Sound(env, store) && RequestAdmitted(env, q) && Replaces(store.heads, q) && Decodes(env, q)
    requires r in store.inputs || r in q.inputs
    ensures InputRestorable(env, store.heads[ScopeRun(q.scope, q.candidate.run) := q.candidate], r)
    ensures DecodeFrame(env.codec, r.value.frame).Some?
  {
    if r in store.inputs {
      var j :| 0 <= j < |store.inputs| && store.inputs[j] == r;
      assert InputRestorable(env, store.heads, store.inputs[j]);
    } else {
      OwnRecordsRestore(env, store.heads, q);
    }
  }

  lemma {:induction false} InputsStillRestore<V>(env: Env<V>, store: Store, q: Request, next: Store)
    requires Sound(env, store) && RequestAdmitted(env, q) && Replaces(store.heads, q) && Decodes(env, q)
    requires ApplyRequest(store, q) == Some(next)
    ensures Pairwise(CoordinateLess, Keys(next.inputs))
    ensures forall i :: 0 <= i < |next.inputs| ==>
                          InputRestorable(env, next.heads, next.inputs[i])
                          && DecodeFrame(env.codec, next.inputs[i].value.frame).Some?
  {
    CoordinateOrder();
    PairwiseIsAscending(CoordinateLess, Keys(store.inputs));
    var out := InsertedMembers(store.inputs, q.inputs);
    PairwiseIsAscending(CoordinateLess, Keys(out));
    forall i | 0 <= i < |out|
      ensures InputRestorable(env, next.heads, out[i]) && DecodeFrame(env.codec, out[i].value.frame).Some?
    {
      assert out[i] in out;
      InputStillRestores(env, store, q, out[i]);
    }
  }

  lemma {:induction false} FirstHasInput<V>(env: Env<V>, q: Request)
    requires RequestAdmitted(env, q) && q.expected.None?
    ensures |q.inputs| == 1 && q.inputs[0].coordinate.GraphInputAt?
    ensures q.inputs[0].coordinate.at == ScopeRun(q.scope, q.candidate.run)
  {
  }

  lemma {:induction false} HeadsStillStored<V>(env: Env<V>, store: Store, q: Request, next: Store, at: ScopeRun)
    requires Canonical(store.inputs) && RequestAdmitted(env, q) && Replaces(store.heads, q)
    requires forall at :: at in store.heads ==> StoredAt(store.inputs, at)
    requires ApplyRequest(store, q) == Some(next) && at in next.heads
    ensures StoredAt(next.inputs, at)
  {
    var out := InsertedMembers(store.inputs, q.inputs);
    if at !in store.heads {
      FirstHasInput(env, q);
    }
    StillStored(store, q, out, at);
  }

  lemma {:induction false} StillStored(store: Store, q: Request, out: seq<Record<StoredInput>>, at: ScopeRun)
    requires forall r :: r in out <==> r in store.inputs || r in q.inputs
    requires if at in store.heads then StoredAt(store.inputs, at)
             else |q.inputs| == 1 && q.inputs[0].coordinate.GraphInputAt? && q.inputs[0].coordinate.at == at
    ensures StoredAt(out, at)
  {
    var r := if at in store.heads then
      var i :| 0 <= i < |store.inputs| && Place(store.inputs[i].coordinate).at == at;
      store.inputs[i]
    else q.inputs[0];
    assert r in out;
    var k :| 0 <= k < |out| && out[k] == r;
    assert Place(out[k].coordinate).at == at;
  }

  lemma {:induction false} PublicationStillRestores<V>(env: Env<V>, store: Store, q: Request,
                                                       r: Record<StoredPublication>)
    requires Sound(env, store) && RequestAdmitted(env, q) && Replaces(store.heads, q) && Decodes(env, q)
    requires r in store.publications || r in q.publications
    ensures PublicationRestorable(env, store.heads[ScopeRun(q.scope, q.candidate.run) := q.candidate], r)
    ensures DecodeFrame(env.codec, r.value.frame).Some?
  {
    if r in store.publications {
      var j :| 0 <= j < |store.publications| && store.publications[j] == r;
      assert PublicationRestorable(env, store.heads, store.publications[j]);
    } else {
      OwnRecordsRestore(env, store.heads, q);
    }
  }

  lemma {:induction false} PublicationsStillRestore<V>(env: Env<V>, store: Store, q: Request, next: Store)
    requires Sound(env, store) && RequestAdmitted(env, q) && Replaces(store.heads, q) && Decodes(env, q)
    requires ApplyRequest(store, q) == Some(next)
    ensures Pairwise(CoordinateLess, Keys(next.publications))
    ensures forall i :: 0 <= i < |next.publications| ==>
                          PublicationRestorable(env, next.heads, next.publications[i])
                          && DecodeFrame(env.codec, next.publications[i].value.frame).Some?
  {
    CoordinateOrder();
    PairwiseIsAscending(CoordinateLess, Keys(store.publications));
    var out := InsertedMembers(store.publications, q.publications);
    PairwiseIsAscending(CoordinateLess, Keys(out));
    forall i | 0 <= i < |out|
      ensures PublicationRestorable(env, next.heads, out[i]) && DecodeFrame(env.codec, out[i].value.frame).Some?
    {
      assert out[i] in out;
      PublicationStillRestores(env, store, q, out[i]);
    }
  }

  lemma {:induction false} RevisionMoves<V>(env: Env<V>, store: Store, q: Request)
    requires RequestAdmitted(env, q) && Replaces(store.heads, q)
    ensures var at := ScopeRun(q.scope, q.candidate.run);
            q.candidate.revision == if at in store.heads then store.heads[at].revision + 1 else 0
  {
  }

  lemma {:induction false} HeadsStayDurable<V>(env: Env<V>, store: Store, q: Request, next: Store)
    requires Sound(env, store) && RequestAdmitted(env, q) && ApplyRequest(store, q) == Some(next)
    ensures forall at :: at in next.heads ==> DurableState(next.heads[at])
  {
  }

  lemma {:induction false} NextIsSound<V>(env: Env<V>, store: Store, q: Request, next: Store)
    requires Sound(env, store) && RequestAdmitted(env, q) && Replaces(store.heads, q) && Decodes(env, q)
    requires ApplyRequest(store, q) == Some(next)
    ensures Sound(env, next)
  {
    CoordinateOrder();
    PairwiseIsAscending(CoordinateLess, Keys(store.inputs));
    forall at | at in next.heads
      ensures StoredAt(next.inputs, at)
    {
      HeadsStillStored(env, store, q, next, at);
    }
    HeadsStayDurable(env, store, q, next);
    InputsStillRestore(env, store, q, next);
    PublicationsStillRestore(env, store, q, next);
  }

  /** What a request checks of itself is enough for the store, whoever built it: applied to a store that can be
      restored, under the compare-and-set, it leaves a store that can be restored, in which its run has moved
      by exactly one revision, or started with its one graph input, and no other run has moved. */
  lemma {:induction false} AdmittedRequestKeepsStore<V>(env: Env<V>, store: Store, q: Request)
    requires Sound(env, store) && RequestAdmitted(env, q) && Replaces(store.heads, q) && Decodes(env, q)
    requires ApplyRequest(store, q).Some?
    ensures var at, next := ScopeRun(q.scope, q.candidate.run), ApplyRequest(store, q).value;
            && Sound(env, next) && at in next.heads
            && next.heads[at].revision == (if at in store.heads then store.heads[at].revision + 1 else 0)
            && (forall other :: other != at ==> (other in next.heads <==> other in store.heads))
            && (forall other :: other in store.heads && other != at ==> next.heads[other] == store.heads[other])
  {
    NextIsSound(env, store, q, ApplyRequest(store, q).value);
    RevisionMoves(env, store, q);
  }
}
