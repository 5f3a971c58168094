/** Durable commits, their evidence commitments, and the cold start that reads them back. */
module Recovery {
  import opened Sorted
  import opened Identity
  import opened FrameIndex
  import opened GraphState
  import opened GraphCommit

  // ---- frame encoding --------------------------------------------------------------------

  /** A frame codec: both callables may reject, `fits` compares names and exact value types. */
  datatype Codec<!V> = Codec(id: Text, version: nat, encode: V -> Option<Text>, decode: Text -> Option<V>,
                             fits: (V, V) -> bool)

  datatype EncodedFrame = EncodedFrame(codec: Text, version: nat, payload: Text)

  function EncodeFrame<V>(codec: Codec<V>, v: V): (r: Option<EncodedFrame>) {
    match codec.encode(v)
    case None => None
    case Some(payload) =>
      match codec.decode(payload)
      case None => None
      case Some(w) =>
        if !codec.fits(v, w) || codec.encode(w) != Some(payload) then None
        else Some(EncodedFrame(codec.id, codec.version, payload))
  }

  function DecodeFrame<V>(codec: Codec<V>, f: EncodedFrame): (r: Option<V>) {
    if f.codec != codec.id || f.version != codec.version then None
    else
      match codec.decode(f.payload)
      case None => None
      case Some(w) => if codec.encode(w) != Some(f.payload) then None else Some(w)
  }

  /** The codec gives this frame back. */
  ghost predicate Survives<V>(codec: Codec<V>, v: V) {
    codec.encode(v).Some? && codec.decode(codec.encode(v).value) == Some(v)
  }

  ghost predicate CanonicalCodec<V(!new)>(codec: Codec<V>) {
    forall v, w :: codec.encode(v).Some? && codec.encode(v) == codec.encode(w) ==> v == w
  }

  /** Every frame the codec was accepted for decodes again; it decodes to itself exactly when the
      codec round-trips it, which a codec with distinct encodings always does. */
  lemma {:induction false} AcceptedFrameDecodes<V(!new)>(codec: Codec<V>, v: V)
    requires EncodeFrame(codec, v).Some?
    ensures DecodeFrame(codec, EncodeFrame(codec, v).value).Some?
    ensures DecodeFrame(codec, EncodeFrame(codec, v).value) == Some(v) <==> Survives(codec, v)
    ensures codec.fits(v, DecodeFrame(codec, EncodeFrame(codec, v).value).value)
    ensures CanonicalCodec(codec) ==> Survives(codec, v)
  {
    var w := codec.decode(codec.encode(v).value).value;
    assert codec.encode(w) == codec.encode(v);
  }

  /** The other way round: a stored frame that decodes is under this codec, and what it decodes to encodes to
      exactly that frame, as long as it has the names and types of itself. */
  lemma {:induction false} DecodedFrameEncodes<V>(codec: Codec<V>, f: EncodedFrame)
    requires DecodeFrame(codec, f).Some?
    ensures f.codec == codec.id && f.version == codec.version
    ensures var v := DecodeFrame(codec, f).value;
            EncodeFrame(codec, v) == Some(f) <==> codec.fits(v, v)
  {
    var v := codec.decode(f.payload).value;
    assert codec.encode(v) == Some(f.payload);
  }

  // ---- commitments -----------------------------------------------------------------------

  datatype Metadata =
    | InputMetadata(run: Text, revision: nat, at: ScopeRun, descriptor: nat, codec: Text, version: nat)
    | PublicationMetadata(run: Text, revision: nat, activation: StableActivation, descriptor: nat, token: Token,
                          codec: Text, version: nat, route: Option<Text>)

  /** The codec, the metadata printer and the hash a deployment uses. */
  datatype Env<!V> = Env(codec: Codec<V>, json: Metadata -> Text, hash: Text -> Digest)

  function Domain(m: Metadata): (d: Text) {
    match m
    case InputMetadata(_, _, _, _, _, _) => Tag("mote.graph-input-evidence.v1")
    case PublicationMetadata(_, _, _, _, _, _, _, _) => Tag("mote.graph-publication-evidence.v1")
  }

  function Commitment<V>(env: Env<V>, m: Metadata, payload: Text): (digest: Digest) {
    env.hash(CommitmentPreimage(Domain(m), env.json(m), payload))
  }

  datatype StoredInput = StoredInput(frame: EncodedFrame, run: Text, revision: nat, evidence: Digest)

  datatype StoredPublication = StoredPublication(frame: EncodedFrame, run: Text, revision: nat, token: Token,
                                                 activation: Activation, route: Option<Text>, evidence: Digest)

  function InputFacts(c: Coordinate, frame: EncodedFrame, run: Text, revision: nat): (m: Metadata)
    requires c.GraphInputAt?
  {
    InputMetadata(run, revision, c.at, c.descriptor, frame.codec, frame.version)
  }

  function PublicationFacts(c: Coordinate, frame: EncodedFrame, run: Text, revision: nat, token: Token,
                            route: Option<Text>): (m: Metadata)
    requires c.PublicationAt?
  {
    PublicationMetadata(run, revision, c.activation, c.descriptor, token, frame.codec, frame.version, route)
  }

  /** The checks a stored graph input makes of itself. */
  predicate InputAdmitted<V>(env: Env<V>, r: Record<StoredInput>) {
    && r.coordinate.GraphInputAt?
    && r.value.run == r.coordinate.at.run && r.value.revision == 0
    && r.value.evidence == Commitment(env, InputFacts(r.coordinate, r.value.frame, r.value.run, r.value.revision),
                                      r.value.frame.payload)
  }

  predicate PublicationAdmitted<V>(env: Env<V>, r: Record<StoredPublication>) {
    && r.coordinate.PublicationAt?
    && r.value.run == r.coordinate.activation.at.run && r.value.revision >= 1
    && r.value.activation == OwnActivation(r.coordinate)
    && r.value.evidence == Commitment(env, PublicationFacts(r.coordinate, r.value.frame, r.value.run, r.value.revision,
                                                            r.value.token, r.value.route), r.value.frame.payload)
  }

  // ---- capturing and binding -------------------------------------------------------------

  function CaptureInputs<V>(env: Env<V>, t: Transition<V>): (r: Option<seq<Record<StoredInput>>>) {
    if t.inputs == [] || !t.inputs[0].coordinate.GraphInputAt? then Some([])
    else
      match EncodeFrame(env.codec, t.inputs[0].value)
      case None => None
      case Some(frame) =>
        var c, run, revision := t.inputs[0].coordinate, t.candidate.run, t.candidate.revision;
        Some([Record(c, StoredInput(frame, run, revision,
                                    Commitment(env, InputFacts(c, frame, run, revision), frame.payload)))])
  }

  function CapturePublications<V>(env: Env<V>, t: Transition<V>): (r: Option<seq<Record<StoredPublication>>>) {
    if t.publications == [] || !t.publications[0].coordinate.PublicationAt? then Some([])
    else
      var c, p := t.publications[0].coordinate, t.publications[0].value;
      var a := OwnActivation(c);
      match EncodeFrame(env.codec, p.frame)
      case None => None
      case Some(frame) =>
        if a !in t.candidate.ledger then None
        else
          var route, run, revision := t.candidate.ledger[a].route, t.candidate.run, t.candidate.revision;
          Some([Record(c, StoredPublication(frame, run, revision, p.token, a, route,
                                            Commitment(env, PublicationFacts(c, frame, run, revision, p.token, route),
                                                       frame.payload)))])
  }

  /** `bind_transition_evidence`: put the commitment into the command and reduce again. */
  function BindCommand(c: Command, input: Option<Digest>, publication: Option<Digest>): (r: Option<Command>) {
    if c.Start? then
      if input.None? || publication.Some? || (c.evidence.Some? && c.evidence != input) then None
      else Some(WithEvidence(c, input))
    else if SettlesSuccessfully(c) then
      if input.Some? || publication.None? || (c.evidence.Some? && c.evidence != publication) then None
      else Some(WithEvidence(c, publication))
    else if input.Some? || publication.Some? then None
    else Some(c)
  }

  function BindEvidence<V>(t: Transition<V>, input: Option<Digest>,
                           publication: Option<Digest>): (r: Option<Transition<V>>) {
    match BindCommand(t.command, input, publication)
    case None => None
    case Some(command) =>
      match Reduce(t.previous, command)
      case None => None
      case Some(candidate) =>
        var bound := t.(command := command, candidate := candidate);
        if TransitionAdmitted(bound) then Some(bound) else None
  }

  // ---- the durable request ---------------------------------------------------------------

  datatype Request = Request(scope: seq<Text>, expected: Option<nat>, candidate: State, run: Text, revision: nat,
                             inputs: seq<Record<StoredInput>>, publications: seq<Record<StoredPublication>>)

  predicate DurableState(s: State) {
    s.inputEvidence.Some? && forall a :: a in s.ledger ==> s.ledger[a].evidence.Some?
  }

  /** A stored publication is bound to the settlement its state records. */
  predicate PublicationBound(s: State, r: Record<StoredPublication>) {
    && OwnActivation(r.coordinate) in s.ledger
    && r.value.activation == OwnActivation(r.coordinate)
    && s.ledger[OwnActivation(r.coordinate)]
       == LedgerRecord(r.value.route, r.value.revision, r.value.token, Some(r.value.evidence))
  }

  /** The checks a durable request makes of itself. */
  predicate RequestAdmitted<V>(env: Env<V>, q: Request) {
    var at := ScopeRun(q.scope, q.candidate.run);
    && Valid(q.candidate)
    && |q.inputs| <= 1 && |q.publications| <= 1
    && (forall i :: 0 <= i < |q.inputs| ==>
                      InputAdmitted(env, q.inputs[i]) && q.inputs[i].value.run == q.run
                      && q.inputs[i].value.revision == q.revision)
    && (forall i :: 0 <= i < |q.publications| ==>
                      PublicationAdmitted(env, q.publications[i]) && q.publications[i].value.run == q.run
                      && q.publications[i].value.revision == q.revision)
    && q.run == q.candidate.run && q.revision == q.candidate.revision
    && q.expected == (if q.revision == 0 then None else Some(q.revision - 1))
    && DurableState(q.candidate)
    && (q.revision == 0 ==>
          && |q.inputs| == 1 && q.inputs[0].coordinate.at == at
          && q.candidate.inputEvidence == Some(q.inputs[0].value.evidence))
    && (forall i :: 0 <= i < |q.publications| ==>
                      q.publications[i].coordinate.activation.at == at
                      && PublicationBound(q.candidate, q.publications[i]))
  }

  function RequestFor<V>(t: Transition<V>, candidate: State, inputs: seq<Record<StoredInput>>,
                         publications: seq<Record<StoredPublication>>): (q: Request)
  {
    Request(t.at.scope, if t.previous.Some? then Some(t.previous.value.revision) else None, candidate,
            t.candidate.run, t.candidate.revision, inputs, publications)
  }

  /** `admit_graph_run_confirmation`: the confirmed state is the exact successor, up to one evidence. */
  predicate ConfirmationAdmitted(previous: Option<State>, command: Command, confirmed: State) {
    || Reduce(previous, command) == Some(confirmed)
    || (command.Start? && command.evidence.None? && confirmed.inputEvidence.Some?
        && Reduce(previous, WithEvidence(command, confirmed.inputEvidence)) == Some(confirmed))
    || (SettlesSuccessfully(command) && command.evidence.None?
        && var a := CurrentActivation(confirmed, command.outcome.node);
        && a in confirmed.ledger && confirmed.ledger[a].evidence.Some?
        && Reduce(previous, WithEvidence(command, confirmed.ledger[a].evidence)) == Some(confirmed))
  }

  // ---- the durable store -----------------------------------------------------------------

  /** One consistent read: the head states and the stored values in coordinate order. */
  datatype Store = Store(heads: map<ScopeRun, State>, inputs: seq<Record<StoredInput>>,
                         publications: seq<Record<StoredPublication>>)

  datatype Durable<+V> = Durable(live: Live<V>, store: Store)

  /** Applying an admitted request: new head, new values. */
  function ApplyRequest(store: Store, q: Request): (r: Option<Store>) {
    match InsertAll(store.inputs, q.inputs)
    case None => None
    case Some(inputs) =>
      match InsertAll(store.publications, q.publications)
      case None => None
      case Some(publications) => Some(Store(store.heads[ScopeRun(q.scope, q.candidate.run) := q.candidate], inputs,
                                            publications))
  }

  /** The commit of a prepared transition: bind its evidence, check the request, write memory and store. */
  function ConfirmPrepared<V>(env: Env<V>, d: Durable<V>, at: ScopeRun, t: Transition<V>): (r: Option<Durable<V>>) {
    var inputs, publications := CaptureInputs(env, t), CapturePublications(env, t);
    if inputs.None? || publications.None? then None
    else
      match BindEvidence(t, if inputs.value == [] then None else Some(inputs.value[0].value.evidence),
                         if publications.value == [] then None else Some(publications.value[0].value.evidence))
      case None => None
      case Some(bound) =>
        var q := RequestFor(t, bound.candidate, inputs.value, publications.value);
        if !RequestAdmitted(env, q) || !ConfirmationAdmitted(t.previous, t.command, bound.candidate) then None
        else
          var frames, store := ApplyWrites(d.live.frames, t), ApplyRequest(d.store, q);
          if frames.None? || store.None? then None
          else Some(Durable(Live(d.live.states[at := bound.candidate], frames.value), store.value))
  }

  /** One confirmed durable commit of a scoped owner. */
  function DurableConfirm<V>(env: Env<V>, schema: Schema, d: Durable<V>, e: Event<V>): (r: Option<Durable<V>>) {
    match PrepareTransition(schema, e.at, Previous(d.live, e.at), e.command, e.result, e.input)
    case None => None
    case Some(t) => if t.candidate.run != e.at.run then None else ConfirmPrepared(env, d, e.at, t)
  }

  function NewDurable<V>(): (d: Durable<V>) { Durable(NewFamily(), Store(map[], [], [])) }

  function DurableRun<V>(env: Env<V>, schema: Schema, events: seq<Event<V>>): (r: Option<Durable<V>>) {
    if events == [] then Some(NewDurable())
    else
      var n := |events| - 1;
      match DurableRun(env, schema, events[..n])
      case None => None
      case Some(d) => DurableConfirm(env, schema, d, events[n])
  }
}
