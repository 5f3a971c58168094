/** The Session envelope for arbitrary pure encoder and decoder callables. */
module SessionCodec {
  import opened Sorted
  import opened FrameIndex

  /** The identity of a resolved Config; only a cursor with a digest can be stored. */
  datatype Cursor = Cursor(identity: Text, digest: Option<Text>)

  /** A resolved Config: its cursor and the capability behind it. */
  datatype Config = Config(cursor: Cursor, capability: nat)

  datatype Session<+H, +C> = Session(hookState: H, context: C, config: Option<Config>) {
    function ConfigCursor(): (c: Option<Cursor>) {
      if config.None? then None else Some(config.value.cursor)
    }
  }

  datatype Envelope = Envelope(codec: Text, version: nat, payload: Text, cursor: Option<Cursor>)

  /** A caller's codec: both callables may reject; `same` is the equality of the caller's own types. */
  datatype Codec<!H, !C> = Codec(id: Text, version: nat, encoder: (H, C) -> Option<Text>,
                                 decoder: Text -> Option<(H, C)>,
                                 same: ((H, C), (H, C)) -> bool)

  predicate Admitted(e: Envelope) {
    e.cursor.Some? ==> e.cursor.value.digest.Some?
  }

  function EncodeRaw<H, C>(codec: Codec<H, C>, s: Session<H, C>): (e: Option<Envelope>) {
    match codec.encoder(s.hookState, s.context)
    case None => None
    case Some(payload) =>
      var e := Envelope(codec.id, codec.version, payload, s.ConfigCursor());
      if Admitted(e) then Some(e) else None
  }

  /** `AgentSessionCodec.encode`. */
  function Encode<H, C>(codec: Codec<H, C>, s: Session<H, C>): (e: Option<Envelope>) {
    match EncodeRaw(codec, s)
    case None => None
    case Some(encoded) =>
      match codec.decoder(encoded.payload)
      case None => None
      case Some(d) =>
        if !codec.same(d, (s.hookState, s.context)) then None
        else if EncodeRaw(codec, Session(d.0, d.1, s.config)) != Some(encoded) then None
        else Some(encoded)
  }

  /** `AgentSessionCodec.decode`. */
  function Decode<H, C>(codec: Codec<H, C>, e: Envelope, config: Option<Config>): (s: Option<Session<H, C>>) {
    if !Admitted(e) || e.codec != codec.id || e.version != codec.version then None
    else if e.cursor != (if config.None? then None else Some(config.value.cursor)) then None
    else
      match codec.decoder(e.payload)
      case None => None
      case Some(d) =>
        var s := Session(d.0, d.1, config);
        if EncodeRaw(codec, s) != Some(e) then None else Some(s)
  }

  /** The recovery check of a decoded Session against its envelope. */
  predicate RecoveryAdmits<H, C>(codec: Codec<H, C>, e: Envelope, s: Session<H, C>) {
    s.ConfigCursor() == e.cursor && Encode(codec, s) == Some(e)
  }

  /** The caller's equality is reflexive on what this envelope decodes to. */
  predicate SelfEqual<H, C>(codec: Codec<H, C>, e: Envelope) {
    codec.decoder(e.payload).Some? && codec.same(codec.decoder(e.payload).value, codec.decoder(e.payload).value)
  }

  /** An accepted encode decodes, under the same Config, to an equal Session. */
  lemma {:induction false} EncodedSessionDecodes<H, C>(codec: Codec<H, C>, s: Session<H, C>)
    requires Encode(codec, s).Some?
    ensures var r := Decode(codec, Encode(codec, s).value, s.config);
            && r.Some? && r.value.config == s.config
            && codec.same((r.value.hookState, r.value.context), (s.hookState, s.context))
  {
    var e := Encode(codec, s).value;
    var d := codec.decoder(e.payload).value;
    assert d == (d.0, d.1);
  }

  /** An accepted decode re-encodes raw to the same envelope, and through the full encoder exactly when
      the caller's equality is reflexive on the decoded values. */
  lemma {:induction false} DecodedSessionEncodes<H, C>(codec: Codec<H, C>, e: Envelope, config: Option<Config>)
    requires Decode(codec, e, config).Some?
    ensures var s := Decode(codec, e, config).value;
            && s.config == config && EncodeRaw(codec, s) == Some(e)
            && (Encode(codec, s) == Some(e) <==> SelfEqual(codec, e))
  {
    var d := codec.decoder(e.payload).value;
    assert d == (d.0, d.1);
  }

  /** Hence recovery accepts a Session the Agent decoded exactly under the same condition; an equality
      that is reflexive accepts every one. */
  lemma {:induction false} RecoveryAdmitsDecoded<H, C>(codec: Codec<H, C>, e: Envelope, config: Option<Config>)
    requires Decode(codec, e, config).Some?
    ensures RecoveryAdmits(codec, e, Decode(codec, e, config).value) <==> SelfEqual(codec, e)
  {
    DecodedSessionEncodes(codec, e, config);
  }

  ghost predicate Symmetric<T(!new)>(same: (T, T) -> bool) {
    forall x, y :: same(x, y) ==> same(y, x)
  }

  ghost predicate Transitive<T(!new)>(same: (T, T) -> bool) {
    forall x, y, z :: same(x, y) && same(y, z) ==> same(x, z)
  }

  /** What the kernel itself wrote always recovers, without reflexivity: an envelope accepted by the full
      encoder decodes, and recovery admits the decoded Session, for every symmetric and transitive equality. */
  lemma {:induction false} WrittenSessionRecovers<H(!new), C(!new)>(codec: Codec<H, C>, s: Session<H, C>)
    requires Encode(codec, s).Some? && Symmetric(codec.same) && Transitive(codec.same)
    ensures var e := Encode(codec, s).value;
            && Decode(codec, e, s.config).Some?
            && RecoveryAdmits(codec, e, Decode(codec, e, s.config).value)
  {
    var e := Encode(codec, s).value;
    EncodedSessionDecodes(codec, s);
    RecoveryAdmitsDecoded(codec, e, s.config);
    var d, own := codec.decoder(e.payload).value, (s.hookState, s.context);
    assert codec.same(d, own) && codec.same(own, d);
  }

  /** A codec over one value whose equality never holds, as for a not-a-number payload. */
  const NEVER_EQUAL: Codec<int, int> := Codec([], 1, (h, c) => Some([]), b => Some((0, 0)), (x, y) => false)

  /** Without reflexive equality the promise fails: a Session can be decoded that recovery rejects. */
  lemma {:induction false} IrreflexiveEqualityIsRejected()
    ensures var e := Envelope([], 1, [], None);
            Decode(NEVER_EQUAL, e, None) == Some(Session(0, 0, None))
            && !RecoveryAdmits(NEVER_EQUAL, e, Session(0, 0, None))
  {
    var e := Envelope([], 1, [], None);
    assert NEVER_EQUAL.decoder(e.payload) == Some((0, 0));
    assert EncodeRaw(NEVER_EQUAL, Session(0, 0, None)) == Some(e);
    RecoveryAdmitsDecoded(NEVER_EQUAL, e, None);
  }
}
