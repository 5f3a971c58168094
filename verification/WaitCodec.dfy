/** The durable wait coordinate: its length-prefixed byte form and the strict parser. */
module WaitCodec {
  import opened Sorted
  import opened Identity
  import opened FrameIndex
  import opened Utf8

  // ---- wait coordinates ------------------------------------------------------------------

  /** The characters `str.strip` removes. */
  predicate IsSpace(c: int) {
    || 9 <= c <= 13 || 28 <= c <= 32 || c == 0x85 || c == 0xA0 || c == 0x1680 || 0x2000 <= c <= 0x200A
    || c == 0x2028 || c == 0x2029 || c == 0x202F || c == 0x205F || c == 0x3000
  }

  /** A non-empty trimmed single-line text of at most 256 bytes. */
  predicate IsIdentity(t: Text) {
    && t != [] && !IsSpace(t[0]) && !IsSpace(t[|t| - 1]) && 10 !in t && 13 !in t
    && Encodable(t) && |Encode(t)| <= 256
  }

  datatype Wait = Wait(stream: Text, sequence: nat, revision: nat, wake: Text)

  predicate ValidWait(w: Wait) { IsIdentity(w.stream) && IsIdentity(w.wake) }

  /** A result, the contract error of this module, or the number-size error of the Python runtime, which
      refuses decimal conversions of more than 4300 digits. */
  datatype Result<+T> = Ok(value: T) | IdentityError | NumberTooLong

  const MARKER: Text := Tag("mote.observe.wait.v1")
  const MAX_ENCODED_BYTES := 4096
  const MAX_DIGITS := 4300

  // ---- encoding --------------------------------------------------------------------------

  function WaitFields(w: Wait): (fields: seq<Text>) {
    [MARKER, w.stream, Digits(w.sequence), Digits(w.revision), w.wake]
  }

  function EncodeAll(fields: seq<Text>): (bytes: seq<Text>)
    requires forall i :: 0 <= i < |fields| ==> Encodable(fields[i])
    ensures |bytes| == |fields| && forall i :: 0 <= i < |fields| ==> bytes[i] == Encode(fields[i])
  {
    seq(|fields|, i requires 0 <= i < |fields| => Encode(fields[i]))
  }

  predicate Ascii(t: Text) {
    forall i :: 0 <= i < |t| ==> 0 <= t[i] < 0x80
  }

  lemma {:induction false} MarkerIsAscii()
    ensures Ascii(MARKER)
  {
    var s := "mote.observe.wait.v1";
    forall i | 0 <= i < |MARKER|
      ensures 0 <= MARKER[i] < 0x80
    {
      assert MARKER[i] == s[i] as int;
      assert s[i] <= 'z';
    }
  }

  lemma {:induction false} FiveEncodable(a: Text, b: Text, c: Text, d: Text, e: Text)
    requires Ascii(a) && Encodable(b) && Ascii(c) && Ascii(d) && Encodable(e)
    ensures forall i :: 0 <= i < 5 ==> Encodable([a, b, c, d, e][i])
    ensures EncodeAll([a, b, c, d, e]) == [a, Encode(b), c, d, Encode(e)]
  {
    AsciiIsItself(a);
    AsciiIsItself(c);
    AsciiIsItself(d);
  }

  lemma {:induction false} DigitsAreAscii(n: nat)
    ensures Ascii(Digits(n))
  {
  }

  lemma {:induction false} FieldsAreEncodable(w: Wait)
    requires ValidWait(w)
    ensures forall i :: 0 <= i < |WaitFields(w)| ==> Encodable(WaitFields(w)[i])
    ensures EncodeAll(WaitFields(w))
         == [MARKER, Encode(w.stream), Digits(w.sequence), Digits(w.revision), Encode(w.wake)]
  {
    MarkerIsAscii();
    DigitsAreAscii(w.sequence);
    DigitsAreAscii(w.revision);
    FiveEncodable(MARKER, w.stream, Digits(w.sequence), Digits(w.revision), w.wake);
  }

  /** The bytes a wait would take. */
  function WaitBytes(w: Wait): (b: Text)
    requires ValidWait(w)
  {
    FieldsAreEncodable(w);
    Fields(EncodeAll(WaitFields(w)))
  }

  function EncodeWait(w: Wait): (r: Result<Text>)
    requires ValidWait(w)
  {
    if |Digits(w.sequence)| > MAX_DIGITS || |Digits(w.revision)| > MAX_DIGITS then NumberTooLong
    else if |WaitBytes(w)| > MAX_ENCODED_BYTES then IdentityError
    else Ok(WaitBytes(w))
  }

  // ---- reading length-prefixed fields ----------------------------------------------------

  datatype FieldRead = FieldRead(value: Text, end: nat)

  /** One field at an offset: a canonical decimal length, a colon and that many bytes. */
  function ReadField(payload: Text, offset: nat): (r: Option<FieldRead>)
    requires offset <= |payload|
    ensures r.Some? ==> offset < r.value.end <= |payload|
  {
    var separator := Find(payload, COLON, offset);
    if separator <= offset then None
    else
      var prefix := payload[offset..separator];
      if !IsDigits(prefix) then None
      else
        var length := Number(prefix);
        if Digits(length) != prefix || separator + 1 + length > |payload| then None
        else Some(FieldRead(payload[separator + 1..separator + 1 + length], separator + 1 + length))
  }

  lemma {:induction false} DigitsAreNotColon(d: Text)
    requires IsDigits(d)
    ensures COLON !in d
  {
  }

  /** Reading is exactly recognising a field at that offset. */
  lemma {:induction false} ReadFieldIsField(payload: Text, offset: nat)
    requires offset <= |payload| && ReadField(payload, offset).Some?
    ensures var r := ReadField(payload, offset).value;
            payload[offset..r.end] == Field(r.value)
  {
    var separator := Find(payload, COLON, offset);
    var r := ReadField(payload, offset).value;
    var prefix := payload[offset..separator];
    assert payload[offset..r.end] == prefix + [COLON] + r.value;
  }

  lemma {:induction false} SeparatorFound(payload: Text, offset: nat, d: Text, tail: Text)
    requires offset <= |payload| && IsDigits(d) && payload[offset..] == d + [COLON] + tail
    ensures Find(payload, COLON, offset) == offset + |d|
    ensures payload[offset..offset + |d|] == d && payload[offset + |d| + 1..] == tail
  {
    var window := payload[offset..];
    DigitsAreNotColon(d);
    assert forall i :: 0 <= i < |window| ==> payload[offset + i] == window[i];
    assert forall i :: 0 <= i < |d| ==> window[i] == d[i] && d[i] in d;
    assert window[|d|] == COLON;
    assert forall i :: offset <= i < offset + |d| ==> payload[i] == window[i - offset];
  }

  lemma {:induction false} FieldIsRead(payload: Text, offset: nat, v: Text, rest: Text)
    requires offset <= |payload| && payload[offset..] == Field(v) + rest
    ensures ReadField(payload, offset) == Some(FieldRead(v, offset + |Field(v)|))
  {
    var d := Digits(|v|);
    assert payload[offset..] == d + [COLON] + (v + rest);
    SeparatorFound(payload, offset, d, v + rest);
    NumberOfDigits(|v|);
    var start := offset + |d| + 1;
    assert payload[start..start + |v|] == payload[start..][..|v|] == v;
  }

  // ---- reading all fields ----------------------------------------------------------------

  /** Read a number of fields up to the end of the payload. */
  function ReadFields(payload: Text, offset: nat, n: nat): (r: Option<seq<Text>>)
    requires offset <= |payload|
    decreases n
  {
    if n == 0 then if offset == |payload| then Some([]) else None
    else
      match ReadField(payload, offset)
      case None => None
      case Some(field) =>
        match ReadFields(payload, field.end, n - 1)
        case None => None
        case Some(rest) => Some([field.value] + rest)
  }

  lemma {:induction false} FieldsCons(v: Text, vs: seq<Text>)
    ensures Fields([v] + vs) == Field(v) + Fields(vs)
  {
    assert ([v] + vs)[1..] == vs;
  }

  lemma {:induction false} ReadAreFields(payload: Text, offset: nat, n: nat)
    requires offset <= |payload| && ReadFields(payload, offset, n).Some?
    ensures |ReadFields(payload, offset, n).value| == n
    ensures payload[offset..] == Fields(ReadFields(payload, offset, n).value)
    decreases n
  {
    if n > 0 {
      var field := ReadField(payload, offset).value;
      ReadFieldIsField(payload, offset);
      ReadAreFields(payload, field.end, n - 1);
      FieldsCons(field.value, ReadFields(payload, field.end, n - 1).value);
      CutAt(payload, offset, field.end);
    }
  }

  lemma {:induction false} CutAt<T>(s: seq<T>, a: nat, b: nat)
    requires a <= b <= |s|
    ensures s[a..] == s[a..b] + s[b..]
  {
  }

  lemma {:induction false} SliceAfter(payload: Text, offset: nat, a: Text, b: Text)
    requires offset <= |payload| && payload[offset..] == a + b
    ensures offset + |a| <= |payload| && payload[offset + |a|..] == b
  {
    assert payload[offset + |a|..] == payload[offset..][|a|..];
  }

  function Consed(v: Text, rest: Option<seq<Text>>): (r: Option<seq<Text>>) {
    if rest.None? then None else Some([v] + rest.value)
  }

  lemma {:induction false} ReadsOne(payload: Text, offset: nat, n: nat, field: FieldRead)
    requires offset <= |payload| && n > 0 && ReadField(payload, offset) == Some(field)
    ensures field.end <= |payload|
    ensures ReadFields(payload, offset, n) == Consed(field.value, ReadFields(payload, field.end, n - 1))
  {
  }

  lemma {:induction false} ReadsField(payload: Text, offset: nat, n: nat, v: Text, rest: Text) returns (end: nat)
    requires offset <= |payload| && n > 0 && payload[offset..] == Field(v) + rest
    ensures end <= |payload| && payload[end..] == rest
    ensures ReadFields(payload, offset, n) == Consed(v, ReadFields(payload, end, n - 1))
  {
    end := offset + |Field(v)|;
    SliceAfter(payload, offset, Field(v), rest);
    FieldIsRead(payload, offset, v, rest);
    ReadsOne(payload, offset, n, FieldRead(v, end));
  }

  lemma {:induction false} ReadsFirst(payload: Text, offset: nat, vs: seq<Text>) returns (end: nat)
    requires offset <= |payload| && vs != [] && payload[offset..] == Fields(vs)
    ensures end <= |payload| && payload[end..] == Fields(vs[1..])
    ensures ReadFields(payload, offset, |vs|) == Consed(vs[0], ReadFields(payload, end, |vs| - 1))
  {
    end := ReadsField(payload, offset, |vs|, vs[0], Fields(vs[1..]));
  }

  lemma {:induction false} ConsedTail(vs: seq<Text>, here: Option<seq<Text>>, later: Option<seq<Text>>)
    requires vs != [] && here == Consed(vs[0], later) && later == Some(vs[1..])
    ensures here == Some(vs)
  {
    assert vs == [vs[0]] + vs[1..];
  }

  lemma {:induction false} FieldsAreRead(payload: Text, offset: nat, vs: seq<Text>)
    requires offset <= |payload| && payload[offset..] == Fields(vs)
    ensures ReadFields(payload, offset, |vs|) == Some(vs)
    decreases |vs|
  {
    if vs != [] {
      var end := ReadsFirst(payload, offset, vs);
      var rest := vs[1..];
      FieldsAreRead(payload, end, rest);
      assert |rest| == |vs| - 1;
      ConsedTail(vs, ReadFields(payload, offset, |vs|), ReadFields(payload, end, |rest|));
    }
  }

  /** Decode every field. */
  function DecodeAll(vs: seq<Text>): (r: Option<seq<Text>>)
    ensures r.Some? ==> |r.value| == |vs|
  {
    if vs == [] then Some([])
    else
      var n := |vs| - 1;
      match DecodeAll(vs[..n])
      case None => None
      case Some(front) =>
        match Decode(vs[n])
        case None => None
        case Some(t) => Some(front + [t])
  }

  ghost predicate AllEncodable(ts: seq<Text>) {
    forall i :: 0 <= i < |ts| ==> Encodable(ts[i])
  }

  lemma {:induction false} EncodeAllSnoc(ts: seq<Text>)
    requires AllEncodable(ts) && ts != []
    ensures AllEncodable(ts[..|ts| - 1]) && EncodeAll(ts) == EncodeAll(ts[..|ts| - 1]) + [Encode(ts[|ts| - 1])]
  {
  }

  lemma {:induction false} DecodedSnoc(vs: seq<Text>, front: seq<Text>, last: Text)
    requires vs != [] && Encodable(last) && Encode(last) == vs[|vs| - 1]
    requires AllEncodable(front) && EncodeAll(front) == vs[..|vs| - 1]
    ensures AllEncodable(front + [last]) && EncodeAll(front + [last]) == vs
  {
    assert (front + [last])[..|front|] == front;
    EncodeAllSnoc(front + [last]);
    assert vs == vs[..|vs| - 1] + [vs[|vs| - 1]];
  }

  lemma {:induction false} DecodedAreEncoded(vs: seq<Text>)
    requires DecodeAll(vs).Some?
    ensures AllEncodable(DecodeAll(vs).value) && EncodeAll(DecodeAll(vs).value) == vs
  {
    if vs != [] {
      var n := |vs| - 1;
      DecodedAreEncoded(vs[..n]);
      EncodeDecoded(vs[n]);
      DecodedSnoc(vs, DecodeAll(vs[..n]).value, Decode(vs[n]).value);
    }
  }

  lemma {:induction false} DecodeAllSnoc(vs: seq<Text>, v: Text)
    ensures DecodeAll(vs + [v])
         == if DecodeAll(vs).None? || Decode(v).None? then None else Some(DecodeAll(vs).value + [Decode(v).value])
  {
    assert (vs + [v])[..|vs|] == vs;
  }

  lemma {:induction false} EncodedAreDecoded(ts: seq<Text>)
    requires AllEncodable(ts)
    ensures DecodeAll(EncodeAll(ts)) == Some(ts)
  {
    forall i | 0 <= i < |ts|
      ensures Decode(EncodeAll(ts)[i]) == Some(ts[i])
    {
      DecodeEncoded(ts[i]);
    }
    DecodeEach(EncodeAll(ts), ts);
  }

  lemma {:induction false} DecodeEach(vs: seq<Text>, ts: seq<Text>)
    requires |vs| == |ts| && forall i :: 0 <= i < |vs| ==> Decode(vs[i]) == Some(ts[i])
    ensures DecodeAll(vs) == Some(ts)
  {
    if vs != [] {
      var n := |vs| - 1;
      DecodeEach(vs[..n], ts[..n]);
      assert ts == ts[..n] + [ts[n]];
    }
  }

  /** Read a number of text fields up to the end of the payload. */
  function ReadTexts(payload: Text, n: nat): (r: Option<seq<Text>>)
    ensures r.Some? ==> |r.value| == n
  {
    match ReadFields(payload, 0, n)
    case None => None
    case Some(vs) =>
      ReadAreFields(payload, 0, n);
      DecodeAll(vs)
  }

  lemma {:induction false} ReadTextsAreFields(payload: Text, n: nat)
    requires ReadTexts(payload, n).Some?
    ensures AllEncodable(ReadTexts(payload, n).value) && payload == Fields(EncodeAll(ReadTexts(payload, n).value))
  {
    ReadAreFields(payload, 0, n);
    DecodedAreEncoded(ReadFields(payload, 0, n).value);
    assert payload[0..] == payload;
  }

  lemma {:induction false} FieldsAreReadTexts(payload: Text, ts: seq<Text>)
    requires AllEncodable(ts) && payload == Fields(EncodeAll(ts))
    ensures ReadTexts(payload, |ts|) == Some(ts)
  {
    assert payload[0..] == payload;
    FieldsAreRead(payload, 0, EncodeAll(ts));
    EncodedAreDecoded(ts);
  }

  // ---- decoding --------------------------------------------------------------------------

  /** `_parse_canonical_ascii_integer`. */
  function ParseInteger(t: Text): (r: Result<nat>) {
    if !IsCanonicalDecimal(t) then IdentityError
    else if |t| > MAX_DIGITS then NumberTooLong
    else Ok(Number(t))
  }

  /** The checks made once the five fields are read. */
  function WaitOf(ts: seq<Text>): (r: Result<Wait>)
    requires |ts| == 5
  {
    if ts[0] != MARKER then IdentityError
    else
      match ParseInteger(ts[2])
      case IdentityError => IdentityError
      case NumberTooLong => NumberTooLong
      case Ok(sequence) =>
        match ParseInteger(ts[3])
        case IdentityError => IdentityError
        case NumberTooLong => NumberTooLong
        case Ok(revision) =>
          var w := Wait(ts[1], sequence, revision, ts[4]);
          if ValidWait(w) then Ok(w) else IdentityError
  }

  function DecodeWait(payload: Text): (r: Result<Wait>) {
    if |payload| > MAX_ENCODED_BYTES then IdentityError
    else
      match ReadTexts(payload, 5)
      case None => IdentityError
      case Some(ts) => WaitOf(ts)
  }

  function Prepend(front: seq<Text>, rest: Option<seq<Text>>): (r: Option<seq<Text>>) {
    if rest.None? then None else Some(front + rest.value)
  }

  /** The fields read so far and those still to come. */
  ghost predicate Reading(payload: Text, n: nat, raw: seq<Text>, fields: seq<Text>, offset: nat, i: nat) {
    && i <= n && offset <= |payload| && |raw| == i
    && DecodeAll(raw) == Some(fields)
    && ReadFields(payload, 0, n) == Prepend(raw, ReadFields(payload, offset, n - i))
  }

  lemma {:induction false} ReadingStops(payload: Text, n: nat, raw: seq<Text>, fields: seq<Text>, offset: nat, i: nat)
    requires Reading(payload, n, raw, fields, offset, i) && i < n
    requires ReadField(payload, offset).None? || Decode(ReadField(payload, offset).value.value).None?
    ensures ReadTexts(payload, n).None?
  {
    if ReadField(payload, offset).Some? {
      var field := ReadField(payload, offset).value;
      var rest := ReadFields(payload, field.end, n - i - 1);
      if rest.Some? {
        DecodeAllSnoc(raw, field.value);
        DecodeAllPrefix(raw + [field.value], rest.value);
        Regroup(raw, field.value, rest.value);
      }
    }
  }

  lemma {:induction false} Regroup(raw: seq<Text>, v: Text, rest: seq<Text>)
    ensures raw + ([v] + rest) == raw + [v] + rest
  {
  }

  lemma {:induction false} PrependSnoc(raw: seq<Text>, v: Text, later: Option<seq<Text>>)
    ensures Prepend(raw, Consed(v, later)) == Prepend(raw + [v], later)
  {
    if later.Some? {
      Regroup(raw, v, later.value);
    }
  }

  lemma {:induction false} ReadingNext(payload: Text, n: nat, raw: seq<Text>, fields: seq<Text>, offset: nat, i: nat,
                                       field: FieldRead, t: Text)
    requires Reading(payload, n, raw, fields, offset, i) && i < n
    requires ReadField(payload, offset) == Some(field) && Decode(field.value) == Some(t)
    ensures Reading(payload, n, raw + [field.value], fields + [t], field.end, i + 1)
  {
    ReadsOne(payload, offset, n - i, field);
    DecodeAllSnoc(raw, field.value);
    PrependSnoc(raw, field.value, ReadFields(payload, field.end, n - i - 1));
  }

  lemma {:induction false} DecodeAllPrefix(front: seq<Text>, rest: seq<Text>)
    ensures DecodeAll(front).None? ==> DecodeAll(front + rest).None?
  {
    if rest == [] {
      assert front + rest == front;
    } else {
      var n := |rest| - 1;
      DecodeAllPrefix(front, rest[..n]);
      assert (front + rest)[..|front + rest| - 1] == front + rest[..n];
    }
  }

  lemma {:induction false} ReadingDone(payload: Text, n: nat, raw: seq<Text>, fields: seq<Text>, offset: nat)
    requires Reading(payload, n, raw, fields, offset, n)
    ensures ReadTexts(payload, n) == if offset == |payload| then Some(fields) else None
  {
    assert raw + [] == raw;
  }

  /** The parsing loop. */
  method Decoded(payload: Text) returns (r: Result<Wait>)
    ensures r == DecodeWait(payload)
  {
    if |payload| > MAX_ENCODED_BYTES {
      return IdentityError;
    }
    var fields := ReadLoop(payload, 5);
    if fields.None? {
      return IdentityError;
    }
    return WaitOf(fields.value);
  }

  method ReadLoop(payload: Text, n: nat) returns (r: Option<seq<Text>>)
    ensures r == ReadTexts(payload, n)
  {
    var fields: seq<Text> := [];
    ghost var raw: seq<Text> := [];
    var offset, i := 0, 0;
    ReadingStarts(payload, n);
    while i < n
      invariant 0 <= i <= n && 0 <= offset <= |payload|
      invariant Reading(payload, n, raw, fields, offset, i)
    {
      var field := ReadField(payload, offset);
      if field.None? {
        ReadingStops(payload, n, raw, fields, offset, i);
        return None;
      }
      var t := Decode(field.value.value);
      if t.None? {
        ReadingStops(payload, n, raw, fields, offset, i);
        return None;
      }
      ReadingNext(payload, n, raw, fields, offset, i, field.value, t.value);
      raw, fields := raw + [field.value.value], fields + [t.value];
      offset := field.value.end;
      i := i + 1;
    }
    ReadingDone(payload, n, raw, fields, offset);
    if offset != |payload| {
      return None;
    }
    return Some(fields);
  }

  lemma {:induction false} ReadingStarts(payload: Text, n: nat)
    ensures Reading(payload, n, [], [], 0, 0)
  {
    var whole := ReadFields(payload, 0, n);
    assert whole.Some? ==> [] + whole.value == whole.value;
  }

  // ---- the codec is a bijection on its accepted set --------------------------------------

  lemma {:induction false} FieldLength(v: Text)
    ensures |Field(v)| > |v|
  {
  }

  lemma {:induction false} FieldsLength(vs: seq<Text>, i: nat)
    requires i < |vs|
    ensures |Fields(vs)| > |vs[i]|
  {
    FieldLength(vs[0]);
    if i > 0 {
      FieldsLength(vs[1..], i - 1);
    }
  }

  /** A wait fits exactly when its bytes do; its numbers are then short enough to print. */
  lemma {:induction false} FittingNumbersAreShort(w: Wait)
    requires ValidWait(w) && |WaitBytes(w)| <= MAX_ENCODED_BYTES
    ensures |Digits(w.sequence)| < MAX_ENCODED_BYTES && |Digits(w.revision)| < MAX_ENCODED_BYTES
  {
    FieldsAreEncodable(w);
    var all := EncodeAll(WaitFields(w));
    FieldsLength(all, 2);
    FieldsLength(all, 3);
  }

  lemma {:induction false} FittingEncodes(w: Wait)
    requires ValidWait(w)
    ensures EncodeWait(w).Ok? <==> |WaitBytes(w)| <= MAX_ENCODED_BYTES
  {
    if |WaitBytes(w)| <= MAX_ENCODED_BYTES {
      FittingNumbersAreShort(w);
      assert |Digits(w.sequence)| <= MAX_DIGITS && |Digits(w.revision)| <= MAX_DIGITS;
    }
  }

  /** When encoding succeeds, and when the runtime's error escapes: from the 4300th power of ten on. */
  lemma {:induction false} EncodingOutcome(w: Wait, limit: nat)
    requires ValidWait(w) && limit == 4300
    ensures EncodeWait(w).Ok? <==> |WaitBytes(w)| <= 4096
    ensures EncodeWait(w).NumberTooLong? <==> w.sequence >= Pow10(limit) || w.revision >= Pow10(limit)
  {
    FittingEncodes(w);
    LongNumbers(w.sequence, limit);
    LongNumbers(w.revision, limit);
  }

  /** The bytes of a wait: the format tag and its four parts, each behind its own length. */
  lemma {:induction false} WaitFormat(w: Wait)
    requires ValidWait(w)
    ensures Encodable(w.stream) && Encodable(w.wake)
    ensures WaitBytes(w) == Fields([Tag("mote.observe.wait.v1"), Encode(w.stream), Digits(w.sequence),
                                    Digits(w.revision),
                                    Encode(w.wake)])
  {
    FieldsAreEncodable(w);
    MarkerIsAscii();
    AsciiIsItself(MARKER);
    DigitsAreAscii(w.sequence);
    DigitsAreAscii(w.revision);
    AsciiIsItself(Digits(w.sequence));
    AsciiIsItself(Digits(w.revision));
    assert EncodeAll(WaitFields(w))
        == [MARKER, Encode(w.stream), Digits(w.sequence), Digits(w.revision), Encode(w.wake)];
  }

  function Pow10(k: nat): (n: nat)
    ensures n >= 1
  {
    if k == 0 then 1 else 10 * Pow10(k - 1)
  }

  /** A number has more than k digits exactly from the k-th power of ten on. */
  lemma {:induction false} LongNumbers(n: nat, k: nat)
    requires k >= 1
    ensures |Digits(n)| > k <==> n >= Pow10(k)
  {
    if k == 1 {
      assert Pow10(1) == 10 * Pow10(0);
    } else if n >= 10 {
      LongNumbers(n / 10, k - 1);
    }
  }

  /** A valid wait that leaks the number-size error of the runtime. */
  lemma {:induction false} HugeNumberEscapes(k: nat)
    requires k >= MAX_DIGITS
    ensures ValidWait(Wait([97], Pow10(k), 0, [97])) && EncodeWait(Wait([97], Pow10(k), 0, [97])) == NumberTooLong
  {
    AsciiIsItself([97]);
    LongNumbers(Pow10(k), k);
  }

  /** Whatever encodes decodes to itself. */
  lemma {:induction false} DecodeEncodedWait(w: Wait)
    requires ValidWait(w) && EncodeWait(w).Ok?
    ensures DecodeWait(EncodeWait(w).value) == Ok(w)
  {
    FieldsAreEncodable(w);
    FieldsAreReadTexts(WaitBytes(w), WaitFields(w));
    FittingNumbersAreShort(w);
    FieldsGiveWait(w);
    DecodedFields(WaitBytes(w), WaitFields(w));
  }

  lemma {:induction false} DecodedFields(payload: Text, ts: seq<Text>)
    requires |payload| <= MAX_ENCODED_BYTES && |ts| == 5 && ReadTexts(payload, |ts|) == Some(ts)
    ensures DecodeWait(payload) == WaitOf(ts)
  {
  }

  lemma {:induction false} FieldsGiveWait(w: Wait)
    requires ValidWait(w) && |Digits(w.sequence)| <= MAX_DIGITS && |Digits(w.revision)| <= MAX_DIGITS
    ensures WaitOf(WaitFields(w)) == Ok(w)
  {
    NumberOfDigits(w.sequence);
    NumberOfDigits(w.revision);
  }

  lemma {:induction false} WaitGivesFields(ts: seq<Text>)
    requires |ts| == 5 && WaitOf(ts).Ok?
    ensures ValidWait(WaitOf(ts).value) && WaitFields(WaitOf(ts).value) == ts
  {
    ParsedDigits(ts[2]);
    ParsedDigits(ts[3]);
  }

  lemma {:induction false} ParsedDigits(t: Text)
    requires ParseInteger(t).Ok?
    ensures Digits(ParseInteger(t).value) == t
  {
    DigitsOfNumber(t);
  }

  /** Whatever decodes is the encoding of what it decodes to. */
  lemma {:induction false} EncodeDecodedWait(payload: Text)
    requires DecodeWait(payload).Ok?
    ensures ValidWait(DecodeWait(payload).value) && EncodeWait(DecodeWait(payload).value) == Ok(payload)
  {
    var ts := ReadTexts(payload, 5).value;
    ReadTextsAreFields(payload, 5);
    WaitGivesFields(ts);
    FittingEncodes(DecodeWait(payload).value);
  }

  /** Decoding any byte string either succeeds or reports the contract error. */
  lemma {:induction false} DecodingIsTotal(payload: Text)
    ensures DecodeWait(payload).Ok? || DecodeWait(payload).IdentityError?
  {
    if |payload| <= MAX_ENCODED_BYTES && ReadTexts(payload, 5).Some? {
      var ts := ReadTexts(payload, 5).value;
      ReadTextsAreFields(payload, 5);
      ShortField(ts, 2);
      ShortField(ts, 3);
      ShortNumbers(ts);
    }
  }

  lemma {:induction false} ShortNumbers(ts: seq<Text>)
    requires |ts| == 5 && |ts[2]| <= MAX_DIGITS && |ts[3]| <= MAX_DIGITS
    ensures !WaitOf(ts).NumberTooLong?
  {
  }

  lemma {:induction false} ShortField(ts: seq<Text>, i: nat)
    requires AllEncodable(ts) && i < |ts|
    ensures |ts[i]| < |Fields(EncodeAll(ts))|
  {
    FieldsLength(EncodeAll(ts), i);
    EncodingIsLonger(ts[i]);
  }

  lemma {:induction false} EncodingIsLonger(t: Text)
    requires Encodable(t)
    ensures |t| <= |Encode(t)|
  {
    if t != [] {
      EncodingIsLonger(t[1..]);
    }
  }
}
