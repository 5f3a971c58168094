/** Self-delimiting identities: decimal numbers, `len:value` fields and the ids built from them. */
module Identity {
  import opened Sorted

  // ---- decimal numbers -------------------------------------------------------------------

  predicate IsDigits(d: Text) {
    forall i :: 0 <= i < |d| ==> 48 <= d[i] <= 57
  }

  /** The texts `str` produces for a non-negative integer: digits without a leading zero. */
  predicate IsCanonicalDecimal(d: Text) {
    d != [] && IsDigits(d) && (|d| > 1 ==> d[0] != 48)
  }

  /** `str(n)`. */
  function Digits(n: nat): (d: Text)
    ensures IsCanonicalDecimal(d)
    ensures n > 0 ==> d[0] != 48
  {
    if n < 10 then [48 + n] else Digits(n / 10) + [48 + n % 10]
  }

  /** `int(d)`. */
  function Number(d: Text): (n: nat)
    requires IsDigits(d)
  {
    if d == [] then 0 else 10 * Number(d[..|d| - 1]) + (d[|d| - 1] - 48)
  }

  lemma {:induction false} NumberOfDigits(n: nat)
    ensures Number(Digits(n)) == n
  {
    if n < 10 {
      assert Digits(n)[..0] == [];
    } else {
      NumberOfDigits(n / 10);
      assert Digits(n)[..|Digits(n)| - 1] == Digits(n / 10);
    }
  }

  lemma {:induction false} LeadingDigitIsPositive(d: Text)
    requires IsDigits(d) && d != [] && d[0] != 48
    ensures Number(d) > 0
  {
    if |d| > 1 {
      LeadingDigitIsPositive(d[..|d| - 1]);
    } else {
      assert d[..0] == [];
    }
  }

  lemma {:induction false} DigitsOfNumber(d: Text)
    requires IsCanonicalDecimal(d)
    ensures Digits(Number(d)) == d
  {
    var front := d[..|d| - 1];
    assert d == front + [d[|d| - 1]];
    if front != [] {
      DigitsOfNumber(front);
      LeadingDigitIsPositive(front);
      assert Number(d) / 10 == Number(front) && Number(d) % 10 == d[|d| - 1] - 48;
    }
  }

  lemma {:induction false} DigitsInjective(m: nat, n: nat)
    requires Digits(m) == Digits(n)
    ensures m == n
  {
    NumberOfDigits(m);
    NumberOfDigits(n);
  }

  // ---- splitting at the first separator --------------------------------------------------

  /** `payload.find(c, from)`: the first position of `c` at or after `from`, or -1. */
  function Find(t: Text, c: int, from: nat): (p: int)
    requires from <= |t|
    ensures p == -1 || from <= p < |t|
    ensures p >= 0 ==> t[p] == c
    ensures forall i :: from <= i < (if p >= 0 then p else |t|) ==> t[i] != c
    decreases |t| - from
  {
    if from == |t| then -1 else if t[from] == c then from else Find(t, c, from + 1)
  }

  lemma {:induction false} FirstSeparator(c: int, a: Text, u: Text, t: Text)
    requires c !in a && t == a + [c] + u
    ensures Find(t, c, 0) == |a| && t[..|a|] == a && t[|a| + 1..] == u
  {
    assert t[|a|] == c;
    assert forall i :: 0 <= i < |a| ==> t[i] == a[i] && a[i] in a;
  }

  lemma {:induction false} SplitAtSeparator(c: int, a: Text, u: Text, b: Text, v: Text)
    requires c !in a && c !in b
    requires a + [c] + u == b + [c] + v
    ensures a == b && u == v
  {
    FirstSeparator(c, a, u, a + [c] + u);
    FirstSeparator(c, b, v, a + [c] + u);
  }

  // ---- length-prefixed fields ------------------------------------------------------------

  const COLON := 58

  function Field(value: Text): (f: Text) {
    Digits(|value|) + [COLON] + value
  }

  function Fields(values: seq<Text>): (f: Text) {
    if values == [] then [] else Field(values[0]) + Fields(values[1..])
  }

  lemma {:induction false} FieldIsSelfDelimiting(a: Text, x: Text, b: Text, y: Text)
    requires Field(a) + x == Field(b) + y
    ensures a == b && x == y
  {
    assert Field(a) + x == Digits(|a|) + [COLON] + (a + x);
    assert Field(b) + y == Digits(|b|) + [COLON] + (b + y);
    SplitAtSeparator(COLON, Digits(|a|), a + x, Digits(|b|), b + y);
    DigitsInjective(|a|, |b|);
    assert a == (a + x)[..|a|] && b == (b + y)[..|b|];
    assert x == (a + x)[|a|..] && y == (b + y)[|b|..];
  }

  /** A concatenation of fields can be read in one way only, whatever the field contents. */
  lemma {:induction false} FieldsInjective(xs: seq<Text>, ys: seq<Text>)
    requires Fields(xs) == Fields(ys)
    ensures xs == ys
  {
    if xs != [] && ys != [] {
      FieldIsSelfDelimiting(xs[0], Fields(xs[1..]), ys[0], Fields(ys[1..]));
      FieldsInjective(xs[1..], ys[1..]);
      assert xs == [xs[0]] + xs[1..] && ys == [ys[0]] + ys[1..];
    }
  }

  // ---- the identities of the kernel ------------------------------------------------------

  function Tag(s: string): (t: Text)
    ensures |t| == |s|
  {
    seq(|s|, i requires 0 <= i < |s| => s[i] as int)
  }

  function ChildRunId(parentRun: Text, superstep: nat, node: Text): (id: Text) {
    Fields([Tag("mote.child-graph-run.v1"), parentRun, Digits(superstep), node])
  }

  function InterruptId(run: Text, superstep: nat, node: Text, generation: nat): (id: Text) {
    Fields([Tag("mote.graph-node-interrupt.v1"), run, Digits(superstep), node, Digits(generation)])
  }

  function SettlementEventId(run: Text, scope: seq<Text>, superstep: nat, node: Text,
                             generation: nat, revision: nat): (id: Text)
  {
    Fields([Tag("mote.node-settlement-event.v1"), run, Digits(|scope|)] + scope
           + [Digits(superstep), node, Digits(generation), Digits(revision)])
  }

  datatype HookSlot = HookSlot(definition: Text, version: nat, node: Text, stage: Text)

  function HookDefinitionId(slot: HookSlot): (id: Text) {
    Fields([Tag("mote.hook.v1"), slot.definition, slot.node, slot.stage])
  }

  function FailoverDefinitionId(port: Text): (id: Text) {
    Fields([Tag("mote.failover.v1"), port])
  }

  lemma {:induction false} ChildRunIdInjective(r1: Text, s1: nat, n1: Text, r2: Text, s2: nat, n2: Text)
    requires ChildRunId(r1, s1, n1) == ChildRunId(r2, s2, n2)
    ensures r1 == r2 && s1 == s2 && n1 == n2
  {
    var t := Tag("mote.child-graph-run.v1");
    var xs, ys := [t, r1, Digits(s1), n1], [t, r2, Digits(s2), n2];
    FieldsInjective(xs, ys);
    assert xs[1] == ys[1] && xs[2] == ys[2] && xs[3] == ys[3];
    DigitsInjective(s1, s2);
  }

  lemma {:induction false} InterruptIdInjective(r1: Text, s1: nat, n1: Text, g1: nat, r2: Text, s2: nat, n2: Text,
                                                g2: nat)
    requires InterruptId(r1, s1, n1, g1) == InterruptId(r2, s2, n2, g2)
    ensures r1 == r2 && s1 == s2 && n1 == n2 && g1 == g2
  {
    var t := Tag("mote.graph-node-interrupt.v1");
    var xs, ys := [t, r1, Digits(s1), n1, Digits(g1)], [t, r2, Digits(s2), n2, Digits(g2)];
    FieldsInjective(xs, ys);
    assert xs[1] == ys[1] && xs[2] == ys[2] && xs[3] == ys[3] && xs[4] == ys[4];
    DigitsInjective(s1, s2);
    DigitsInjective(g1, g2);
  }

  /** Two settlement events share an idempotency key only when all six coordinates agree; the
      variable-length scope cannot be confused with the fields around it. */
  lemma {:induction false} SettlementEventIdInjective(r1: Text, c1: seq<Text>, s1: nat, n1: Text, g1: nat, v1: nat,
                                                      r2: Text, c2: seq<Text>, s2: nat, n2: Text, g2: nat, v2: nat)
    requires SettlementEventId(r1, c1, s1, n1, g1, v1) == SettlementEventId(r2, c2, s2, n2, g2, v2)
    ensures r1 == r2 && c1 == c2 && s1 == s2 && n1 == n2 && g1 == g2 && v1 == v2
  {
    var t := Tag("mote.node-settlement-event.v1");
    var h1, h2 := [t, r1, Digits(|c1|)], [t, r2, Digits(|c2|)];
    var e1, e2 := [Digits(s1), n1, Digits(g1), Digits(v1)], [Digits(s2), n2, Digits(g2), Digits(v2)];
    var xs, ys := h1 + c1 + e1, h2 + c2 + e2;
    FieldsInjective(xs, ys);
    assert h1[1] == xs[1] == ys[1] == h2[1];
    assert h1[2] == xs[2] == ys[2] == h2[2];
    DigitsInjective(|c1|, |c2|);
    assert c1 == xs[3..3 + |c1|] && c2 == ys[3..3 + |c2|];
    assert e1 == xs[3 + |c1|..] && e2 == ys[3 + |c2|..];
    assert e1[0] == e2[0] && e1[1] == e2[1] && e1[2] == e2[2] && e1[3] == e2[3];
    DigitsInjective(s1, s2);
    DigitsInjective(g1, g2);
    DigitsInjective(v1, v2);
  }

  /** The pair of definition id and version identifies a Hook slot. */
  lemma {:induction false} HookSlotIdentified(a: HookSlot, b: HookSlot)
    requires HookDefinitionId(a) == HookDefinitionId(b) && a.version == b.version
    ensures a == b
  {
    var t := Tag("mote.hook.v1");
    var xs, ys := [t, a.definition, a.node, a.stage], [t, b.definition, b.node, b.stage];
    FieldsInjective(xs, ys);
    assert xs[1] == ys[1] && xs[2] == ys[2] && xs[3] == ys[3];
  }

  lemma {:induction false} HookAndFailoverNeverCollide(slot: HookSlot, port: Text)
    ensures HookDefinitionId(slot) != FailoverDefinitionId(port)
  {
    if HookDefinitionId(slot) == FailoverDefinitionId(port) {
      FieldsInjective([Tag("mote.hook.v1"), slot.definition, slot.node, slot.stage],
                      [Tag("mote.failover.v1"), port]);
    }
  }

  lemma {:induction false} FailoverDefinitionIdInjective(p: Text, q: Text)
    requires FailoverDefinitionId(p) == FailoverDefinitionId(q)
    ensures p == q
  {
    var t := Tag("mote.failover.v1");
    FieldsInjective([t, p], [t, q]);
    assert [t, p][1] == [t, q][1];
  }

  // ---- the commitment pre-image ----------------------------------------------------------

  function CommitmentPreimage(domain: Text, metadata: Text, payload: Text): (image: Text) {
    domain + [0] + metadata + [0] + payload
  }

  /** The NUL-framed pre-image of an evidence commitment is unambiguous for every metadata printer
      that is injective and escapes NUL, as section 7 of RFC 8259 requires of JSON strings. */
  lemma {:induction false} CommitmentPreimageInjective<M(!new)>(json: M -> Text, d1: Text, m1: M, p1: Text,
                                                                d2: Text, m2: M, p2: Text)
    requires forall m :: 0 !in json(m)
    requires forall m, m' :: json(m) == json(m') ==> m == m'
    requires 0 !in d1 && 0 !in d2
    requires CommitmentPreimage(d1, json(m1), p1) == CommitmentPreimage(d2, json(m2), p2)
    ensures d1 == d2 && m1 == m2 && p1 == p2
  {
    var u, v := json(m1) + [0] + p1, json(m2) + [0] + p2;
    assert CommitmentPreimage(d1, json(m1), p1) == d1 + [0] + u;
    assert CommitmentPreimage(d2, json(m2), p2) == d2 + [0] + v;
    SplitAtSeparator(0, d1, u, d2, v);
    SplitAtSeparator(0, json(m1), p1, json(m2), p2);
  }
}
