/** Scoped coordinates and the canonical frame segments ordered by them. */
module FrameIndex {
  import opened Sorted
  import opened Identity

  /** Facts guarded by a seal enter a proof only where the seal is broken, which keeps the many proofs
      that merely pass them on small. */
  datatype Seal = Seal {
    predicate Broken() { true }
  }

  datatype Option<+T> = None | Some(value: T)

  // ---- coordinates -----------------------------------------------------------------------

  datatype ScopeRun = ScopeRun(scope: seq<Text>, run: Text)

  /** The state-owned identity of one node activation. */
  datatype Activation = Activation(run: Text, superstep: nat, node: Text)

  /** The same activation under its scoped lookup key. */
  datatype StableActivation = StableActivation(at: ScopeRun, superstep: nat, node: Text)

  function Stable(at: ScopeRun, a: Activation): (s: StableActivation) {
    StableActivation(at, a.superstep, a.node)
  }

  function RootScopeRun(run: Text): (at: ScopeRun) { ScopeRun([], run) }

  function ChildScopeRun(parent: ScopeRun, superstep: nat, node: Text): (child: ScopeRun) {
    ScopeRun(parent.scope + [node], ChildRunId(parent.run, superstep, node))
  }

  /** A child coordinate determines the parent activation that owns it. */
  lemma {:induction false} ChildScopeRunInjective(p: ScopeRun, s: nat, n: Text, q: ScopeRun, t: nat, m: Text)
    requires ChildScopeRun(p, s, n) == ChildScopeRun(q, t, m)
    ensures p == q && s == t && n == m
  {
    ChildRunIdInjective(p.run, s, n, q.run, t, m);
    assert p.scope == (p.scope + [n])[..|p.scope + [n]| - 1];
    assert q.scope == (q.scope + [m])[..|q.scope + [m]| - 1];
  }

  predicate ScopeRunLess(a: ScopeRun, b: ScopeRun) {
    ScopeLess(a.scope, b.scope) || (a.scope == b.scope && TextLess(a.run, b.run))
  }

  lemma {:induction false} ScopeRunOrder()
    ensures StrictTotal(ScopeRunLess)
  {
    TextOrder();
    ScopeOrder();
  }

  /** The empty scope precedes every nested one. */
  lemma {:induction false} RootPrecedesNested(root: ScopeRun, nested: ScopeRun)
    requires root.scope == [] && nested.scope != []
    ensures ScopeRunLess(root, nested)
  {
  }

  predicate ActivationLess(a: StableActivation, b: StableActivation) {
    || ScopeRunLess(a.at, b.at)
    || (a.at == b.at && a.superstep < b.superstep)
    || (a.at == b.at && a.superstep == b.superstep && TextLess(a.node, b.node))
  }

  datatype Coordinate =
    | GraphInputAt(at: ScopeRun, descriptor: nat)
    | PublicationAt(activation: StableActivation, descriptor: nat)
    | ResumeInputAt(activation: StableActivation, descriptor: nat)
    | ChildBoundaryAt(child: ScopeRun, descriptor: nat)
  {
    /** The scoped run a boundary coordinate names. */
    function Child(): (at: ScopeRun) {
      Place(this).at
    }
  }

  function Rank(c: Coordinate): (r: nat) {
    match c
    case GraphInputAt(_, _) => 0
    case PublicationAt(_, _) => 1
    case ResumeInputAt(_, _) => 2
    case ChildBoundaryAt(_, _) => 3
  }

  function Place(c: Coordinate): (a: StableActivation) {
    match c
    case GraphInputAt(at, _) => StableActivation(at, 0, [])
    case PublicationAt(a, _) => a
    case ResumeInputAt(a, _) => a
    case ChildBoundaryAt(child, _) => StableActivation(child, 0, [])
  }

  /** Within one segment this is the field-by-field order of the coordinate dataclasses. */
  predicate CoordinateLess(a: Coordinate, b: Coordinate) {
    || Rank(a) < Rank(b)
    || (Rank(a) == Rank(b) && ActivationLess(Place(a), Place(b)))
    || (Rank(a) == Rank(b) && Place(a) == Place(b) && a.descriptor < b.descriptor)
  }

  lemma {:induction false} ActivationOrder()
    ensures StrictTotal(ActivationLess)
  {
    TextOrder();
    ScopeRunOrder();
  }

  lemma {:induction false} CoordinateOrder()
    ensures StrictTotal(CoordinateLess)
  {
    ActivationOrder();
  }

  // ---- one segment -----------------------------------------------------------------------

  datatype Record<+V> = Record(coordinate: Coordinate, value: V)

  function Keys<V>(records: seq<Record<V>>): (keys: seq<Coordinate>)
    ensures |keys| == |records|
    ensures forall i :: 0 <= i < |records| ==> keys[i] == records[i].coordinate
  {
    seq(|records|, i requires 0 <= i < |records| => records[i].coordinate)
  }

  ghost predicate Canonical<V>(records: seq<Record<V>>) {
    Ascending(CoordinateLess, Keys(records))
  }

  ghost predicate DistinctKeys<V>(records: seq<Record<V>>) {
    forall i, j :: 0 <= i < j < |records| ==> records[i].coordinate != records[j].coordinate
  }

  /** The map a list of records stands for. */
  ghost function AsMap<V>(records: seq<Record<V>>): (m: map<Coordinate, V>) {
    if records == [] then map[] else AsMap(records[1..])[records[0].coordinate := records[0].value]
  }

  predicate Has<V>(records: seq<Record<V>>, c: Coordinate) {
    exists i :: 0 <= i < |records| && records[i].coordinate == c
  }

  /** Insert one record at its canonical position; a repeated coordinate is rejected. */
  function Insert<V>(records: seq<Record<V>>, record: Record<V>): (r: Option<seq<Record<V>>>) {
    if Has(records, record.coordinate) then None
    else
      var p := Bisect(CoordinateLess, Keys(records), record.coordinate, 0, |records|);
      Some(records[..p] + [record] + records[p..])
  }

  /** The loop that adds records one by one; it stops at the first repeated coordinate. */
  function InsertAll<V>(records: seq<Record<V>>, more: seq<Record<V>>): (r: Option<seq<Record<V>>>)
    decreases more
  {
    if more == [] then Some(records)
    else
      match Insert(records, more[0])
      case None => None
      case Some(next) => InsertAll(next, more[1..])
  }

  // ---- segments refine maps --------------------------------------------------------------

  lemma {:induction false} CanonicalIsDistinct<V>(records: seq<Record<V>>)
    requires Canonical(records)
    ensures DistinctKeys(records)
  {
    CoordinateOrder();
    forall i, j | 0 <= i < j < |records|
      ensures records[i].coordinate != records[j].coordinate
    {
      assert CoordinateLess(Keys(records)[i], Keys(records)[j]);
    }
  }

  /** A list without repeated coordinates and its map have the same entries. */
  lemma {:induction false} MapEntries<V>(records: seq<Record<V>>)
    requires DistinctKeys(records)
    ensures forall r :: r in records ==> r.coordinate in AsMap(records) && AsMap(records)[r.coordinate] == r.value
    ensures forall c :: c in AsMap(records) ==> Record(c, AsMap(records)[c]) in records
  {
    if records != [] {
      var first, rest := records[0], records[1..];
      assert forall i :: 0 <= i < |rest| ==> rest[i] == records[i + 1];
      MapEntries(rest);
      assert records == [first] + rest;
      forall r | r in records
        ensures r.coordinate in AsMap(records) && AsMap(records)[r.coordinate] == r.value
      {
        assert r == first || (r in rest && r.coordinate != first.coordinate);
      }
    }
  }

  lemma {:induction false} HasInMap<V>(records: seq<Record<V>>, c: Coordinate)
    requires DistinctKeys(records)
    ensures Has(records, c) <==> c in AsMap(records)
  {
    MapEntries(records);
    if Has(records, c) {
      var i :| 0 <= i < |records| && records[i].coordinate == c;
      assert records[i] in records;
    }
    if c in AsMap(records) {
      assert Record(c, AsMap(records)[c]) in records;
    }
  }

  lemma {:induction false} SameEntriesSameMap<V>(a: seq<Record<V>>, b: seq<Record<V>>)
    requires DistinctKeys(a) && DistinctKeys(b)
    requires forall r :: r in a <==> r in b
    ensures AsMap(a) == AsMap(b)
  {
    MapEntries(a);
    MapEntries(b);
    forall c
      ensures c in AsMap(a) ==> c in AsMap(b) && AsMap(a)[c] == AsMap(b)[c]
      ensures c in AsMap(b) ==> c in AsMap(a)
    {
      if c in AsMap(a) {
        assert Record(c, AsMap(a)[c]) in a;
      }
      if c in AsMap(b) {
        assert Record(c, AsMap(b)[c]) in b;
      }
    }
  }

  /** A canonical segment is determined by its entries. */
  lemma {:induction false} CanonicalUnique<V>(a: seq<Record<V>>, b: seq<Record<V>>)
    requires Canonical(a) && Canonical(b)
    requires forall r :: r in a <==> r in b
    ensures a == b
  {
    forall c
      ensures c in Keys(a) <==> c in Keys(b)
    {
      KeyMembers(a, c);
      KeyMembers(b, c);
    }
    CoordinateOrder();
    AscendingUnique(CoordinateLess, Keys(a), Keys(b));
    CanonicalIsDistinct(a);
    forall i | 0 <= i < |a|
      ensures a[i] == b[i]
    {
      assert Keys(a)[i] == Keys(b)[i];
      assert b[i] in a;
    }
  }

  lemma {:induction false} KeyMembers<V>(records: seq<Record<V>>, c: Coordinate)
    ensures c in Keys(records) <==> exists r :: r in records && r.coordinate == c
  {
    if c in Keys(records) {
      var i :| 0 <= i < |Keys(records)| && Keys(records)[i] == c;
      assert records[i] in records;
    }
    if r :| r in records && r.coordinate == c {
      var i :| 0 <= i < |records| && records[i] == r;
      assert Keys(records)[i] == c;
    }
  }

  lemma {:induction false} SplitMembers<T>(s: seq<T>, p: nat, x: T)
    requires p <= |s|
    ensures forall y :: y in s[..p] + [x] + s[p..] <==> y in s || y == x
  {
    assert s == s[..p] + s[p..];
  }

  /** Insertion fails exactly on a repeated coordinate; otherwise the segment stays canonical and
      gains exactly the new record. */
  lemma {:induction false} InsertSpec<V>(records: seq<Record<V>>, record: Record<V>)
    requires Canonical(records)
    ensures Insert(records, record).None? <==> Has(records, record.coordinate)
    ensures Insert(records, record).Some? ==>
              && Canonical(Insert(records, record).value)
              && forall r :: r in Insert(records, record).value <==> r in records || r == record
  {
    if !Has(records, record.coordinate) {
      var keys, c := Keys(records), record.coordinate;
      var p := Bisect(CoordinateLess, keys, c, 0, |records|);
      assert c !in keys;
      CoordinateOrder();
      InsertAscending(CoordinateLess, keys, c);
      InsertedKeys(records, p, record);
      SplitMembers(records, p, record);
    }
  }

  lemma {:induction false} InsertedKeys<V>(records: seq<Record<V>>, p: nat, record: Record<V>)
    requires p <= |records|
    ensures Keys(records[..p] + [record] + records[p..])
         == Keys(records)[..p] + [record.coordinate] + Keys(records)[p..]
  {
  }

  /** In terms of maps: one insertion adds one binding. */
  lemma {:induction false} InsertRefinesMap<V>(records: seq<Record<V>>, record: Record<V>)
    requires Canonical(records)
    ensures Insert(records, record).None? <==> record.coordinate in AsMap(records)
    ensures Insert(records, record).Some? ==>
              AsMap(Insert(records, record).value) == AsMap(records)[record.coordinate := record.value]
  {
    InsertSpec(records, record);
    CanonicalIsDistinct(records);
    HasInMap(records, record.coordinate);
    if Insert(records, record).Some? {
      var out := Insert(records, record).value;
      CanonicalIsDistinct(out);
      var listed := [record] + records;
      assert forall i :: 0 <= i < |records| ==> records[i].coordinate != record.coordinate;
      assert DistinctKeys(listed);
      SameEntriesSameMap(out, listed);
      assert listed[1..] == records;
    }
  }

  ghost predicate AllNew<V>(records: seq<Record<V>>, more: seq<Record<V>>) {
    forall i :: 0 <= i < |more| ==> !Has(records, more[i].coordinate)
  }

  /** Adding a list succeeds exactly when its coordinates are new and distinct, and then yields the
      canonical segment holding exactly the old and the new records. */
  lemma {:induction false} InsertAllSpec<V>(records: seq<Record<V>>, more: seq<Record<V>>)
    requires Canonical(records)
    ensures InsertAll(records, more).Some? <==> DistinctKeys(more) && AllNew(records, more)
    ensures InsertAll(records, more).Some? ==>
              && Canonical(InsertAll(records, more).value)
              && forall r :: r in InsertAll(records, more).value <==> r in records || r in more
    decreases more
  {
    if more != [] {
      var first, rest := more[0], more[1..];
      assert more == [first] + rest;
      InsertSpec(records, first);
      match Insert(records, first)
      case None =>
        assert !AllNew(records, more);
      case Some(next) =>
        InsertAllSpec(next, rest);
        NewAfterInsert(records, next, first, more);
    }
  }

  lemma {:induction false} NewAfterInsert<V>(records: seq<Record<V>>, next: seq<Record<V>>, first: Record<V>,
                                             more: seq<Record<V>>)
    requires more != [] && more[0] == first && !Has(records, first.coordinate)
    requires forall r :: r in next <==> r in records || r == first
    ensures DistinctKeys(more) && AllNew(records, more) <==> DistinctKeys(more[1..]) && AllNew(next, more[1..])
  {
    var rest := more[1..];
    assert forall i :: 0 < i < |more| ==> more[i] == rest[i - 1];
    forall c
      ensures Has(next, c) <==> Has(records, c) || c == first.coordinate
    {
      HasMembers(records, c);
      HasMembers(next, c);
    }
    if DistinctKeys(rest) && AllNew(next, rest) {
      forall i, j | 0 <= i < j < |more|
        ensures more[i].coordinate != more[j].coordinate
      {
        assert !Has(next, rest[j - 1].coordinate);
        assert i > 0 ==> more[i] == rest[i - 1];
      }
    }
    if DistinctKeys(more) && AllNew(records, more) {
      forall i | 0 <= i < |rest|
        ensures !Has(next, rest[i].coordinate)
      {
        assert more[0].coordinate != more[i + 1].coordinate;
      }
    }
  }

  lemma {:induction false} InsertedMembers<V>(records: seq<Record<V>>, more: seq<Record<V>>)
    returns (out: seq<Record<V>>)
    requires Canonical(records) && InsertAll(records, more).Some?
    ensures InsertAll(records, more) == Some(out) && Canonical(out)
    ensures DistinctKeys(more) && AllNew(records, more)
    ensures forall r :: r in out <==> r in records || r in more
  {
    InsertAllSpec(records, more);
    out := InsertAll(records, more).value;
  }

  lemma {:induction false} HasMembers<V>(records: seq<Record<V>>, c: Coordinate)
    ensures Has(records, c) <==> exists r :: r in records && r.coordinate == c
  {
    if Has(records, c) {
      var i :| 0 <= i < |records| && records[i].coordinate == c;
      assert records[i] in records;
    }
  }

  /** The result of adding records does not depend on the order in which they arrive. */
  lemma {:induction false} InsertionOrderIsIrrelevant<V>(records: seq<Record<V>>, a: seq<Record<V>>, b: seq<Record<V>>)
    requires Canonical(records) && multiset(a) == multiset(b)
    ensures InsertAll(records, a) == InsertAll(records, b)
  {
    InsertAllSpec(records, a);
    InsertAllSpec(records, b);
    PermutedKeys(a, b);
    PermutedKeys(b, a);
    SameMembers(a, b);
    assert AllNew(records, a) <==> forall r :: r in a ==> !Has(records, r.coordinate);
    assert AllNew(records, b) <==> forall r :: r in b ==> !Has(records, r.coordinate);
    if InsertAll(records, a).Some? {
      CanonicalUnique(InsertAll(records, a).value, InsertAll(records, b).value);
    }
  }

  lemma {:induction false} SameMembers<T>(a: seq<T>, b: seq<T>)
    requires multiset(a) == multiset(b)
    ensures forall x :: x in a <==> x in b
  {
    forall x
      ensures x in a <==> x in b
    {
      assert x in a <==> x in multiset(a);
    }
  }

  lemma {:induction false} PermutedKeys<V>(a: seq<Record<V>>, b: seq<Record<V>>)
    requires multiset(a) == multiset(b)
    ensures DistinctKeys(a) ==> DistinctKeys(b)
  {
    if DistinctKeys(a) {
      forall i, j | 0 <= i < j < |b|
        ensures b[i].coordinate != b[j].coordinate
      {
        assert b[i] in multiset(a) && b[j] in multiset(a);
        if b[i] == b[j] {
          TwiceInMultiset(b, i, j);
          OnceWhenDistinct(a, b[i]);
        }
      }
    }
  }

  lemma {:induction false} TwiceInMultiset<T>(s: seq<T>, i: nat, j: nat)
    requires i < j < |s| && s[i] == s[j]
    ensures multiset(s)[s[i]] >= 2
  {
    assert s == s[..i] + [s[i]] + s[i + 1..j] + [s[j]] + s[j + 1..];
  }

  lemma {:induction false} OnceWhenDistinct<V>(a: seq<Record<V>>, r: Record<V>)
    requires DistinctKeys(a)
    ensures multiset(a)[r] <= 1
  {
    if a != [] {
      OnceWhenDistinct(a[1..], r);
      assert a == [a[0]] + a[1..];
      assert forall i :: 0 <= i < |a[1..]| ==> a[1..][i].coordinate != a[0].coordinate;
    }
  }
}
