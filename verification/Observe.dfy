/** Observation windows, their family projections, and receipts that settle a whole window. */
module Observe {
  import opened Sorted
  import opened FrameIndex

  // ---- deliveries ------------------------------------------------------------------------

  datatype Family = Config | Tool | User | Assistant

  datatype Cursor = Cursor(stream: Text, sequence: nat)

  datatype Delivery = Delivery(id: Text, before: Cursor, after: Cursor, family: Family, revision: nat)

  predicate ValidDelivery(d: Delivery) {
    d.before.stream == d.after.stream && d.before.sequence < d.after.sequence
  }

  ghost predicate DistinctIds(ds: seq<Delivery>) {
    forall i, j :: 0 <= i < j < |ds| ==> ds[i].id != ds[j].id
  }

  /** A complete window: one stream, one revision, contiguous cursors, distinct ids. */
  ghost predicate WindowAdmitted(ds: seq<Delivery>) {
    && ds != [] && (forall i :: 0 <= i < |ds| ==> ValidDelivery(ds[i]))
    && (forall i :: 0 < i < |ds| ==> Contiguous(ds, i))
    && DistinctIds(ds)
  }

  predicate Contiguous(ds: seq<Delivery>, i: nat)
    requires 0 < i < |ds|
  {
    ds[i].before.stream == ds[0].before.stream && ds[i].revision == ds[0].revision && ds[i].before == ds[i - 1].after
  }

  predicate InOrder(ds: seq<Delivery>, i: nat)
    requires 0 < i < |ds|
  {
    && ds[i].before.stream == ds[0].before.stream && ds[i].revision == ds[0].revision
    && ds[i].before.sequence >= ds[i - 1].after.sequence
  }

  /** A family batch: gaps are allowed, overlap and other families are not. */
  ghost predicate FamilyAdmitted(ds: seq<Delivery>, f: Family) {
    && ds != []
    && (forall i :: 0 < i < |ds| ==> InOrder(ds, i))
    && DistinctIds(ds)
    && (forall i :: 0 <= i < |ds| ==> ds[i].family == f)
  }

  function Project(ds: seq<Delivery>, f: Family): (part: seq<Delivery>) {
    if ds == [] then []
    else Project(ds[..|ds| - 1], f) + (if ds[|ds| - 1].family == f then [ds[|ds| - 1]] else [])
  }

  // ---- projections -----------------------------------------------------------------------

  /** Positions that pick a subsequence in order. */
  ghost predicate Embedding<T>(at: seq<nat>, a: seq<T>, b: seq<T>) {
    && |at| == |a|
    && (forall i, j :: 0 <= i < j < |at| ==> at[i] < at[j])
    && (forall i :: 0 <= i < |at| ==> at[i] < |b| && b[at[i]] == a[i])
  }

  ghost predicate Embeds<T>(a: seq<T>, b: seq<T>) {
    exists at: seq<nat> :: Embedding(at, a, b)
  }

  /** The positions of one family in a window. */
  function Positions(ds: seq<Delivery>, f: Family): (at: seq<nat>) {
    if ds == [] then []
    else Positions(ds[..|ds| - 1], f) + (if ds[|ds| - 1].family == f then [|ds| - 1] else [])
  }

  lemma {:induction false} ProjectEmbeds(ds: seq<Delivery>, f: Family)
    ensures Embedding(Positions(ds, f), Project(ds, f), ds)
    ensures forall i :: 0 <= i < |Project(ds, f)| ==> Project(ds, f)[i].family == f
  {
    if ds != [] {
      var n := |ds| - 1;
      ProjectEmbeds(ds[..n], f);
    }
  }

  lemma {:induction false} WindowIsOrdered(ds: seq<Delivery>, i: nat, j: nat)
    requires WindowAdmitted(ds) && i < j < |ds|
    ensures ds[i].after.sequence <= ds[j].before.sequence
    ensures ds[j].before.stream == ds[0].before.stream && ds[j].revision == ds[0].revision
    ensures ds[i].before.stream == ds[0].before.stream && ds[i].revision == ds[0].revision
  {
    assert Contiguous(ds, j) && ValidDelivery(ds[j - 1]);
    assert i > 0 ==> Contiguous(ds, i);
    if i + 1 < j {
      WindowIsOrdered(ds, i, j - 1);
    }
  }

  /** Every projection of an admitted window is an admitted batch of its family: none can fail. */
  lemma {:induction false} ProjectionsAreTotal(ds: seq<Delivery>, f: Family)
    requires WindowAdmitted(ds)
    ensures Project(ds, f) != [] ==> FamilyAdmitted(Project(ds, f), f)
  {
    var part, at := Project(ds, f), Positions(ds, f);
    ProjectEmbeds(ds, f);
    forall i, j | 0 <= i < j < |part|
      ensures part[i].after.sequence <= part[j].before.sequence && part[i].id != part[j].id
      ensures part[j].before.stream == part[i].before.stream && part[j].revision == part[i].revision
    {
      WindowIsOrdered(ds, at[i], at[j]);
    }
  }

  lemma {:induction false} CountByFamily(ds: seq<Delivery>, f: Family, d: Delivery)
    ensures multiset(Project(ds, f))[d] == if d.family == f then multiset(ds)[d] else 0
  {
    if ds != [] {
      var n := |ds| - 1;
      assert ds == ds[..n] + [ds[n]];
      CountByFamily(ds[..n], f, d);
    }
  }

  /** The four projections partition the window: every delivery is in the projection of its own family,
      once, and in order. */
  lemma {:induction false} ProjectionsPartition(ds: seq<Delivery>)
    ensures multiset(ds) == multiset(Project(ds, Config)) + multiset(Project(ds, Tool)) + multiset(Project(ds, User))
                            + multiset(Project(ds, Assistant))
    ensures forall f :: Embeds(Project(ds, f), ds)
  {
    var parts := multiset(Project(ds, Config)) + multiset(Project(ds, Tool)) + multiset(Project(ds, User))
    + multiset(Project(ds, Assistant));
    forall d
      ensures multiset(ds)[d] == parts[d]
    {
      CountByFamily(ds, Config, d);
      CountByFamily(ds, Tool, d);
      CountByFamily(ds, User, d);
      CountByFamily(ds, Assistant, d);
    }
    forall f
      ensures Embeds(Project(ds, f), ds)
    {
      ProjectEmbeds(ds, f);
    }
  }

  /** `_families_for_deliveries`: the non-Config families of a window in the order first seen. */
  method FamiliesForDeliveries(ds: seq<Delivery>) returns (present: seq<Family>)
    ensures forall f :: f in present <==> f != Config && exists i :: 0 <= i < |ds| && ds[i].family == f
    ensures forall i, j :: 0 <= i < j < |present| ==> present[i] != present[j]
    ensures forall i, j :: 0 <= i < j < |present| ==> FirstSeen(ds, present[i]) < FirstSeen(ds, present[j])
  {
    present := [];
    var i := 0;
    while i < |ds|
      invariant 0 <= i <= |ds|
      invariant forall f :: f in present <==> f != Config && FirstSeen(ds, f) < i
      invariant forall x, y :: 0 <= x < y < |present| ==> FirstSeen(ds, present[x]) < FirstSeen(ds, present[y])
    {
      var family := ds[i].family;
      FirstSeenAt(ds, i);
      if family != Config && family !in present {
        present := present + [family];
      }
      i := i + 1;
    }
    forall f
      ensures (FirstSeen(ds, f) < |ds|) <==> exists i :: 0 <= i < |ds| && ds[i].family == f
    {
      FirstSeenSpec(ds, f);
    }
  }

  function FirstSeen(ds: seq<Delivery>, f: Family): (i: nat) {
    if ds == [] || ds[0].family == f then 0 else 1 + FirstSeen(ds[1..], f)
  }

  lemma {:induction false} FirstSeenSpec(ds: seq<Delivery>, f: Family)
    ensures FirstSeen(ds, f) <= |ds|
    ensures FirstSeen(ds, f) < |ds| ==> ds[FirstSeen(ds, f)].family == f
    ensures forall j :: 0 <= j < FirstSeen(ds, f) ==> ds[j].family != f
  {
    if ds != [] && ds[0].family != f {
      FirstSeenSpec(ds[1..], f);
      forall j | 0 <= j < FirstSeen(ds, f)
        ensures ds[j].family != f
      {
        assert j > 0 ==> ds[j] == ds[1..][j - 1];
      }
    }
  }

  lemma {:induction false} FirstSeenAt(ds: seq<Delivery>, i: nat)
    requires i < |ds|
    ensures FirstSeen(ds, ds[i].family) <= i
    ensures forall f :: FirstSeen(ds, f) == i ==> f == ds[i].family
  {
    FirstSeenSpec(ds, ds[i].family);
    forall f | FirstSeen(ds, f) == i
      ensures f == ds[i].family
    {
      FirstSeenSpec(ds, f);
    }
  }

  // ---- FIFO subsequences -----------------------------------------------------------------

  /** `sequence.index(x, from)`. */
  function IndexFrom<T(==)>(s: seq<T>, x: T, from: nat): (p: Option<nat>)
    requires from <= |s|
    ensures p.Some? ==> from <= p.value < |s| && s[p.value] == x
    ensures forall i :: from <= i < (if p.Some? then p.value else |s|) ==> s[i] != x
    decreases |s| - from
  {
    if from == |s| then None else if s[from] == x then Some(from) else IndexFrom(s, x, from + 1)
  }

  /** `_is_fifo_subsequence`: the greedy scan decides exactly whether the first list is a subsequence of
      the second. */
  method IsFifoSubsequence<T(==)>(subset: seq<T>, sequence: seq<T>) returns (ok: bool)
    ensures ok <==> Embeds(subset, sequence)
  {
    var offset := 0;
    ghost var at: seq<nat> := [];
    var i := 0;
    while i < |subset|
      invariant 0 <= i <= |subset| && offset <= |sequence|
      invariant Embedding(at, subset[..i], sequence)
      invariant offset == if i == 0 then 0 else at[i - 1] + 1
      invariant forall other :: Embedding(other, subset, sequence) && i > 0 ==> other[i - 1] >= offset - 1
    {
      var found := IndexFrom(sequence, subset[i], offset);
      forall other | Embedding(other, subset, sequence)
        ensures offset <= other[i] < |sequence| && sequence[other[i]] == subset[i]
      {
        assert i > 0 ==> other[i - 1] < other[i];
      }
      if found.None? {
        return false;
      }
      at := at + [found.value];
      offset := found.value + 1;
      i := i + 1;
    }
    assert subset[..|subset|] == subset;
    return true;
  }

  // ---- receipts --------------------------------------------------------------------------

  ghost predicate Distinct(s: seq<Text>) {
    forall i, j :: 0 <= i < j < |s| ==> s[i] != s[j]
  }

  /** The order checks of a batch receipt: the acknowledged ids are the ids of the child receipts, and
      each child keeps its order. An absent receipt is the empty list. */
  ghost predicate ReceiptAdmitted(config: seq<Text>, context: seq<Text>, ack: seq<Text>) {
    && Distinct(ack) && Distinct(config + context)
    && (forall x :: x in ack <==> x in config + context)
    && Embeds(config, ack) && Embeds(context, ack)
  }

  /** `c` is a merge of `a` and `b` that keeps the order of both. */
  predicate Interleaves(a: seq<Text>, b: seq<Text>, c: seq<Text>) {
    if c == [] then a == [] && b == []
    else || (a != [] && a[0] == c[0] && Interleaves(a[1..], b, c[1..]))
         || (b != [] && b[0] == c[0] && Interleaves(a, b[1..], c[1..]))
  }

  lemma {:induction false} TailEmbeds(a: seq<Text>, c: seq<Text>, at: seq<nat>)
    requires Embedding(at, a, c) && c != [] && (a == [] || at[0] > 0)
    ensures Embeds(a, c[1..])
  {
    var shifted := seq(|at|, i requires 0 <= i < |at| => if at[i] > 0 then at[i] - 1 else 0);
    forall i | 0 <= i < |at|
      ensures at[i] > 0 && shifted[i] == at[i] - 1 && c[1..][shifted[i]] == a[i]
    {
      assert i > 0 ==> at[0] < at[i];
    }
    assert Embedding(shifted, a, c[1..]);
  }

  lemma {:induction false} OnlyAt(c: seq<Text>, i: nat, j: nat)
    requires Distinct(c) && i < |c| && j < |c| && c[i] == c[j]
    ensures i == j
  {
  }

  lemma {:induction false} PositionsGrow(at: seq<nat>, k: nat)
    requires (forall i, j :: 0 <= i < j < |at| ==> at[i] < at[j]) && k < |at|
    ensures k <= at[k]
  {
    if k > 0 {
      PositionsGrow(at, k - 1);
    }
  }

  /** If the head of a list without repetitions belongs to an embedded list, it is its head, and the tails embed. */
  lemma {:induction false} HeadOfEmbedded(a: seq<Text>, c: seq<Text>)
    requires Embeds(a, c) && Distinct(c) && c != [] && c[0] in a
    ensures a[0] == c[0] && Embeds(a[1..], c[1..])
  {
    var at :| Embedding(at, a, c);
    var k :| 0 <= k < |a| && a[k] == c[0];
    OnlyAt(c, at[k], 0);
    PositionsGrow(at, k);
    assert Embedding(at[1..], a[1..], c);
    TailEmbeds(a[1..], c, at[1..]);
  }

  lemma {:induction false} HeadNotEmbedded(a: seq<Text>, c: seq<Text>)
    requires Embeds(a, c) && c != [] && c[0] !in a
    ensures Embeds(a, c[1..])
  {
    var at :| Embedding(at, a, c);
    if a != [] {
      assert a[0] in a && at[0] != 0;
    }
    TailEmbeds(a, c, at);
  }

  ghost predicate Settles(a: seq<Text>, b: seq<Text>, c: seq<Text>) {
    && Distinct(c) && Distinct(a) && Distinct(b)
    && (forall x :: x in c <==> x in a || x in b) && (forall x :: x in a ==> x !in b)
    && Embeds(a, c) && Embeds(b, c)
  }

  lemma {:induction false} TailSettles(a: seq<Text>, b: seq<Text>, c: seq<Text>)
    requires Settles(a, b, c) && c != [] && c[0] in a
    ensures a[0] == c[0] && Settles(a[1..], b, c[1..])
  {
    HeadOfEmbedded(a, c);
    HeadNotEmbedded(b, c);
    forall x
      ensures x in c[1..] <==> x in c && x != c[0]
      ensures x in a[1..] <==> x in a && x != a[0]
    {
      DistinctTail(c, x);
      DistinctTail(a, x);
    }
    assert Distinct(c[1..]) && Distinct(a[1..]) by {
      assert forall i :: 0 <= i < |c[1..]| ==> c[1..][i] == c[i + 1];
      assert forall i :: 0 <= i < |a[1..]| ==> a[1..][i] == a[i + 1];
    }
  }

  lemma {:induction false} DistinctTail(s: seq<Text>, x: Text)
    requires Distinct(s) && s != []
    ensures x in s[1..] <==> x in s && x != s[0]
  {
    assert s == [s[0]] + s[1..];
    if x in s[1..] {
      var i :| 0 <= i < |s[1..]| && s[1..][i] == x;
      assert s[0] != s[i + 1];
    }
  }

  lemma {:induction false} SettledIsInterleaved(a: seq<Text>, b: seq<Text>, c: seq<Text>)
    requires Settles(a, b, c)
    ensures Interleaves(a, b, c)
    decreases |c|
  {
    if c == [] {
      NonEmptyHasMember(a);
      NonEmptyHasMember(b);
    } else {
      assert c[0] in c;
      if c[0] in a {
        TailSettles(a, b, c);
        SettledIsInterleaved(a[1..], b, c[1..]);
      } else {
        SettlesEitherWay(a, b, c);
        TailSettles(b, a, c);
        SettlesEitherWay(b[1..], a, c[1..]);
        SettledIsInterleaved(a, b[1..], c[1..]);
      }
    }
  }

  lemma {:induction false} SettlesEitherWay(a: seq<Text>, b: seq<Text>, c: seq<Text>)
    requires Settles(a, b, c)
    ensures Settles(b, a, c)
  {
  }

  lemma {:induction false} ConsEmbeds(a: seq<Text>, c: seq<Text>, head: Text, taken: bool)
    requires Embeds(a, c)
    ensures Embeds(if taken then [head] + a else a, [head] + c)
  {
    var at :| Embedding(at, a, c);
    var shifted := seq(|at|, i requires 0 <= i < |at| => at[i] + 1);
    var whole := [head] + c;
    assert forall i :: 0 <= i < |at| ==> whole[shifted[i]] == c[at[i]];
    assert Embedding(shifted, a, whole);
    if taken {
      assert Embedding([0] + shifted, [head] + a, whole);
    }
  }

  lemma {:induction false} InterleavedEmbeds(a: seq<Text>, b: seq<Text>, c: seq<Text>)
    requires Interleaves(a, b, c)
    ensures Embeds(a, c) && Embeds(b, c)
    ensures multiset(c) == multiset(a) + multiset(b)
    decreases |c|
  {
    if c == [] {
      assert Embedding([], a, c) && Embedding([], b, c);
    } else if a != [] && a[0] == c[0] && Interleaves(a[1..], b, c[1..]) {
      InterleavedEmbeds(a[1..], b, c[1..]);
      HeadEmbeds(a, b, c);
    } else {
      InterleavedEmbeds(a, b[1..], c[1..]);
      HeadEmbeds(b, a, c);
    }
  }

  /** The head of the whole comes from the first list. */
  lemma {:induction false} HeadEmbeds(a: seq<Text>, b: seq<Text>, c: seq<Text>)
    requires a != [] && c != [] && a[0] == c[0] && Embeds(a[1..], c[1..]) && Embeds(b, c[1..])
    requires multiset(c[1..]) == multiset(a[1..]) + multiset(b)
    ensures Embeds(a, c) && Embeds(b, c) && multiset(c) == multiset(a) + multiset(b)
  {
    assert c == [c[0]] + c[1..] && a == [a[0]] + a[1..];
    ConsEmbeds(a[1..], c[1..], c[0], true);
    ConsEmbeds(b, c[1..], c[0], false);
  }

  /** A list has no repetitions exactly when its multiset has none. */
  lemma {:induction false} DistinctCounts(s: seq<Text>)
    ensures Distinct(s) <==> forall x :: multiset(s)[x] <= 1
  {
    if Distinct(s) {
      forall x ensures multiset(s)[x] <= 1 { DistinctOnce(s, x); }
    } else {
      var i, j :| 0 <= i < j < |s| && s[i] == s[j];
      TwiceInMultiset(s, i, j);
    }
  }

  lemma {:induction false} DistinctOnce(s: seq<Text>, x: Text)
    requires Distinct(s)
    ensures multiset(s)[x] <= 1
  {
    if s != [] {
      assert s == [s[0]] + s[1..];
      assert forall i :: 0 <= i < |s[1..]| ==> s[1..][i] == s[i + 1];
      DistinctOnce(s[1..], x);
      DistinctTail(s, s[0]);
      assert s[0] !in multiset(s[1..]);
    }
  }

  lemma {:induction false} InterleavedSettles(a: seq<Text>, b: seq<Text>, c: seq<Text>)
    requires Distinct(c) && Interleaves(a, b, c)
    ensures ReceiptAdmitted(a, b, c)
  {
    InterleavedEmbeds(a, b, c);
    assert multiset(a + b) == multiset(c);
    DistinctCounts(c);
    DistinctCounts(a + b);
    SameMembers(c, a + b);
  }

  lemma {:induction false} AdmittedSettles(a: seq<Text>, b: seq<Text>, c: seq<Text>)
    requires ReceiptAdmitted(a, b, c)
    ensures Settles(a, b, c)
  {
    var all := a + b;
    assert forall i :: 0 <= i < |a| ==> all[i] == a[i];
    assert forall i :: 0 <= i < |b| ==> all[|a| + i] == b[i];
    forall x | x in a
      ensures x !in b
    {
      var i :| 0 <= i < |a| && a[i] == x;
      forall j | 0 <= j < |b| ensures b[j] != x { assert all[i] != all[|a| + j]; }
    }
    assert Distinct(b) by {
      forall i, j | 0 <= i < j < |b| ensures b[i] != b[j] { assert all[|a| + i] != all[|a| + j]; }
    }
  }

  /** A batch receipt is accepted exactly when the acknowledged ids, none repeated, are an interleaving of
      the Config ids and the Context ids. */
  lemma {:induction false} ReceiptIsInterleaving(config: seq<Text>, context: seq<Text>, ack: seq<Text>)
    ensures ReceiptAdmitted(config, context, ack) <==> Distinct(ack) && Interleaves(config, context, ack)
  {
    if ReceiptAdmitted(config, context, ack) {
      AdmittedSettles(config, context, ack);
      SettledIsInterleaved(config, context, ack);
    }
    if Distinct(ack) && Interleaves(config, context, ack) {
      InterleavedSettles(config, context, ack);
    }
  }
}
