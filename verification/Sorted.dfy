/** Strictly ascending sequences, binary search and lexicographic orders.

    Every canonical tuple of the kernel (frame segments, lineage bindings, resume scopes) is a
    strictly ascending sequence under a strict total order; the facts here are shared by all of them.
 */
module Sorted {

  ghost predicate StrictTotal<K(!new)>(lt: (K, K) -> bool) {
    && (forall a :: !lt(a, a))
    && (forall a, b, c :: lt(a, b) && lt(b, c) ==> lt(a, c))
    && (forall a, b :: lt(a, b) || a == b || lt(b, a))
  }

  ghost predicate Ascending<K>(lt: (K, K) -> bool, s: seq<K>) {
    forall i, j :: 0 <= i < j < |s| ==> lt(s[i], s[j])
  }

  /** The pairwise test the kernel writes with `itertools.pairwise` or a comparison with `sorted`. */
  predicate Pairwise<K>(lt: (K, K) -> bool, s: seq<K>) {
    forall i :: 0 <= i < |s| - 1 ==> lt(s[i], s[i + 1])
  }

  /** Comparing neighbours only is as strong as comparing every pair. */
  lemma {:induction false} PairwiseIsAscending<K(!new)>(lt: (K, K) -> bool, s: seq<K>)
    requires StrictTotal(lt)
    ensures Pairwise(lt, s) <==> Ascending(lt, s)
  {
    if Pairwise(lt, s) {
      forall i, j | 0 <= i < j < |s|
        ensures lt(s[i], s[j])
      {
        PairwiseChain(lt, s, i, j);
      }
    }
  }

  lemma {:induction false} PairwiseChain<K(!new)>(lt: (K, K) -> bool, s: seq<K>, i: nat, j: nat)
    requires StrictTotal(lt) && Pairwise(lt, s) && i < j < |s|
    ensures lt(s[i], s[j])
    decreases j - i
  {
    assert lt(s[j - 1], s[j - 1 + 1]);
    if i + 1 < j {
      PairwiseChain(lt, s, i, j - 1);
    }
  }

  /** Python's `bisect_left` on the window `[lo, hi)`. */
  function Bisect<K>(lt: (K, K) -> bool, s: seq<K>, k: K, lo: nat, hi: nat): (p: nat)
    requires lo <= hi <= |s|
    ensures lo <= p <= hi
    decreases hi - lo
  {
    if lo == hi then lo
    else
      var mid := (lo + hi) / 2;
      if lt(s[mid], k) then Bisect(lt, s, k, mid + 1, hi) else Bisect(lt, s, k, lo, mid)
  }

  /** On an ascending sequence the bisection point separates the smaller elements from the rest. */
  lemma {:induction false} BisectSplits<K(!new)>(lt: (K, K) -> bool, s: seq<K>, k: K, lo: nat, hi: nat)
    requires StrictTotal(lt) && Ascending(lt, s) && lo <= hi <= |s|
    requires forall i :: 0 <= i < lo ==> lt(s[i], k)
    requires forall i :: hi <= i < |s| ==> !lt(s[i], k)
    ensures forall i :: 0 <= i < Bisect(lt, s, k, lo, hi) ==> lt(s[i], k)
    ensures forall i :: Bisect(lt, s, k, lo, hi) <= i < |s| ==> !lt(s[i], k)
    decreases hi - lo
  {
    if lo < hi {
      var mid := (lo + hi) / 2;
      if lt(s[mid], k) {
        BisectSplits(lt, s, k, mid + 1, hi);
      } else {
        BisectSplits(lt, s, k, lo, mid);
      }
    }
  }

  /** A binary search finds a key exactly when it is present, and at its only position. */
  lemma {:induction false} BisectFinds<K(!new)>(lt: (K, K) -> bool, s: seq<K>, k: K)
    requires StrictTotal(lt) && Ascending(lt, s)
    ensures var p := Bisect(lt, s, k, 0, |s|);
            && (k in s <==> p < |s| && s[p] == k)
            && (forall i :: 0 <= i < |s| && s[i] == k ==> i == p)
  {
    BisectSplits(lt, s, k, 0, |s|);
  }

  /** Inserting a new key at its bisection point keeps the sequence ascending. */
  lemma {:induction false} InsertAscending<K(!new)>(lt: (K, K) -> bool, s: seq<K>, k: K)
    requires StrictTotal(lt) && Ascending(lt, s) && k !in s
    ensures var p := Bisect(lt, s, k, 0, |s|);
            Ascending(lt, s[..p] + [k] + s[p..])
  {
    BisectSplits(lt, s, k, 0, |s|);
    var p := Bisect(lt, s, k, 0, |s|);
    forall i | p <= i < |s|
      ensures lt(k, s[i])
    {
      assert s[i] in s;
    }
  }

  lemma {:induction false} PrependAscending<K(!new)>(lt: (K, K) -> bool, k: K, s: seq<K>)
    requires Ascending(lt, s) && forall i :: 0 <= i < |s| ==> lt(k, s[i])
    ensures Ascending(lt, [k] + s)
  {
  }

  lemma {:induction false} AscendingDistinct<K(!new)>(lt: (K, K) -> bool, s: seq<K>, i: nat, j: nat)
    requires StrictTotal(lt) && Ascending(lt, s) && i < |s| && j < |s| && s[i] == s[j]
    ensures i == j
  {
  }

  lemma {:induction false} NonEmptyHasMember<K>(s: seq<K>)
    ensures s != [] ==> exists k :: k in s
  {
    if s != [] {
      assert s[0] in s;
    }
  }

  lemma {:induction false} HeadIsLeast<K(!new)>(lt: (K, K) -> bool, s: seq<K>, k: K)
    requires StrictTotal(lt) && Ascending(lt, s) && k in s
    ensures k == s[0] || lt(s[0], k)
  {
    var i :| 0 <= i < |s| && s[i] == k;
  }

  /** The elements of an ascending sequence determine it. */
  lemma {:induction false} AscendingUnique<K(!new)>(lt: (K, K) -> bool, s: seq<K>, t: seq<K>)
    requires StrictTotal(lt) && Ascending(lt, s) && Ascending(lt, t)
    requires forall k :: k in s <==> k in t
    ensures s == t
  {
    NonEmptyHasMember(s);
    NonEmptyHasMember(t);
    if s != [] && t != [] {
      assert s[0] in s && t[0] in t;
      HeadIsLeast(lt, s, t[0]);
      HeadIsLeast(lt, t, s[0]);
      forall k
        ensures k in s[1..] <==> k in t[1..]
      {
        TailMembers(lt, s, k);
        TailMembers(lt, t, k);
      }
      AscendingUnique(lt, s[1..], t[1..]);
      assert s == [s[0]] + s[1..] && t == [t[0]] + t[1..];
    }
  }

  lemma {:induction false} TailMembers<K(!new)>(lt: (K, K) -> bool, s: seq<K>, k: K)
    requires StrictTotal(lt) && Ascending(lt, s) && s != []
    ensures k in s[1..] <==> k in s && k != s[0]
  {
    assert s == [s[0]] + s[1..];
    if k in s[1..] {
      var i :| 0 <= i < |s[1..]| && s[1..][i] == k;
      assert lt(s[0], s[i + 1]);
    }
  }

  // ---- lexicographic orders --------------------------------------------------------------

  /** Python's tuple and string comparison. */
  predicate LexLess<T(==)>(lt: (T, T) -> bool, a: seq<T>, b: seq<T>) {
    b != [] && (a == [] || lt(a[0], b[0]) || (a[0] == b[0] && LexLess(lt, a[1..], b[1..])))
  }

  lemma {:induction false} LexIrreflexive<T(!new)>(lt: (T, T) -> bool, a: seq<T>)
    requires StrictTotal(lt)
    ensures !LexLess(lt, a, a)
  {
    if a != [] {
      LexIrreflexive(lt, a[1..]);
    }
  }

  lemma {:induction false} LexTransitive<T(!new)>(lt: (T, T) -> bool, a: seq<T>, b: seq<T>, c: seq<T>)
    requires StrictTotal(lt) && LexLess(lt, a, b) && LexLess(lt, b, c)
    ensures LexLess(lt, a, c)
  {
    if a != [] && a[0] == b[0] && b[0] == c[0] {
      LexTransitive(lt, a[1..], b[1..], c[1..]);
    }
  }

  lemma {:induction false} LexTrichotomy<T(!new)>(lt: (T, T) -> bool, a: seq<T>, b: seq<T>)
    requires StrictTotal(lt)
    ensures LexLess(lt, a, b) || a == b || LexLess(lt, b, a)
  {
    if a != [] && b != [] && a[0] == b[0] {
      LexTrichotomy(lt, a[1..], b[1..]);
      assert a == [a[0]] + a[1..] && b == [b[0]] + b[1..];
    }
  }

  predicate IntLess(x: int, y: int) { x < y }

  /** Text is a sequence of code points; bytes are a sequence of integers below 256. */
  type Text = seq<int>

  predicate TextLess(a: Text, b: Text) { LexLess(IntLess, a, b) }

  lemma {:induction false} TextOrder()
    ensures StrictTotal(TextLess)
  {
    forall a: Text ensures !TextLess(a, a) { LexIrreflexive(IntLess, a); }
    forall a: Text, b: Text, c: Text | TextLess(a, b) && TextLess(b, c)
      ensures TextLess(a, c)
    {
      LexTransitive(IntLess, a, b, c);
    }
    forall a: Text, b: Text
      ensures TextLess(a, b) || a == b || TextLess(b, a)
    {
      LexTrichotomy(IntLess, a, b);
    }
  }

  predicate ScopeLess(a: seq<Text>, b: seq<Text>) { LexLess(TextLess, a, b) }

  lemma {:induction false} ScopeOrder()
    ensures StrictTotal(ScopeLess)
  {
    TextOrder();
    forall a: seq<Text> ensures !ScopeLess(a, a) { LexIrreflexive(TextLess, a); }
    forall a: seq<Text>, b: seq<Text>, c: seq<Text> | ScopeLess(a, b) && ScopeLess(b, c)
      ensures ScopeLess(a, c)
    {
      LexTransitive(TextLess, a, b, c);
    }
    forall a: seq<Text>, b: seq<Text>
      ensures ScopeLess(a, b) || a == b || ScopeLess(b, a)
    {
      LexTrichotomy(TextLess, a, b);
    }
  }

  /** A scope precedes what lies below it. */
  lemma {:induction false} EarlierScope(a: seq<Text>, b: seq<Text>)
    requires a < b
    ensures ScopeLess(a, b)
  {
    if a != [] {
      EarlierScope(a[1..], b[1..]);
    }
  }
}
