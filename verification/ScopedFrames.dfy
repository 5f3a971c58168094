/** The scoped frame index, its partition by owner and the merge that undoes it. */
module ScopedFrames {
  import opened FrameIndex
  import opened GraphState
  import opened Lineage

  datatype Publication<+V> = Publication(frame: V, revision: nat, token: Token)

  datatype Index<+V> = Index(
    inputs: seq<Record<V>>,
    publications: seq<Record<Publication<V>>>,
    resumes: seq<Record<V>>,
    boundaries: seq<Record<V>>)

  function EmptyIndex<V>(): (index: Index<V>) { Index([], [], [], []) }

  ghost predicate CanonicalIndex<V>(index: Index<V>) {
    && Canonical(index.inputs) && Canonical(index.publications)
    && Canonical(index.resumes) && Canonical(index.boundaries)
  }

  // ---- merging ---------------------------------------------------------------------------

  /** Add every record of one index to another. */
  function AddAll<V>(merged: Index<V>, index: Index<V>): (r: Option<Index<V>>) {
    var inputs := InsertAll(merged.inputs, index.inputs);
    var publications := InsertAll(merged.publications, index.publications);
    var resumes := InsertAll(merged.resumes, index.resumes);
    var boundaries := InsertAll(merged.boundaries, index.boundaries);
    if inputs.None? || publications.None? || resumes.None? || boundaries.None? then None
    else Some(Index(inputs.value, publications.value, resumes.value, boundaries.value))
  }

  function MergeInto<V>(merged: Index<V>, indexes: seq<Index<V>>): (r: Option<Index<V>>)
    decreases indexes
  {
    if indexes == [] then Some(merged)
    else
      match AddAll(merged, indexes[0])
      case None => None
      case Some(next) => MergeInto(next, indexes[1..])
  }

  /** `_merge_frames`. */
  function MergeFrames<V>(indexes: seq<Index<V>>): (r: Option<Index<V>>) {
    MergeInto(EmptyIndex(), indexes)
  }

  /** The same loop over one segment. */
  function MergeSegment<V>(merged: seq<Record<V>>, parts: seq<seq<Record<V>>>): (r: Option<seq<Record<V>>>)
    decreases parts
  {
    if parts == [] then Some(merged)
    else
      match InsertAll(merged, parts[0])
      case None => None
      case Some(next) => MergeSegment(next, parts[1..])
  }

  function Inputs<V>(indexes: seq<Index<V>>): (s: seq<seq<Record<V>>>)
    ensures |s| == |indexes| && forall i :: 0 <= i < |s| ==> s[i] == indexes[i].inputs
  {
    seq(|indexes|, i requires 0 <= i < |indexes| => indexes[i].inputs)
  }

  function Publications<V>(indexes: seq<Index<V>>): (s: seq<seq<Record<Publication<V>>>>)
    ensures |s| == |indexes| && forall i :: 0 <= i < |s| ==> s[i] == indexes[i].publications
  {
    seq(|indexes|, i requires 0 <= i < |indexes| => indexes[i].publications)
  }

  function Resumes<V>(indexes: seq<Index<V>>): (s: seq<seq<Record<V>>>)
    ensures |s| == |indexes| && forall i :: 0 <= i < |s| ==> s[i] == indexes[i].resumes
  {
    seq(|indexes|, i requires 0 <= i < |indexes| => indexes[i].resumes)
  }

  function Boundaries<V>(indexes: seq<Index<V>>): (s: seq<seq<Record<V>>>)
    ensures |s| == |indexes| && forall i :: 0 <= i < |s| ==> s[i] == indexes[i].boundaries
  {
    seq(|indexes|, i requires 0 <= i < |indexes| => indexes[i].boundaries)
  }

  /** Merging indexes is merging their four segments independently. */
  lemma {:induction false} MergeBySegment<V>(m: Index<V>, indexes: seq<Index<V>>)
    ensures MergeInto(m, indexes).Some? <==>
            && MergeSegment(m.inputs, Inputs(indexes)).Some?
            && MergeSegment(m.publications, Publications(indexes)).Some?
            && MergeSegment(m.resumes, Resumes(indexes)).Some?
            && MergeSegment(m.boundaries, Boundaries(indexes)).Some?
    ensures MergeInto(m, indexes).Some? ==>
              MergeInto(m, indexes).value
              == Index(MergeSegment(m.inputs, Inputs(indexes)).value,
                       MergeSegment(m.publications, Publications(indexes)).value,
                       MergeSegment(m.resumes, Resumes(indexes)).value,
                       MergeSegment(m.boundaries, Boundaries(indexes)).value)
    decreases indexes
  {
    if indexes != [] {
      var rest := indexes[1..];
      assert Inputs(indexes)[1..] == Inputs(rest);
      assert Publications(indexes)[1..] == Publications(rest);
      assert Resumes(indexes)[1..] == Resumes(rest);
      assert Boundaries(indexes)[1..] == Boundaries(rest);
      match AddAll(m, indexes[0])
      case None =>
      case Some(next) => MergeBySegment(next, rest);
    }
  }

  // ---- owned parts -----------------------------------------------------------------------

  /** Every record of a part belongs to the owner of that part. */
  ghost predicate OwnedBy<V>(part: seq<Record<V>>, owner: Coordinate -> Option<ScopeRun>, at: ScopeRun) {
    Canonical(part) && forall r :: r in part ==> owner(r.coordinate) == Some(at)
  }

  ghost predicate OwnedParts<V>(parts: seq<seq<Record<V>>>, owner: Coordinate -> Option<ScopeRun>,
                                owners: seq<ScopeRun>) {
    && |parts| == |owners|
    && (forall i, j :: 0 <= i < j < |owners| ==> owners[i] != owners[j])
    && (forall i :: 0 <= i < |parts| ==> OwnedBy(parts[i], owner, owners[i]))
  }

  ghost predicate InSome<V>(parts: seq<seq<Record<V>>>, r: Record<V>) {
    exists i :: 0 <= i < |parts| && r in parts[i]
  }

  ghost predicate Foreign<V>(merged: seq<Record<V>>, owner: Coordinate -> Option<ScopeRun>, owners: seq<ScopeRun>) {
    forall r, i :: r in merged && 0 <= i < |owners| ==> owner(r.coordinate) != Some(owners[i])
  }

  lemma {:induction false} InsertDisjoint<V>(a: seq<Record<V>>, b: seq<Record<V>>) returns (out: seq<Record<V>>)
    requires Canonical(a) && Canonical(b)
    requires forall r, q :: r in a && q in b ==> r.coordinate != q.coordinate
    ensures InsertAll(a, b) == Some(out) && Canonical(out)
    ensures forall r :: r in out <==> r in a || r in b
  {
    InsertAllSpec(a, b);
    CanonicalIsDistinct(b);
    forall i | 0 <= i < |b|
      ensures !Has(a, b[i].coordinate)
    {
      HasMembers(a, b[i].coordinate);
      assert b[i] in b;
    }
    out := InsertAll(a, b).value;
  }

  /** Parts with different owners merge into the canonical segment of all their records. */
  lemma {:induction false} MergeOwnedParts<V>(merged: seq<Record<V>>, parts: seq<seq<Record<V>>>,
                                              owner: Coordinate -> Option<ScopeRun>, owners: seq<ScopeRun>)
    returns (out: seq<Record<V>>)
    requires Canonical(merged) && OwnedParts(parts, owner, owners) && Foreign(merged, owner, owners)
    ensures MergeSegment(merged, parts) == Some(out) && Canonical(out)
    ensures forall r :: r in out <==> r in merged || InSome(parts, r)
    decreases parts
  {
    out := merged;
    if parts != [] {
      assert OwnedBy(parts[0], owner, owners[0]);
      var next := InsertDisjoint(merged, parts[0]);
      var rest, others := parts[1..], owners[1..];
      forall r, i | r in next && 0 <= i < |others|
        ensures owner(r.coordinate) != Some(others[i])
      {
        assert owners[i + 1] == others[i];
        if r in parts[0] {
          assert owner(r.coordinate) == Some(owners[0]) && owners[0] != owners[i + 1];
        }
      }
      TailParts(parts, owner, owners);
      out := MergeOwnedParts(next, rest, owner, others);
      forall r
        ensures InSome(parts, r) <==> r in parts[0] || InSome(rest, r)
      {
        InSomeCons(parts, r);
      }
    }
  }

  lemma {:induction false} TailParts<V>(parts: seq<seq<Record<V>>>, owner: Coordinate -> Option<ScopeRun>,
                                        owners: seq<ScopeRun>)
    requires OwnedParts(parts, owner, owners) && parts != []
    ensures OwnedParts(parts[1..], owner, owners[1..])
  {
    forall i | 0 <= i < |parts[1..]|
      ensures OwnedBy(parts[1..][i], owner, owners[1..][i])
    {
      assert OwnedBy(parts[i + 1], owner, owners[i + 1]);
    }
  }

  lemma {:induction false} InSomeCons<V>(parts: seq<seq<Record<V>>>, r: Record<V>)
    requires parts != []
    ensures InSome(parts, r) <==> r in parts[0] || InSome(parts[1..], r)
  {
    if InSome(parts[1..], r) {
      var i :| 0 <= i < |parts[1..]| && r in parts[1..][i];
      assert r in parts[i + 1];
    }
    if InSome(parts, r) {
      var i :| 0 <= i < |parts| && r in parts[i];
      assert i > 0 ==> r in parts[1..][i - 1];
    }
  }

  /** The two-stage merge of a handoff, first the children, then the root in front of them, loses
      nothing and invents nothing. */
  lemma {:induction false} HandoffMembers<V>(rootPart: seq<Record<V>>, parts: seq<seq<Record<V>>>,
                                             owner: Coordinate -> Option<ScopeRun>, root: ScopeRun,
                                             owners: seq<ScopeRun>)
    returns (out: seq<Record<V>>)
    requires OwnedBy(rootPart, owner, root) && OwnedParts(parts, owner, owners) && root !in owners
    ensures MergeSegment([], parts).Some?
    ensures MergeSegment([], [rootPart, MergeSegment([], parts).value]) == Some(out)
    ensures Canonical(out) && forall r :: r in out <==> r in rootPart || InSome(parts, r)
  {
    var children := MergeOwnedParts([], parts, owner, owners);
    var first := InsertDisjoint([], rootPart);
    forall r, q | r in first && q in children
      ensures r.coordinate != q.coordinate
    {
      var j :| 0 <= j < |parts| && q in parts[j];
      assert OwnedBy(parts[j], owner, owners[j]);
      assert owners[j] in owners;
    }
    out := InsertDisjoint(first, children);
    MergePair(rootPart, children, first, out);
  }

  lemma {:induction false} MergePair<V>(a: seq<Record<V>>, b: seq<Record<V>>, x: seq<Record<V>>, y: seq<Record<V>>)
    requires InsertAll([], a) == Some(x) && InsertAll(x, b) == Some(y)
    ensures MergeSegment([], [a, b]) == Some(y)
  {
    var both, last := [a, b], [b];
    assert both[1..] == last;
    assert MergeSegment(x, last) == MergeSegment(y, last[1..]);
  }

  // ---- the partition ---------------------------------------------------------------------

  /** The first child binding at a coordinate. */
  function ChildAt(children: seq<Binding>, at: ScopeRun): (b: Option<Binding>)
    ensures b.Some? ==> b.value in children && b.value.at == at
    ensures b.None? ==> forall c :: c in children ==> c.at != at
  {
    if children == [] then None
    else if children[0].at == at then Some(children[0])
    else ChildAt(children[1..], at)
  }

  /** The owner of a record; a child boundary belongs to the parent of the child. */
  function OwnerOf(children: seq<Binding>, c: Coordinate): (owner: Option<ScopeRun>) {
    match c
    case GraphInputAt(at, _) => Some(at)
    case PublicationAt(a, _) => Some(a.at)
    case ResumeInputAt(a, _) => Some(a.at)
    case ChildBoundaryAt(child, _) =>
      match ChildAt(children, child)
      case None => None
      case Some(b) =>
        match ParentOf(b)
        case Nested(a) => Some(a.at)
        case _ => None
  }

  function Select<V>(records: seq<Record<V>>, owner: Coordinate -> Option<ScopeRun>,
                     at: ScopeRun): (part: seq<Record<V>>)
    ensures forall r :: r in part ==> r in records && owner(r.coordinate) == Some(at)
    ensures forall r :: r in records && owner(r.coordinate) == Some(at) ==> r in part
  {
    if records == [] then []
    else
      var n := |records| - 1;
      assert records == records[..n] + [records[n]];
      Select(records[..n], owner, at) + (if owner(records[n].coordinate) == Some(at) then [records[n]] else [])
  }

  lemma {:induction false} SelectIsOwned<V>(records: seq<Record<V>>, owner: Coordinate -> Option<ScopeRun>,
                                            at: ScopeRun)
    requires Canonical(records)
    ensures OwnedBy(Select(records, owner, at), owner, at)
  {
    if records != [] {
      var n := |records| - 1;
      var front := Select(records[..n], owner, at);
      assert Keys(records[..n]) == Keys(records)[..n];
      SelectIsOwned(records[..n], owner, at);
      forall i | 0 <= i < |front|
        ensures CoordinateLess(front[i].coordinate, records[n].coordinate)
      {
        assert front[i] in records[..n];
        var j :| 0 <= j < n && records[j] == front[i];
        assert CoordinateLess(Keys(records)[j], Keys(records)[n]);
      }
    }
  }

  function Selects<V>(records: seq<Record<V>>, owner: Coordinate -> Option<ScopeRun>, owners: seq<ScopeRun>)
    : (parts: seq<seq<Record<V>>>)
    ensures |parts| == |owners| && forall i :: 0 <= i < |owners| ==> parts[i] == Select(records, owner, owners[i])
  {
    seq(|owners|, i requires 0 <= i < |owners| => Select(records, owner, owners[i]))
  }

  lemma {:induction false} SelectsAreOwned<V>(records: seq<Record<V>>, owner: Coordinate -> Option<ScopeRun>,
                                              owners: seq<ScopeRun>)
    requires Canonical(records) && forall i, j :: 0 <= i < j < |owners| ==> owners[i] != owners[j]
    ensures OwnedParts(Selects(records, owner, owners), owner, owners)
  {
    var parts := Selects(records, owner, owners);
    forall i | 0 <= i < |parts|
      ensures OwnedBy(parts[i], owner, owners[i])
    {
      SelectIsOwned(records, owner, owners[i]);
    }
  }

  /** Splitting a segment by owner and merging the parts gives back the same segment. */
  lemma {:induction false} PartitionMerges<V>(records: seq<Record<V>>, owner: Coordinate -> Option<ScopeRun>,
                                              root: ScopeRun, owners: seq<ScopeRun>)
    requires Canonical(records) && root !in owners
    requires forall i, j :: 0 <= i < j < |owners| ==> owners[i] != owners[j]
    requires forall r :: r in records ==>
                           owner(r.coordinate).Some?
                           && (owner(r.coordinate).value == root || owner(r.coordinate).value in owners)
    ensures MergeSegment([], Selects(records, owner, owners)).Some?
    ensures MergeSegment([], [Select(records, owner, root), MergeSegment([], Selects(records, owner, owners)).value])
         == Some(records)
  {
    var parts := Selects(records, owner, owners);
    SelectIsOwned(records, owner, root);
    SelectsAreOwned(records, owner, owners);
    var out := HandoffMembers(Select(records, owner, root), parts, owner, root, owners);
    forall r
      ensures r in out <==> r in records
    {
      if r in records && owner(r.coordinate) != Some(root) {
        var i :| 0 <= i < |owners| && owners[i] == owner(r.coordinate).value;
        assert r in parts[i];
      }
    }
    CanonicalUnique(out, records);
  }

  /** `_frames_for_owner`: it fails when some boundary names a child that is not bound. */
  function FramesForOwner<V>(frames: Index<V>, children: seq<Binding>, at: ScopeRun): (r: Option<Index<V>>) {
    if exists i :: 0 <= i < |frames.boundaries|
                   && ChildAt(children, frames.boundaries[i].coordinate.Child()).None? then None
    else
      var owner := c => OwnerOf(children, c);
      Some(Index(Select(frames.inputs, owner, at), Select(frames.publications, owner, at),
                 Select(frames.resumes, owner, at), Select(frames.boundaries, owner, at)))
  }

  /** Whose record it is: an input, a publication and an answer belong to their own run, a child boundary to the
      run whose activation started the child. */
  ghost predicate BelongsTo(children: seq<Binding>, c: Coordinate, at: ScopeRun) {
    match c
    case GraphInputAt(run, _) => run == at
    case PublicationAt(a, _) => a.at == at
    case ResumeInputAt(a, _) => a.at == at
    case ChildBoundaryAt(child, _) => exists i :: 0 <= i < |children| && children[i].at == child
                                                  && IsChildOf(children[i], at)
  }

  lemma {:induction false} OwnerMeaning(children: seq<Binding>, c: Coordinate, at: ScopeRun)
    requires forall i, j :: 0 <= i < j < |children| ==> children[i].at != children[j].at
    ensures OwnerOf(children, c) == Some(at) <==> BelongsTo(children, c, at)
  {
    if c.ChildBoundaryAt? {
      BoundaryOwner(children, c.child, at);
    }
  }

  ghost predicate HoldsOwn<V>(all: seq<Record<V>>, children: seq<Binding>, at: ScopeRun, part: seq<Record<V>>) {
    && (forall r :: r in part ==> r in all && BelongsTo(children, r.coordinate, at))
    && (forall r :: r in all && BelongsTo(children, r.coordinate, at) ==> r in part)
  }

  /** What an owner gets: in every segment exactly the records that belong to it. */
  lemma {:induction false} OwnerGetsItsOwn<V>(frames: Index<V>, children: seq<Binding>, at: ScopeRun)
    requires FramesForOwner(frames, children, at).Some?
    requires forall i, j :: 0 <= i < j < |children| ==> children[i].at != children[j].at
    ensures var part := FramesForOwner(frames, children, at).value;
            && HoldsOwn(frames.inputs, children, at, part.inputs)
            && HoldsOwn(frames.publications, children, at, part.publications)
            && HoldsOwn(frames.resumes, children, at, part.resumes)
            && HoldsOwn(frames.boundaries, children, at, part.boundaries)
  {
    var owner := c => OwnerOf(children, c);
    SelectHoldsOwn(frames.inputs, children, owner, at);
    SelectHoldsOwn(frames.publications, children, owner, at);
    SelectHoldsOwn(frames.resumes, children, owner, at);
    SelectHoldsOwn(frames.boundaries, children, owner, at);
  }

  lemma {:induction false} SelectHoldsOwn<V>(all: seq<Record<V>>, children: seq<Binding>,
                                             owner: Coordinate -> Option<ScopeRun>, at: ScopeRun)
    requires forall c :: owner(c) == OwnerOf(children, c)
    requires forall i, j :: 0 <= i < j < |children| ==> children[i].at != children[j].at
    ensures HoldsOwn(all, children, at, Select(all, owner, at))
  {
    forall r | r in all
      ensures owner(r.coordinate) == Some(at) <==> BelongsTo(children, r.coordinate, at)
    {
      OwnerMeaning(children, r.coordinate, at);
    }
  }

  /** The binding was started by an activation of that run. */
  ghost predicate IsChildOf(b: Binding, at: ScopeRun) {
    && b.state.run == b.at.run && b.state.parent.Some?
    && b.at == ChildScopeRun(at, b.state.parent.value.superstep, b.state.parent.value.node)
    && b.state.parent.value.run == at.run
  }

  lemma {:induction false} ChildOfIff(b: Binding, at: ScopeRun)
    ensures ParentOf(b).Nested? && ParentOf(b).activation.at == at <==> IsChildOf(b, at)
  {
    if IsChildOf(b, at) {
      ParentOfFits(b, b.state.parent.value, Binding(at, b.state));
    }
  }

  lemma {:induction false} BoundaryOwner(children: seq<Binding>, child: ScopeRun, at: ScopeRun)
    requires forall i, j :: 0 <= i < j < |children| ==> children[i].at != children[j].at
    ensures (exists b :: ChildAt(children, child) == Some(b) && ParentOf(b).Nested? && ParentOf(b).activation.at == at)
       <==> exists i :: 0 <= i < |children| && children[i].at == child && IsChildOf(children[i], at)
  {
    var b := ChildAt(children, child);
    if b.Some? {
      ChildOfIff(b.value, at);
      var k :| 0 <= k < |children| && children[k] == b.value;
    }
  }
}
