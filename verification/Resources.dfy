/** Ordered exclusive resources: acquisition, release, and the replay that validates a snapshot. */
module Resources {
  import opened Sorted
  import opened FrameIndex

  // ---- snapshots -------------------------------------------------------------------------

  datatype Lock = Lock(owner: Option<Text>, waiters: seq<Text>)

  const FREE := Lock(None, [])

  /** One participant: the resources it needs, by their global position, and how many of them it holds.
      It waits for the next one unless it holds all. */
  datatype Acquisition = Acquisition(node: Text, required: seq<nat>, held: nat)

  datatype Snapshot = Snapshot(locks: seq<Lock>, acquisitions: seq<Acquisition>)

  /** Requests name existing resources in the global order. */
  predicate WellFormed(a: Acquisition, n: nat) {
    && a.required != [] && a.held <= |a.required|
    && (forall i :: 0 <= i < |a.required| ==> a.required[i] < n)
    && (forall i, j :: 0 <= i < j < |a.required| ==> a.required[i] < a.required[j])
  }

  predicate Distinct(acqs: seq<Acquisition>) {
    forall i, j :: 0 <= i < j < |acqs| ==> acqs[i].node != acqs[j].node
  }

  predicate Participants(acqs: seq<Acquisition>, n: nat) {
    Distinct(acqs) && forall i :: 0 <= i < |acqs| ==> WellFormed(acqs[i], n)
  }

  // ---- the reducer -----------------------------------------------------------------------

  /** A participant takes a lock that is free and not promised to someone else. */
  predicate CanTake(lock: Lock, node: Text) {
    lock.owner.None? && (lock.waiters == [] || lock.waiters[0] == node)
  }

  /** `_advance`: take resources in order until one is not available, and queue up there. */
  function Advance(locks: seq<Lock>, a: Acquisition): (r: (seq<Lock>, Acquisition))
    requires WellFormed(a, |locks|)
    ensures |r.0| == |locks| && r.1 == a.(held := r.1.held) && a.held <= r.1.held <= |a.required|
    decreases |a.required| - a.held
  {
    if a.held == |a.required| then (locks, a)
    else
      var p := a.required[a.held];
      if !CanTake(locks[p], a.node) then (locks[p := locks[p].(waiters := locks[p].waiters + [a.node])], a)
      else
        var rest := if locks[p].waiters == [] then [] else locks[p].waiters[1..];
        Advance(locks[p := Lock(Some(a.node), rest)], a.(held := a.held + 1))
  }

  /** The same as the loop the reducer runs. */
  method AdvanceLoop(locks: seq<Lock>, a: Acquisition) returns (after: seq<Lock>, b: Acquisition)
    requires WellFormed(a, |locks|)
    ensures (after, b) == Advance(locks, a)
  {
    after, b := locks, a;
    while b.held < |b.required|
      invariant |after| == |locks| && WellFormed(b, |after|) && b == a.(held := b.held)
      invariant Advance(after, b) == Advance(locks, a)
      decreases |b.required| - b.held
    {
      var p := b.required[b.held];
      var lock := after[p];
      if !CanTake(lock, b.node) {
        after := after[p := lock.(waiters := lock.waiters + [b.node])];
        return;
      }
      after := after[p := Lock(Some(b.node), if lock.waiters == [] then [] else lock.waiters[1..])];
      b := b.(held := b.held + 1);
    }
  }

  /** `_acquire`, for a request that passed its own checks. */
  function Acquire(s: Snapshot, node: Text, required: seq<nat>): (r: Snapshot)
    requires WellFormed(Acquisition(node, required, 0), |s.locks|)
  {
    var moved := Advance(s.locks, Acquisition(node, required, 0));
    Snapshot(moved.0, s.acquisitions + [moved.1])
  }

  /** The replay of an acquisition history from free resources. */
  function Replay(n: nat, acqs: seq<Acquisition>): (s: Snapshot)
    requires forall i :: 0 <= i < |acqs| ==> WellFormed(acqs[i], n)
    ensures |s.locks| == n
  {
    if acqs == [] then Snapshot(seq(n, i => FREE), [])
    else
      var z := acqs[|acqs| - 1];
      assert WellFormed(z, n);
      Acquire(Replay(n, acqs[..|acqs| - 1]), z.node, z.required)
  }

  // ---- queues in acquisition order -------------------------------------------------------

  /** How many of its resources a participant holds or waits for. */
  function Touched(a: Acquisition): (n: nat) {
    if a.held < |a.required| then a.held + 1 else |a.required|
  }

  predicate Touches(a: Acquisition, p: nat) {
    exists k :: 0 <= k < Touched(a) && a.required[k] == p
  }

  /** The participants at a resource, in acquisition order. */
  function QueueOf(acqs: seq<Acquisition>, p: nat): (q: seq<Text>) {
    if acqs == [] then []
    else QueueOf(acqs[..|acqs| - 1], p) + (if Touches(acqs[|acqs| - 1], p) then [acqs[|acqs| - 1].node] else [])
  }

  /** A lock whose owner is the head of its queue and whose waiters are the rest. */
  function LockOf(q: seq<Text>): (lock: Lock) {
    if q == [] then FREE else Lock(Some(q[0]), q[1..])
  }

  /** A participant holds exactly the resources it heads the queue of. */
  ghost predicate HoldsItsHeads(acqs: seq<Acquisition>, a: Acquisition) {
    forall k :: 0 <= k < Touched(a) ==>
                  var q := QueueOf(acqs, a.required[k]);
                  q != [] && (k < a.held <==> q[0] == a.node)
  }

  /** Every queue is in acquisition order and every participant holds what it heads. */
  ghost predicate Orderly(s: Snapshot) {
    && Participants(s.acquisitions, |s.locks|)
    && (forall p :: 0 <= p < |s.locks| ==> s.locks[p] == LockOf(QueueOf(s.acquisitions, p)))
    && (forall i :: 0 <= i < |s.acquisitions| ==> HoldsItsHeads(s.acquisitions, s.acquisitions[i]))
  }

  lemma {:induction false} QueueSnoc(acqs: seq<Acquisition>, z: Acquisition, p: nat)
    ensures QueueOf(acqs + [z], p) == QueueOf(acqs, p) + (if Touches(z, p) then [z.node] else [])
  {
    assert (acqs + [z])[..|acqs|] == acqs;
  }

  lemma {:induction false} QueueMembers(acqs: seq<Acquisition>, p: nat)
    ensures forall x :: x in QueueOf(acqs, p)
                        <==> exists i :: 0 <= i < |acqs| && acqs[i].node == x && Touches(acqs[i], p)
  {
    if acqs != [] {
      var n := |acqs| - 1;
      QueueMembers(acqs[..n], p);
      forall x
        ensures x in QueueOf(acqs, p) <==> exists i :: 0 <= i < |acqs| && acqs[i].node == x && Touches(acqs[i], p)
      {
        if i :| 0 <= i < n && acqs[..n][i].node == x && Touches(acqs[..n][i], p) {
          assert acqs[i].node == x && Touches(acqs[i], p);
        }
        if i :| 0 <= i < |acqs| && acqs[i].node == x && Touches(acqs[i], p) {
          assert i < n ==> acqs[..n][i] == acqs[i];
        }
      }
    }
  }

  // ---- replay builds orderly snapshots ---------------------------------------------------

  /** Where a participant that goes on from its `base`-th resource first meets a lock that is not free. */
  ghost predicate StopsAt(locks: seq<Lock>, required: seq<nat>, base: nat, h: nat)
    requires forall i :: 0 <= i < |required| ==> required[i] < |locks|
  {
    && base <= h <= |required|
    && (forall k :: base <= k < h ==> locks[required[k]] == FREE)
    && (h < |required| ==> locks[required[h]] != FREE)
  }

  /** The locks after a participant has advanced: what it took, where it queued, the rest unchanged. */
  ghost predicate Advanced(locks: seq<Lock>, base: nat, a: Acquisition, after: seq<Lock>)
    requires WellFormed(a, |locks|) && base <= a.held
  {
    && |after| == |locks|
    && (forall p :: 0 <= p < |locks| ==>
                      after[p] == if p in a.required[base..a.held] then Lock(Some(a.node), [])
                      else if a.held < |a.required|
                              && p == a.required[a.held] then locks[p].(waiters := locks[p].waiters + [a.node])
                      else locks[p])
  }

  /** Midway: the first resources are taken, everything else is as it was. */
  ghost predicate Taken(locks: seq<Lock>, base: nat, a: Acquisition, now: seq<Lock>)
    requires WellFormed(a, |locks|) && base <= a.held
  {
    && |now| == |locks|
    && (forall p :: 0 <= p < |locks| ==>
                      now[p] == if p in a.required[base..a.held] then Lock(Some(a.node), []) else locks[p])
  }

  lemma {:induction false} AdvanceFromFree(locks: seq<Lock>, base: nat, a: Acquisition, now: seq<Lock>)
    requires WellFormed(a, |locks|) && base <= a.held && Taken(locks, base, a, now)
    requires forall k :: base <= k < |a.required| ==>
                           (CanTake(locks[a.required[k]], a.node) <==> locks[a.required[k]] == FREE)
    requires forall k :: base <= k < a.held ==> locks[a.required[k]] == FREE
    ensures var r := Advance(now, a);
            StopsAt(locks, a.required, base, r.1.held) && Advanced(locks, base, r.1, r.0)
    decreases |a.required| - a.held
  {
    if a.held < |a.required| {
      var p := a.required[a.held];
      NextIsUntouched(a);
      assert now[p] == locks[p];
      if CanTake(now[p], a.node) {
        TakenNext(locks, base, a, now);
        AdvanceFromFree(locks, base, a.(held := a.held + 1), now[p := Lock(Some(a.node), [])]);
        AdvanceTakes(now, a);
      } else {
        QueuesUp(locks, base, a, now);
      }
    } else {
      HasAll(locks, base, a, now);
    }
  }

  lemma {:induction false} AdvanceTakes(now: seq<Lock>, a: Acquisition)
    requires WellFormed(a, |now|) && a.held < |a.required| && now[a.required[a.held]] == FREE
    ensures Advance(now, a) == Advance(now[a.required[a.held] := Lock(Some(a.node), [])], a.(held := a.held + 1))
  {
  }

  lemma {:induction false} HasAll(locks: seq<Lock>, base: nat, a: Acquisition, now: seq<Lock>)
    requires WellFormed(a, |locks|) && base <= a.held == |a.required| && Taken(locks, base, a, now)
    ensures Advance(now, a) == (now, a) && Advanced(locks, base, a, now)
  {
  }

  lemma {:induction false} QueuesUp(locks: seq<Lock>, base: nat, a: Acquisition, now: seq<Lock>)
    requires WellFormed(a, |locks|) && base <= a.held < |a.required| && Taken(locks, base, a, now)
    requires a.required[a.held] !in a.required[..a.held]
    requires !CanTake(now[a.required[a.held]], a.node)
    ensures Advance(now, a).1 == a && Advanced(locks, base, a, Advance(now, a).0)
  {
    assert a.required[a.held] !in a.required[base..a.held];
  }

  lemma {:induction false} TakenNext(locks: seq<Lock>, base: nat, a: Acquisition, now: seq<Lock>)
    requires WellFormed(a, |locks|) && base <= a.held < |a.required| && Taken(locks, base, a, now)
    ensures Taken(locks, base, a.(held := a.held + 1), now[a.required[a.held] := Lock(Some(a.node), [])])
  {
    var p := a.required[a.held];
    assert a.required[base..a.held + 1] == a.required[base..a.held] + [p];
  }

  lemma {:induction false} NextIsUntouched(a: Acquisition)
    requires a.held < |a.required| && forall i, j :: 0 <= i < j < |a.required| ==> a.required[i] < a.required[j]
    ensures a.required[a.held] !in a.required[..a.held]
  {
  }

  lemma {:induction false} TouchesPrefix(a: Acquisition, p: nat)
    requires a.held <= |a.required|
    ensures Touches(a, p) <==> p in a.required[..a.held] || (a.held < |a.required| && p == a.required[a.held])
  {
    if p in a.required[..a.held] {
      var k :| 0 <= k < a.held && a.required[k] == p;
      assert a.required[k] == p && k < Touched(a);
    }
    if a.held < |a.required| && p == a.required[a.held] {
      assert a.required[a.held] == p && a.held < Touched(a);
    }
  }

  /** Appending a participant that advanced over orderly queues keeps them orderly. */
  lemma {:induction false} AppendOrderly(s: Snapshot, z: Acquisition, after: seq<Lock>)
    requires Orderly(s) && WellFormed(z, |s.locks|) && Advanced(s.locks, 0, z, after)
    requires StopsAt(s.locks, z.required, 0, z.held)
    requires forall i :: 0 <= i < |s.acquisitions| ==> s.acquisitions[i].node != z.node
    ensures Orderly(Snapshot(after, s.acquisitions + [z]))
  {
    var all := s.acquisitions + [z];
    forall p | 0 <= p < |after|
      ensures after[p] == LockOf(QueueOf(all, p))
    {
      QueueSnoc(s.acquisitions, z, p);
      TouchesPrefix(z, p);
      AppendedLock(s, z, after, p);
    }
    forall i | 0 <= i < |all|
      ensures HoldsItsHeads(all, all[i])
    {
      if i < |s.acquisitions| {
        HeadsKept(s.acquisitions, z, s.acquisitions[i]);
      } else {
        NewHeads(s, z);
      }
    }
  }

  lemma {:induction false} AppendedLock(s: Snapshot, z: Acquisition, after: seq<Lock>, p: nat)
    requires WellFormed(z, |s.locks|) && Advanced(s.locks, 0, z, after) && StopsAt(s.locks, z.required, 0, z.held)
    requires p < |s.locks|
    requires s.locks[p] == LockOf(QueueOf(s.acquisitions, p))
    requires Touches(z, p) <==> p in z.required[..z.held] || (z.held < |z.required| && p == z.required[z.held])
    ensures after[p] == LockOf(QueueOf(s.acquisitions, p) + (if Touches(z, p) then [z.node] else []))
  {
    var q := QueueOf(s.acquisitions, p);
    if p in z.required[..z.held] {
      var k :| 0 <= k < z.held && z.required[k] == p;
      assert s.locks[z.required[k]] == FREE;
      assert q == [] && q + [z.node] == [z.node];
    } else if z.held < |z.required| && p == z.required[z.held] {
      assert q != [] && (q + [z.node])[1..] == q[1..] + [z.node];
    } else {
      assert q + [] == q;
    }
  }

  lemma {:induction false} HeadsKept(acqs: seq<Acquisition>, z: Acquisition, a: Acquisition)
    requires HoldsItsHeads(acqs, a)
    ensures HoldsItsHeads(acqs + [z], a)
  {
    forall k | 0 <= k < Touched(a)
      ensures var q := QueueOf(acqs + [z], a.required[k]); q != [] && (k < a.held <==> q[0] == a.node)
    {
      QueueSnoc(acqs, z, a.required[k]);
    }
  }

  lemma {:induction false} NewHeads(s: Snapshot, z: Acquisition)
    requires Orderly(s) && WellFormed(z, |s.locks|) && StopsAt(s.locks, z.required, 0, z.held)
    requires forall i :: 0 <= i < |s.acquisitions| ==> s.acquisitions[i].node != z.node
    ensures HoldsItsHeads(s.acquisitions + [z], z)
  {
    forall k | 0 <= k < Touched(z)
      ensures var q := QueueOf(s.acquisitions + [z], z.required[k]); q != [] && (k < z.held <==> q[0] == z.node)
    {
      var p := z.required[k];
      var q := QueueOf(s.acquisitions, p);
      QueueSnoc(s.acquisitions, z, p);
      assert Touches(z, p);
      assert s.locks[p] == LockOf(q);
      if k == z.held {
        QueueMembers(s.acquisitions, p);
        assert q[0] in q;
      }
    }
  }

  /** A new participant acquires into an orderly snapshot and leaves it orderly. */
  lemma {:induction false} AcquireKeepsOrder(s: Snapshot, node: Text, required: seq<nat>)
    requires Orderly(s) && WellFormed(Acquisition(node, required, 0), |s.locks|)
    requires forall i :: 0 <= i < |s.acquisitions| ==> s.acquisitions[i].node != node
    ensures Orderly(Acquire(s, node, required))
    ensures |Acquire(s, node, required).locks| == |s.locks|
    ensures exists h :: Acquire(s, node, required).acquisitions == s.acquisitions + [Acquisition(node, required, h)]
  {
    var a := Acquisition(node, required, 0);
    assert Taken(s.locks, 0, a, s.locks);
    AdvanceFromFree(s.locks, 0, a, s.locks);
    var r := Advance(s.locks, a);
    AppendOrderly(s, r.1, r.0);
    assert r.1 == Acquisition(node, required, r.1.held);
  }

  lemma {:induction false} NothingHeld(n: nat)
    ensures Orderly(Snapshot(seq(n, i => FREE), []))
  {
  }

  /** Whatever the replay builds is orderly, with the same requests. */
  lemma {:induction false} ReplayIsOrderly(n: nat, acqs: seq<Acquisition>)
    requires Participants(acqs, n)
    ensures Orderly(Replay(n, acqs)) && SameRequests(Replay(n, acqs).acquisitions, acqs)
  {
    if acqs == [] {
      NothingHeld(n);
    } else {
      var m := |acqs| - 1;
      var front, z := acqs[..m], acqs[m];
      ReplayIsOrderly(n, front);
      var s := Replay(n, front);
      assert WellFormed(z, n);
      NewParticipant(s.acquisitions, acqs);
      AcquireKeepsOrder(s, z.node, z.required);
      var h :| Acquire(s, z.node, z.required).acquisitions == s.acquisitions + [Acquisition(z.node, z.required, h)];
      SameRequestsSnoc(s.acquisitions, acqs, Acquisition(z.node, z.required, h));
    }
  }

  lemma {:induction false} NewParticipant(now: seq<Acquisition>, acqs: seq<Acquisition>)
    requires Distinct(acqs) && acqs != [] && SameRequests(now, acqs[..|acqs| - 1])
    ensures forall i :: 0 <= i < |now| ==> now[i].node != acqs[|acqs| - 1].node
  {
    forall i | 0 <= i < |now|
      ensures now[i].node != acqs[|acqs| - 1].node
    {
      assert now[i].node == acqs[i].node;
    }
  }

  lemma {:induction false} SameRequestsSnoc(now: seq<Acquisition>, acqs: seq<Acquisition>, a: Acquisition)
    requires acqs != [] && SameRequests(now, acqs[..|acqs| - 1])
    requires a.node == acqs[|acqs| - 1].node && a.required == acqs[|acqs| - 1].required
    ensures SameRequests(now + [a], acqs)
  {
  }

  ghost predicate SameRequests(a: seq<Acquisition>, b: seq<Acquisition>) {
    |a| == |b| && forall i :: 0 <= i < |a| ==> a[i].node == b[i].node && a[i].required == b[i].required
  }

  // ---- orderly snapshots are determined by their requests --------------------------------

  lemma {:induction false} FrontHeads(acqs: seq<Acquisition>, i: nat)
    requires acqs != [] && i < |acqs| - 1 && Distinct(acqs) && HoldsItsHeads(acqs, acqs[i])
    ensures HoldsItsHeads(acqs[..|acqs| - 1], acqs[i])
  {
    var m := |acqs| - 1;
    var front, z, a := acqs[..m], acqs[m], acqs[i];
    assert acqs == front + [z];
    forall k | 0 <= k < Touched(a)
      ensures var q := QueueOf(front, a.required[k]); q != [] && (k < a.held <==> q[0] == a.node)
    {
      QueueSnoc(front, z, a.required[k]);
      QueueMembers(front, a.required[k]);
      assert front[i] == a && Touches(a, a.required[k]);
      assert a.node in QueueOf(front, a.required[k]);
    }
  }

  /** The last participant of orderly acquisitions stops where its first non-empty queue is. */
  lemma {:induction false} LastStops(acqs: seq<Acquisition>, k: nat)
    requires acqs != [] && Distinct(acqs) && HoldsItsHeads(acqs, acqs[|acqs| - 1]) && k < Touched(acqs[|acqs| - 1])
    ensures k < acqs[|acqs| - 1].held <==> QueueOf(acqs[..|acqs| - 1], acqs[|acqs| - 1].required[k]) == []
  {
    var m := |acqs| - 1;
    var front, z := acqs[..m], acqs[m];
    var q := QueueOf(front, z.required[k]);
    assert acqs == front + [z];
    QueueSnoc(front, z, z.required[k]);
    assert Touches(z, z.required[k]);
    QueueMembers(front, z.required[k]);
    if q != [] {
      assert q[0] in q;
      var i :| 0 <= i < |front| && front[i].node == q[0] && Touches(front[i], z.required[k]);
      assert acqs[i].node != acqs[m].node;
    }
  }

  ghost predicate OrderlyRequests(acqs: seq<Acquisition>, n: nat) {
    Participants(acqs, n) && forall i :: 0 <= i < |acqs| ==> HoldsItsHeads(acqs, acqs[i])
  }

  lemma {:induction false} OrderlyIsUnique(n: nat, a: seq<Acquisition>, b: seq<Acquisition>)
    requires OrderlyRequests(a, n) && OrderlyRequests(b, n) && SameRequests(a, b)
    ensures a == b
  {
    if a != [] {
      var m := |a| - 1;
      FrontOrderly(n, a);
      FrontOrderly(n, b);
      OrderlyIsUnique(n, a[..m], b[..m]);
      SameLast(n, a, b);
      SameLast(n, b, a);
      assert a == a[..m] + [a[m]] && b == b[..m] + [b[m]];
    }
  }

  /** The last participant holds at least as much in one as in the other. */
  lemma {:induction false} SameLast(n: nat, a: seq<Acquisition>, b: seq<Acquisition>)
    requires OrderlyRequests(a, n) && OrderlyRequests(b, n) && SameRequests(a, b) && a != []
    requires a[..|a| - 1] == b[..|b| - 1]
    ensures a[|a| - 1].held >= b[|b| - 1].held
  {
    var x, y := a[|a| - 1], b[|b| - 1];
    assert HoldsItsHeads(a, x) && HoldsItsHeads(b, y) && WellFormed(x, n) && WellFormed(y, n);
    if x.held < |x.required| {
      LastStops(a, x.held);
      if x.held < Touched(y) {
        LastStops(b, x.held);
      }
    }
  }

  lemma {:induction false} FrontOrderly(n: nat, a: seq<Acquisition>)
    requires OrderlyRequests(a, n) && a != []
    ensures OrderlyRequests(a[..|a| - 1], n)
  {
    var front := a[..|a| - 1];
    forall i | 0 <= i < |front|
      ensures HoldsItsHeads(front, front[i])
    {
      FrontHeads(a, i);
    }
  }

  /** A snapshot equals its replay exactly when every queue is in acquisition order and every participant
      holds what it heads. */
  lemma {:induction false} ReplayMatchesIff(s: Snapshot)
    requires Participants(s.acquisitions, |s.locks|)
    ensures Replay(|s.locks|, s.acquisitions) == s <==> Orderly(s)
  {
    var r := Replay(|s.locks|, s.acquisitions);
    ReplayIsOrderly(|s.locks|, s.acquisitions);
    if Orderly(s) {
      OrderlyIsUnique(|s.locks|, r.acquisitions, s.acquisitions);
      assert r.locks == s.locks;
    }
  }

  // ---- validation ------------------------------------------------------------------------

  predicate NoRepeats(q: seq<Text>) {
    forall i, j :: 0 <= i < j < |q| ==> q[i] != q[j]
  }

  /** Where a participant waits. */
  function WaitsAt(a: Acquisition): (p: Option<nat>) {
    if a.held < |a.required| then Some(a.required[a.held]) else None
  }

  function Find(acqs: seq<Acquisition>, node: Text): (i: Option<nat>)
    ensures i.Some? ==> i.value < |acqs| && acqs[i.value].node == node
    ensures i.None? ==> forall j :: 0 <= j < |acqs| ==> acqs[j].node != node
  {
    if acqs == [] then None
    else if acqs[|acqs| - 1].node == node then Some(|acqs| - 1)
    else Find(acqs[..|acqs| - 1], node)
  }

  /** The links `_validate_snapshot` checks between one lock and the participants. */
  predicate LockLinked(acqs: seq<Acquisition>, lock: Lock, p: nat) {
    && NoRepeats(lock.waiters)
    && (lock.owner.Some? ==> lock.owner.value !in lock.waiters && Find(acqs, lock.owner.value).Some?)
    && (forall k :: 0 <= k < |lock.waiters| ==>
                      Find(acqs, lock.waiters[k]).Some? && WaitsAt(acqs[Find(acqs, lock.waiters[k]).value]) == Some(p))
  }

  predicate ParticipantLinked(locks: seq<Lock>, a: Acquisition) {
    && WellFormed(a, |locks|)
    && (forall k :: 0 <= k < a.held ==> locks[a.required[k]].owner == Some(a.node))
    && (a.held < |a.required| ==> a.node in locks[a.required[a.held]].waiters)
  }

  predicate Linked(s: Snapshot) {
    && Participants(s.acquisitions, |s.locks|)
    && (forall i :: 0 <= i < |s.acquisitions| ==> ParticipantLinked(s.locks, s.acquisitions[i]))
    && (forall p :: 0 <= p < |s.locks| ==> LockLinked(s.acquisitions, s.locks[p], p))
  }

  /** `validate_resource_snapshot`. */
  predicate Validates(s: Snapshot) {
    Linked(s) && Replay(|s.locks|, s.acquisitions) == s
  }

  lemma {:induction false} QueueNoRepeats(acqs: seq<Acquisition>, p: nat)
    requires Distinct(acqs)
    ensures NoRepeats(QueueOf(acqs, p))
  {
    if acqs != [] {
      var n := |acqs| - 1;
      QueueNoRepeats(acqs[..n], p);
      QueueMembers(acqs[..n], p);
      var q := QueueOf(acqs[..n], p);
      forall i | 0 <= i < |q|
        ensures q[i] != acqs[n].node
      {
        assert q[i] in q;
        var j :| 0 <= j < n && acqs[..n][j].node == q[i];
        assert acqs[j].node != acqs[n].node;
      }
    }
  }

  lemma {:induction false} FoundIs(acqs: seq<Acquisition>, i: nat)
    requires Distinct(acqs) && i < |acqs|
    ensures Find(acqs, acqs[i].node) == Some(i)
  {
  }

  /** A participant in the tail of a queue waits exactly there. */
  lemma {:induction false} TailWaits(acqs: seq<Acquisition>, p: nat, k: nat) returns (i: nat)
    requires Distinct(acqs) && (forall j :: 0 <= j < |acqs| ==> HoldsItsHeads(acqs, acqs[j]))
    requires 0 < k < |QueueOf(acqs, p)|
    requires forall j :: 0 <= j < |acqs| ==> acqs[j].held <= |acqs[j].required|
    ensures Find(acqs, QueueOf(acqs, p)[k]) == Some(i) && WaitsAt(acqs[i]) == Some(p)
  {
    var q := QueueOf(acqs, p);
    QueueMembers(acqs, p);
    QueueNoRepeats(acqs, p);
    assert q[k] in q;
    i :| 0 <= i < |acqs| && acqs[i].node == q[k] && Touches(acqs[i], p);
    FoundIs(acqs, i);
    var m :| 0 <= m < Touched(acqs[i]) && acqs[i].required[m] == p;
    assert HoldsItsHeads(acqs, acqs[i]);
    assert q[0] != q[k];
    assert m == acqs[i].held;
  }

  lemma {:induction false} OrderlyLock(s: Snapshot, p: nat)
    requires Orderly(s) && p < |s.locks|
    ensures LockLinked(s.acquisitions, s.locks[p], p)
  {
    var q := QueueOf(s.acquisitions, p);
    assert s.locks[p] == LockOf(q);
    if q != [] {
      QueueNoRepeats(s.acquisitions, p);
      TailNoRepeats(q);
      TailLinked(s, p);
      HeadFound(s.acquisitions, p);
    }
  }

  lemma {:induction false} TailNoRepeats(q: seq<Text>)
    requires NoRepeats(q) && q != []
    ensures NoRepeats(q[1..]) && q[0] !in q[1..]
  {
    assert forall k :: 0 <= k < |q[1..]| ==> q[1..][k] == q[k + 1];
  }

  lemma {:induction false} HeadFound(acqs: seq<Acquisition>, p: nat)
    requires QueueOf(acqs, p) != []
    ensures Find(acqs, QueueOf(acqs, p)[0]).Some?
  {
    QueueMembers(acqs, p);
    assert QueueOf(acqs, p)[0] in QueueOf(acqs, p);
  }

  lemma {:induction false} TailLinked(s: Snapshot, p: nat)
    requires Orderly(s) && p < |s.locks| && QueueOf(s.acquisitions, p) != []
    ensures var rest := QueueOf(s.acquisitions, p)[1..];
            forall k :: 0 <= k < |rest| ==>
                          Find(s.acquisitions, rest[k]).Some?
                          && WaitsAt(s.acquisitions[Find(s.acquisitions, rest[k]).value]) == Some(p)
  {
    var q := QueueOf(s.acquisitions, p);
    forall k | 0 <= k < |q[1..]|
      ensures Find(s.acquisitions, q[1..][k]).Some?
      ensures WaitsAt(s.acquisitions[Find(s.acquisitions, q[1..][k]).value]) == Some(p)
    {
      var _ := TailWaits(s.acquisitions, p, k + 1);
    }
  }

  lemma {:induction false} OrderlyParticipant(s: Snapshot, i: nat)
    requires Orderly(s) && i < |s.acquisitions|
    ensures ParticipantLinked(s.locks, s.acquisitions[i])
  {
    var a := s.acquisitions[i];
    assert WellFormed(a, |s.locks|) && HoldsItsHeads(s.acquisitions, a);
    if a.held < |a.required| {
      var p := a.required[a.held];
      var q := QueueOf(s.acquisitions, p);
      QueueMembers(s.acquisitions, p);
      assert Touches(a, p) by {
        assert a.required[a.held] == p && a.held < Touched(a);
      }
      assert a.node in q && q[0] != a.node && q == [q[0]] + q[1..];
    }
  }

  /** Validation accepts exactly the orderly snapshots. */
  lemma {:induction false} ValidatesIffOrderly(s: Snapshot)
    requires Participants(s.acquisitions, |s.locks|)
    ensures Validates(s) <==> Orderly(s)
  {
    ReplayMatchesIff(s);
    if Orderly(s) {
      forall i | 0 <= i < |s.acquisitions|
        ensures ParticipantLinked(s.locks, s.acquisitions[i])
      {
        OrderlyParticipant(s, i);
      }
      forall p | 0 <= p < |s.locks|
        ensures LockLinked(s.acquisitions, s.locks[p], p)
      {
        OrderlyLock(s, p);
      }
    }
  }

  /** Acquiring never breaks validation. */
  lemma {:induction false} AcquireValidates(s: Snapshot, node: Text, required: seq<nat>)
    requires Validates(s) && WellFormed(Acquisition(node, required, 0), |s.locks|) && Find(s.acquisitions, node).None?
    ensures Validates(Acquire(s, node, required))
  {
    ValidatesIffOrderly(s);
    AcquireKeepsOrder(s, node, required);
    ValidatesIffOrderly(Acquire(s, node, required));
  }

  // ---- release ---------------------------------------------------------------------------

  function Without(acqs: seq<Acquisition>, i: nat): (rest: seq<Acquisition>)
    requires i < |acqs|
  {
    acqs[..i] + acqs[i + 1..]
  }

  /** Free what a participant holds. */
  function Freed(locks: seq<Lock>, a: Acquisition): (r: seq<Lock>)
    requires a.held <= |a.required|
    ensures |r| == |locks|
    ensures forall p :: 0 <= p < |locks| ==>
                          r[p] == if p in a.required[..a.held] then locks[p].(owner := None) else locks[p]
  {
    seq(|locks|, p requires 0 <= p < |locks| => if p in a.required[..a.held] then locks[p].(owner := None)
      else locks[p])
  }

  /** The participant to whom resource `p` can be handed. */
  function FirstWaiter(s: Snapshot, p: nat): (j: Option<nat>)
    requires p < |s.locks|
    ensures j.Some? ==> s.locks[p].owner.None? && s.locks[p].waiters != [] && j.value < |s.acquisitions|
    ensures j.Some? ==> s.acquisitions[j.value].node == s.locks[p].waiters[0]
  {
    if s.locks[p].owner.None? && s.locks[p].waiters != [] then Find(s.acquisitions, s.locks[p].waiters[0]) else None
  }

  /** One participant moves on. */
  function Moved(s: Snapshot, j: nat): (r: Snapshot)
    requires Participants(s.acquisitions, |s.locks|) && j < |s.acquisitions|
    ensures |r.locks| == |s.locks| && SameRequests(r.acquisitions, s.acquisitions)
    ensures Participants(r.acquisitions, |r.locks|)
  {
    var moved := Advance(s.locks, s.acquisitions[j]);
    Snapshot(moved.0, s.acquisitions[j := moved.1])
  }

  /** Hand every free resource with a queue to its first waiter, in resource order from position `p`. */
  function Promote(s: Snapshot, p: nat): (r: Snapshot)
    requires p <= |s.locks| && Participants(s.acquisitions, |s.locks|)
    ensures |r.locks| == |s.locks| && SameRequests(r.acquisitions, s.acquisitions)
    ensures Participants(r.acquisitions, |r.locks|)
    decreases |s.locks| - p
  {
    if p == |s.locks| then s
    else
      match FirstWaiter(s, p)
      case None => Promote(s, p + 1)
      case Some(j) => Promote(Moved(s, j), p + 1)
  }

  /** `_release` of a participant that holds all its resources. */
  function Release(s: Snapshot, i: nat): (r: Snapshot)
    requires Participants(s.acquisitions, |s.locks|) && i < |s.acquisitions|
    ensures Participants(r.acquisitions, |r.locks|)
  {
    var a := s.acquisitions[i];
    assert WellFormed(a, |s.locks|);
    Promote(Snapshot(Freed(s.locks, a), Without(s.acquisitions, i)), 0)
  }

  /** The same as the loop the reducer runs over the resources. */
  method ReleaseLoop(s: Snapshot, i: nat) returns (r: Snapshot)
    requires Participants(s.acquisitions, |s.locks|) && i < |s.acquisitions|
    ensures r == Release(s, i)
  {
    assert WellFormed(s.acquisitions[i], |s.locks|);
    r := Snapshot(Freed(s.locks, s.acquisitions[i]), Without(s.acquisitions, i));
    for p := 0 to |s.locks|
      invariant |r.locks| == |s.locks| && Participants(r.acquisitions, |r.locks|)
      invariant Promote(r, p) == Release(s, i)
    {
      var first := FirstWaiter(r, p);
      if first.Some? {
        var after, b := AdvanceLoop(r.locks, r.acquisitions[first.value]);
        ghost var moved := Moved(r, first.value);
        r := Snapshot(after, r.acquisitions[first.value := b]);
        assert r == moved;
      }
    }
  }

  // ---- exactly when a release is accepted ------------------------------------------------

  /** Everybody at a lock, the owner first. */
  function Line(lock: Lock): (line: seq<Text>) {
    (if lock.owner.Some? then [lock.owner.value] else []) + lock.waiters
  }

  /** If the `j`-th participant, moving on, has to queue up again, nobody who acquired later is at that lock. */
  predicate JoinsInTurn(s: Snapshot, j: nat)
    requires Participants(s.acquisitions, |s.locks|) && j < |s.acquisitions|
  {
    var b := Advance(s.locks, s.acquisitions[j]).1;
    b.held < |b.required| ==>
      forall m :: j < m < |s.acquisitions| ==> s.acquisitions[m].node !in Line(s.locks[b.required[b.held]])
  }

  /** Every promotion from position `p` on joins in turn. */
  predicate InTurn(s: Snapshot, p: nat)
    requires p <= |s.locks| && Participants(s.acquisitions, |s.locks|)
    decreases |s.locks| - p
  {
    p < |s.locks| ==>
      match FirstWaiter(s, p)
      case None => InTurn(s, p + 1)
      case Some(j) => JoinsInTurn(s, j) && InTurn(Moved(s, j), p + 1)
  }

  /** What a caller can look up before releasing: nobody let through by the release would have to queue up
      behind a participant that acquired after it. */
  predicate ReleasesInTurn(s: Snapshot, i: nat)
    requires Participants(s.acquisitions, |s.locks|) && i < |s.acquisitions|
  {
    assert WellFormed(s.acquisitions[i], |s.locks|);
    InTurn(Snapshot(Freed(s.locks, s.acquisitions[i]), Without(s.acquisitions, i)), 0)
  }

  lemma {:induction false} QueueConcat(a: seq<Acquisition>, b: seq<Acquisition>, p: nat)
    ensures QueueOf(a + b, p) == QueueOf(a, p) + QueueOf(b, p)
  {
    if b == [] {
      assert a + b == a;
    } else {
      var n := |b| - 1;
      QueueConcat(a, b[..n], p);
      SnocConcat(a, b);
      QueueSnoc(a + b[..n], b[n], p);
      Regroup(QueueOf(a, p), QueueOf(b[..n], p), if Touches(b[n], p) then [b[n].node] else []);
    }
  }

  lemma {:induction false} SnocConcat<T>(a: seq<T>, b: seq<T>)
    requires b != []
    ensures a + b == a + b[..|b| - 1] + [b[|b| - 1]]
  {
  }

  lemma {:induction false} Regroup<T>(a: seq<T>, b: seq<T>, c: seq<T>)
    ensures a + b + c == a + (b + c)
  {
  }

  /** Removing the head of a queue leaves its tail; removing anyone else's acquisition leaves it alone. */
  lemma {:induction false} QueueWithout(acqs: seq<Acquisition>, i: nat, p: nat)
    requires Distinct(acqs) && i < |acqs|
    requires Touches(acqs[i], p) ==> QueueOf(acqs, p) != [] && QueueOf(acqs, p)[0] == acqs[i].node
    ensures QueueOf(Without(acqs, i), p) == if Touches(acqs[i], p) then QueueOf(acqs, p)[1..] else QueueOf(acqs, p)
  {
    var before, x, later := acqs[..i], acqs[i], acqs[i + 1..];
    assert acqs == before + [x] + later;
    QueueConcat(before + [x], later, p);
    QueueSnoc(before, x, p);
    QueueConcat(before, later, p);
    NotBefore(acqs, i, p);
    if Touches(x, p) {
      HeadRemoved(QueueOf(before, p), x.node, QueueOf(later, p));
    } else {
      assert QueueOf(before, p) + [] == QueueOf(before, p);
    }
  }

  lemma {:induction false} HeadRemoved(before: seq<Text>, x: Text, later: seq<Text>)
    requires x !in before && (before + [x] + later)[0] == x
    ensures before == [] && (before + [x] + later)[1..] == before + later
  {
  }

  lemma {:induction false} NotBefore(acqs: seq<Acquisition>, i: nat, p: nat)
    requires Distinct(acqs) && i < |acqs|
    ensures acqs[i].node !in QueueOf(acqs[..i], p)
  {
    QueueMembers(acqs[..i], p);
  }

  /** Queues follow the acquisition order. */
  lemma {:induction false} QueueInOrder(acqs: seq<Acquisition>, p: nat, e: nat, f: nat, m: nat, j: nat)
    requires Distinct(acqs) && m < |acqs| && j < |acqs| && e < f < |QueueOf(acqs, p)|
    requires QueueOf(acqs, p)[e] == acqs[m].node && QueueOf(acqs, p)[f] == acqs[j].node
    ensures m < j
  {
    var n := |acqs| - 1;
    var q := QueueOf(acqs[..n], p);
    NotBefore(acqs, n, p);
    assert q[e] in q;
    assert m != n;
    if f < |q| {
      assert q[f] in q;
      QueueInOrder(acqs[..n], p, e, f, m, j);
    } else {
      assert acqs[j].node == acqs[n].node;
    }
  }

  lemma {:induction false} NobodyTouches(acqs: seq<Acquisition>, p: nat)
    requires forall m :: 0 <= m < |acqs| ==> !Touches(acqs[m], p)
    ensures QueueOf(acqs, p) == []
  {
    if acqs != [] {
      NobodyTouches(acqs[..|acqs| - 1], p);
    }
  }

  /** A participant that comes to a queue with nobody later in it is its new end. */
  lemma {:induction false} QueueJoined(acqs: seq<Acquisition>, j: nat, b: Acquisition, p: nat)
    requires j < |acqs| && b.node == acqs[j].node && (Touches(acqs[j], p) ==> Touches(b, p))
    requires Touches(b, p) && !Touches(acqs[j], p) ==> forall m :: j < m < |acqs| ==> !Touches(acqs[m], p)
    ensures QueueOf(acqs[j := b], p)
         == QueueOf(acqs, p) + (if Touches(b, p) && !Touches(acqs[j], p) then [b.node] else [])
  {
    var before, later := acqs[..j], acqs[j + 1..];
    assert acqs == before + [acqs[j]] + later && acqs[j := b] == before + [b] + later;
    QueueConcat(before + [acqs[j]], later, p);
    QueueConcat(before + [b], later, p);
    QueueSnoc(before, acqs[j], p);
    QueueSnoc(before, b, p);
    if Touches(b, p) && !Touches(acqs[j], p) {
      NobodyTouches(later, p);
    }
  }

  // ---- the promotion loop between two positions ------------------------------------------

  /** A lock is settled, or freed and still to be handed on. */
  ghost predicate Settles(lock: Lock, q: seq<Text>, open: bool) {
    lock == LockOf(q) || (open && lock == Lock(None, q))
  }

  ghost predicate Owns(locks: seq<Lock>, a: Acquisition)
    requires WellFormed(a, |locks|)
  {
    forall k :: 0 <= k < Touched(a) ==> (k < a.held <==> locks[a.required[k]].owner == Some(a.node))
  }

  /** All queues are in acquisition order; from position `p` on, a lock may still wait for its new owner. */
  ghost predicate Settling(s: Snapshot, p: nat) {
    && Participants(s.acquisitions, |s.locks|)
    && (forall q :: 0 <= q < |s.locks| ==> Settles(s.locks[q], QueueOf(s.acquisitions, q), p <= q))
    && (forall i :: 0 <= i < |s.acquisitions| ==> Owns(s.locks, s.acquisitions[i]))
  }

  lemma {:induction false} InLineIffTouches(s: Snapshot, p: nat, q: nat, j: nat)
    requires Settling(s, p) && q < |s.locks| && j < |s.acquisitions|
    ensures Line(s.locks[q]) == QueueOf(s.acquisitions, q)
    ensures s.acquisitions[j].node in Line(s.locks[q]) <==> Touches(s.acquisitions[j], q)
  {
    QueueMembers(s.acquisitions, q);
    assert Settles(s.locks[q], QueueOf(s.acquisitions, q), p <= q);
  }

  lemma {:induction false} SettledIsOrderly(s: Snapshot)
    requires Settling(s, |s.locks|)
    ensures Orderly(s)
  {
    forall i | 0 <= i < |s.acquisitions|
      ensures HoldsItsHeads(s.acquisitions, s.acquisitions[i])
    {
      var a := s.acquisitions[i];
      assert WellFormed(a, |s.locks|) && Owns(s.locks, a);
      forall k | 0 <= k < Touched(a)
        ensures var q := QueueOf(s.acquisitions, a.required[k]); q != [] && (k < a.held <==> q[0] == a.node)
      {
        InLineIffTouches(s, |s.locks|, a.required[k], i);
        assert Touches(a, a.required[k]);
        assert Settles(s.locks[a.required[k]], QueueOf(s.acquisitions, a.required[k]), false);
      }
    }
  }

  lemma {:induction false} QuietSettles(s: Snapshot, p: nat)
    requires Settling(s, p) && p < |s.locks| && (s.locks[p].owner.None? ==> s.locks[p].waiters == [])
    ensures Settling(s, p + 1)
  {
    forall q | 0 <= q < |s.locks|
      ensures Settles(s.locks[q], QueueOf(s.acquisitions, q), p + 1 <= q)
    {
      assert Settles(s.locks[q], QueueOf(s.acquisitions, q), p <= q);
    }
  }

  /** What an orderly snapshot says of the released participant: it heads every queue it is in. */
  lemma {:induction false} ReleasedHeads(s: Snapshot, i: nat, p: nat)
    requires Orderly(s) && i < |s.acquisitions| && s.acquisitions[i].held == |s.acquisitions[i].required|
    ensures Touches(s.acquisitions[i], p) ==>
              QueueOf(s.acquisitions, p) != [] && QueueOf(s.acquisitions, p)[0] == s.acquisitions[i].node
    ensures Touches(s.acquisitions[i], p) <==> p in s.acquisitions[i].required[..s.acquisitions[i].held]
  {
    assert HoldsItsHeads(s.acquisitions, s.acquisitions[i]);
    TouchesPrefix(s.acquisitions[i], p);
  }

  lemma {:induction false} RestDistinct(acqs: seq<Acquisition>, i: nat, n: nat)
    requires Participants(acqs, n) && i < |acqs|
    ensures Participants(Without(acqs, i), n)
    ensures forall j :: 0 <= j < |Without(acqs, i)| ==> Without(acqs, i)[j] == acqs[if j < i then j else j + 1]
  {
  }

  /** Freeing what a participant holds leaves its queues to be handed on. */
  lemma {:induction false} FreedSettles(s: Snapshot, i: nat)
    requires Orderly(s) && i < |s.acquisitions| && s.acquisitions[i].held == |s.acquisitions[i].required|
    ensures Settling(Snapshot(Freed(s.locks, s.acquisitions[i]), Without(s.acquisitions, i)), 0)
  {
    var x, rest, locks := s.acquisitions[i], Without(s.acquisitions, i), Freed(s.locks, s.acquisitions[i]);
    RestDistinct(s.acquisitions, i, |s.locks|);
    forall q | 0 <= q < |locks|
      ensures Settles(locks[q], QueueOf(rest, q), true)
    {
      ReleasedHeads(s, i, q);
      QueueWithout(s.acquisitions, i, q);
      assert s.locks[q] == LockOf(QueueOf(s.acquisitions, q));
    }
    forall j | 0 <= j < |rest|
      ensures Owns(locks, rest[j])
    {
      FreedOwns(s, i, if j < i then j else j + 1);
    }
  }

  lemma {:induction false} FreedOwns(s: Snapshot, i: nat, m: nat)
    requires Orderly(s) && i < |s.acquisitions| && s.acquisitions[i].held == |s.acquisitions[i].required|
    requires m < |s.acquisitions| && m != i
    ensures WellFormed(s.acquisitions[m], |s.locks|) && Owns(Freed(s.locks, s.acquisitions[i]), s.acquisitions[m])
  {
    var x, a, locks := s.acquisitions[i], s.acquisitions[m], Freed(s.locks, s.acquisitions[i]);
    assert x.node != a.node && WellFormed(a, |s.locks|) && HoldsItsHeads(s.acquisitions, a);
    forall k | 0 <= k < Touched(a)
      ensures k < a.held <==> locks[a.required[k]].owner == Some(a.node)
    {
      ReleasedHeads(s, i, a.required[k]);
      assert s.locks[a.required[k]] == LockOf(QueueOf(s.acquisitions, a.required[k]));
    }
  }

  // ---- one promotion ---------------------------------------------------------------------

  /** The first waiter of a free lock waits exactly there. */
  lemma {:induction false} PromotedWaits(s: Snapshot, p: nat) returns (j: nat)
    requires Settling(s, p) && p < |s.locks| && s.locks[p].owner.None? && s.locks[p].waiters != []
    ensures Find(s.acquisitions, s.locks[p].waiters[0]) == Some(j) && WaitsAt(s.acquisitions[j]) == Some(p)
    ensures s.locks[p] == Lock(None, QueueOf(s.acquisitions, p))
  {
    var q := QueueOf(s.acquisitions, p);
    assert Settles(s.locks[p], q, true);
    QueueMembers(s.acquisitions, p);
    assert q[0] in q;
    j :| 0 <= j < |s.acquisitions| && s.acquisitions[j].node == q[0] && Touches(s.acquisitions[j], p);
    FoundIs(s.acquisitions, j);
    var w := s.acquisitions[j];
    assert WellFormed(w, |s.locks|) && Owns(s.locks, w);
    var k :| 0 <= k < Touched(w) && w.required[k] == p;
    assert k == w.held;
  }

  /** A participant is in no queue beyond the one it waits in. */
  lemma {:induction false} NotBeyond(s: Snapshot, p: nat, j: nat, k: nat)
    requires Settling(s, p) && j < |s.acquisitions| && Touched(s.acquisitions[j]) <= k < |s.acquisitions[j].required|
    ensures s.acquisitions[j].required[k] < |s.locks|
    ensures s.acquisitions[j].node !in Line(s.locks[s.acquisitions[j].required[k]])
    ensures !Touches(s.acquisitions[j], s.acquisitions[j].required[k])
  {
    var w := s.acquisitions[j];
    assert WellFormed(w, |s.locks|);
    InLineIffTouches(s, p, w.required[k], j);
  }

  /** The locks once the first waiter of `p` has taken it. */
  function Handed(s: Snapshot, p: nat): (locks: seq<Lock>)
    requires p < |s.locks| && s.locks[p].waiters != []
    ensures |locks| == |s.locks|
  {
    s.locks[p := Lock(Some(s.locks[p].waiters[0]), s.locks[p].waiters[1..])]
  }

  lemma {:induction false} HandedFirst(s: Snapshot, p: nat, j: nat)
    requires p < |s.locks| && s.locks[p].owner.None? && s.locks[p].waiters != [] && j < |s.acquisitions|
    requires WellFormed(s.acquisitions[j], |s.locks|)
    requires s.acquisitions[j].node == s.locks[p].waiters[0] && WaitsAt(s.acquisitions[j]) == Some(p)
    ensures Advance(s.locks, s.acquisitions[j])
         == Advance(Handed(s, p), s.acquisitions[j].(held := s.acquisitions[j].held + 1))
  {
  }

  /** The promoted participant takes its resource, everything free after it, and queues up at most once. */
  lemma {:induction false} PromotionAdvances(s: Snapshot, p: nat, j: nat)
    requires Settling(s, p) && p < |s.locks| && s.locks[p].owner.None? && s.locks[p].waiters != []
    requires j < |s.acquisitions| && s.acquisitions[j].node == s.locks[p].waiters[0]
    requires WaitsAt(s.acquisitions[j]) == Some(p)
    ensures WellFormed(s.acquisitions[j], |s.locks|)
    ensures var w := s.acquisitions[j]; var r := Advance(s.locks, w);
                                        StopsAt(Handed(s, p), w.required, w.held + 1, r.1.held)
                                        && Advanced(Handed(s, p), w.held + 1, r.1, r.0)
  {
    var w := s.acquisitions[j];
    assert WellFormed(w, |s.locks|);
    var a, locks := w.(held := w.held + 1), Handed(s, p);
    HandedFirst(s, p, j);
    forall k | a.held <= k < |a.required|
      ensures CanTake(locks[a.required[k]], a.node) <==> locks[a.required[k]] == FREE
    {
      NotBeyond(s, p, j, k);
    }
    AdvanceFromFree(locks, a.held, a, locks);
  }

  /** A participant that has moved on: what it newly touches are the resources behind the one it waited for. */
  lemma {:induction false} NewlyTouched(w: Acquisition, b: Acquisition, n: nat, q: nat)
    requires WellFormed(w, n) && w.held < b.held <= |w.required| && b == w.(held := b.held)
    ensures Touches(w, q) ==> Touches(b, q)
    ensures Touches(b, q) && !Touches(w, q)
       <==> Takes(w, b, q) || Joins(w, b, q)
  {
    TouchesPrefix(w, q);
    TouchesPrefix(b, q);
    assert w.required[..b.held] == w.required[..w.held] + [w.required[w.held]] + w.required[w.held + 1..b.held];
    if q in w.required[w.held + 1..b.held] {
      var k :| w.held + 1 <= k < b.held && w.required[k] == q;
      assert q !in w.required[..w.held];
    }
  }

  /** One promotion, as far as the next lemmas need it. */
  ghost predicate Moves(s: Snapshot, p: nat, j: nat, after: Snapshot) {
    && Settling(s, p) && p < |s.locks| && j < |s.acquisitions| && s.locks[p].owner.None? && s.locks[p].waiters != []
    && s.locks[p] == Lock(None, QueueOf(s.acquisitions, p))
    && s.acquisitions[j].node == s.locks[p].waiters[0] && WaitsAt(s.acquisitions[j]) == Some(p)
    && WellFormed(s.acquisitions[j], |s.locks|) && after == Moved(s, j)
    && Advance(s.locks, s.acquisitions[j]) == (after.locks, after.acquisitions[j])
    && after.acquisitions == s.acquisitions[j := after.acquisitions[j]]
    && after.acquisitions[j] == s.acquisitions[j].(held := after.acquisitions[j].held)
    && s.acquisitions[j].held < after.acquisitions[j].held <= |s.acquisitions[j].required|
    && StopsAt(Handed(s, p), s.acquisitions[j].required, s.acquisitions[j].held + 1, after.acquisitions[j].held)
    && Advanced(Handed(s, p), s.acquisitions[j].held + 1, after.acquisitions[j], after.locks)
  }

  /** What a queue becomes when the promotion joins in turn. */
  lemma {:induction false} MovedQueue(s: Snapshot, p: nat, j: nat, after: Snapshot, q: nat)
    requires Moves(s, p, j, after) && JoinsInTurn(s, j) && q < |s.locks|
    ensures QueueOf(after.acquisitions, q)
         == QueueOf(s.acquisitions, q)
            + (if Touches(after.acquisitions[j], q)
                  && !Touches(s.acquisitions[j], q) then [s.acquisitions[j].node] else [])
  {
    var w, b := s.acquisitions[j], after.acquisitions[j];
    NewlyTouched(w, b, |s.locks|, q);
    if Touches(b, q) && !Touches(w, q) {
      forall m | j < m < |s.acquisitions|
        ensures !Touches(s.acquisitions[m], q)
      {
        NobodyLaterThere(s, p, j, after, q, m);
      }
    }
    QueueJoined(s.acquisitions, j, b, q);
  }

  lemma {:induction false} NobodyLaterThere(s: Snapshot, p: nat, j: nat, after: Snapshot, q: nat, m: nat)
    requires Moves(s, p, j, after) && JoinsInTurn(s, j) && q < |s.locks| && j < m < |s.acquisitions|
    requires Takes(s.acquisitions[j], after.acquisitions[j], q) || Joins(s.acquisitions[j], after.acquisitions[j], q)
    ensures !Touches(s.acquisitions[m], q)
  {
    InLineIffTouches(s, p, q, m);
    MovedShape(s, p, j, after, q);
  }

  /** How the participant comes to resource `q` when it moves on: it takes it, or it joins its line. */
  ghost predicate Takes(w: Acquisition, b: Acquisition, q: nat)
    requires w.held < b.held <= |w.required|
  {
    q in w.required[w.held + 1..b.held]
  }

  ghost predicate Joins(w: Acquisition, b: Acquisition, q: nat) {
    b.held < |w.required| && q == w.required[b.held]
  }

  lemma {:induction false} MovedShape(s: Snapshot, p: nat, j: nat, after: Snapshot, q: nat)
    requires Moves(s, p, j, after) && q < |s.locks|
    ensures |after.locks| == |s.locks|
    ensures var w, b, lock := s.acquisitions[j], after.acquisitions[j], s.locks[q];
            && (Takes(w, b, q) ==> q != p && lock == FREE && after.locks[q] == Lock(Some(w.node), []))
            && (Joins(w, b, q) ==> q != p && !Takes(w, b, q) && lock != FREE
                                   && after.locks[q] == lock.(waiters := lock.waiters + [w.node]))
            && (!Takes(w, b, q) && !Joins(w, b, q) ==> after.locks[q] == Handed(s, p)[q])
  {
    var w, b := s.acquisitions[j], after.acquisitions[j];
    if q in w.required[w.held + 1..b.held] {
      var k :| w.held + 1 <= k < b.held && w.required[k] == q;
      assert Handed(s, p)[w.required[k]] == FREE;
    }
  }

  lemma {:induction false} MovedLock(s: Snapshot, p: nat, j: nat, after: Snapshot, q: nat)
    requires Moves(s, p, j, after) && JoinsInTurn(s, j) && q < |s.locks|
    ensures |after.locks| == |s.locks| && Settles(after.locks[q], QueueOf(after.acquisitions, q), p + 1 <= q)
  {
    MovedShape(s, p, j, after, q);
    MovedQueue(s, p, j, after, q);
    NewlyTouched(s.acquisitions[j], after.acquisitions[j], |s.locks|, q);
    LockSettles(s.acquisitions[j], after.acquisitions[j], s.locks[q], QueueOf(s.acquisitions, q), after.locks[q], p, q);
  }

  lemma {:induction false} LockSettles(w: Acquisition, b: Acquisition, lock: Lock, line: seq<Text>, after: Lock, p: nat,
                                       q: nat)
    requires w.held < b.held <= |w.required| && Settles(lock, line, p <= q)
    requires Takes(w, b, q) ==> q != p && lock == FREE && after == Lock(Some(w.node), [])
    requires Joins(w, b, q) ==>
               q != p && !Takes(w, b, q) && lock != FREE && after == lock.(waiters := lock.waiters + [w.node])
    requires !Takes(w, b, q) && !Joins(w, b, q) ==> after == if q == p then LockOf(line) else lock
    ensures Settles(after, line + (if Takes(w, b, q) || Joins(w, b, q) then [w.node] else []), p + 1 <= q)
  {
    if Takes(w, b, q) {
      assert line == [] && line + [w.node] == [w.node];
    } else if Joins(w, b, q) {
      assert line != [] && (line + [w.node])[1..] == line[1..] + [w.node];
    } else {
      assert line + [] == line;
    }
  }

  lemma {:induction false} MovedOwns(s: Snapshot, p: nat, j: nat, after: Snapshot, m: nat)
    requires Moves(s, p, j, after) && m < |s.acquisitions|
    ensures WellFormed(after.acquisitions[m], |after.locks|) && Owns(after.locks, after.acquisitions[m])
  {
    var a := after.acquisitions[m];
    assert WellFormed(s.acquisitions[m], |s.locks|) && Owns(s.locks, s.acquisitions[m]);
    forall k | 0 <= k < Touched(a)
      ensures k < a.held <==> after.locks[a.required[k]].owner == Some(a.node)
    {
      if m == j {
        MoverOwns(s, p, j, after, k);
      } else {
        OthersOwn(s, p, j, after, m, k);
      }
    }
  }

  lemma {:induction false} MoverOwns(s: Snapshot, p: nat, j: nat, after: Snapshot, k: nat)
    requires Moves(s, p, j, after) && k < Touched(after.acquisitions[j])
    ensures k < after.acquisitions[j].held
       <==> after.locks[s.acquisitions[j].required[k]].owner == Some(s.acquisitions[j].node)
  {
    var w, b := s.acquisitions[j], after.acquisitions[j];
    MovedShape(s, p, j, after, w.required[k]);
    TakesByIndex(w, b, |s.locks|, k);
    if k == b.held {
      NotBeyond(s, p, j, k);
    } else {
      assert Owns(s.locks, w);
    }
  }

  lemma {:induction false} TakesByIndex(w: Acquisition, b: Acquisition, n: nat, k: nat)
    requires WellFormed(w, n) && w.held < b.held <= |w.required| && k < |w.required|
    ensures Takes(w, b, w.required[k]) <==> w.held < k < b.held
    ensures Joins(w, b, w.required[k]) <==> k == b.held
    ensures w.required[k] == w.required[w.held] <==> k == w.held
  {
    var taken := w.required[w.held + 1..b.held];
    if w.held < k < b.held {
      assert taken[k - w.held - 1] == w.required[k];
    }
    if Takes(w, b, w.required[k]) {
      var i :| 0 <= i < |taken| && taken[i] == w.required[k];
      assert w.required[w.held + 1 + i] == w.required[k];
      SameIndex(w.required, w.held + 1 + i, k);
    }
    SameIndex(w.required, w.held, k);
    if b.held < |w.required| {
      SameIndex(w.required, b.held, k);
    }
  }

  lemma {:induction false} SameIndex(s: seq<nat>, i: nat, j: nat)
    requires i < |s| && j < |s| && forall a, b :: 0 <= a < b < |s| ==> s[a] < s[b]
    ensures s[i] == s[j] <==> i == j
  {
  }

  lemma {:induction false} OthersOwn(s: Snapshot, p: nat, j: nat, after: Snapshot, m: nat, k: nat)
    requires Moves(s, p, j, after) && m < |s.acquisitions| && m != j && k < Touched(s.acquisitions[m])
    ensures s.acquisitions[m].required[k] < |s.locks|
    ensures k < s.acquisitions[m].held
       <==> after.locks[s.acquisitions[m].required[k]].owner == Some(s.acquisitions[m].node)
  {
    var w, a, b := s.acquisitions[j], s.acquisitions[m], after.acquisitions[j];
    assert WellFormed(a, |s.locks|) && Owns(s.locks, a) && a.node != w.node;
    var q := a.required[k];
    assert Touches(a, q);
    InLineIffTouches(s, p, q, m);
    MovedShape(s, p, j, after, q);
  }

  lemma {:induction false} PromotionSettles(s: Snapshot, p: nat, j: nat, after: Snapshot)
    requires Moves(s, p, j, after) && JoinsInTurn(s, j)
    ensures Settling(after, p + 1)
  {
    forall q | 0 <= q < |after.locks|
      ensures Settles(after.locks[q], QueueOf(after.acquisitions, q), p + 1 <= q)
    {
      MovedLock(s, p, j, after, q);
    }
    forall m | 0 <= m < |after.acquisitions|
      ensures WellFormed(after.acquisitions[m], |after.locks|) && Owns(after.locks, after.acquisitions[m])
    {
      MovedOwns(s, p, j, after, m);
    }
  }

  // ---- who joined out of turn stays out of turn ------------------------------------------

  lemma {:induction false} AdvanceGrowsLines(locks: seq<Lock>, a: Acquisition, q: nat)
    requires WellFormed(a, |locks|) && q < |locks|
    ensures Line(locks[q]) <= Line(Advance(locks, a).0[q])
    decreases |a.required| - a.held
  {
    if a.held < |a.required| {
      var p := a.required[a.held];
      if CanTake(locks[p], a.node) {
        AdvanceGrowsLines(locks[p := Lock(Some(a.node), if locks[p].waiters == [] then [] else locks[p].waiters[1..])],
                          a.(held := a.held + 1), q);
      }
    }
  }

  lemma {:induction false} PromoteGrowsLines(s: Snapshot, p: nat, q: nat)
    requires p <= |s.locks| && Participants(s.acquisitions, |s.locks|) && q < |s.locks|
    ensures Line(s.locks[q]) <= Line(Promote(s, p).locks[q])
    decreases |s.locks| - p
  {
    if p < |s.locks| {
      match FirstWaiter(s, p)
      case None =>
        PromoteGrowsLines(s, p + 1, q);
      case Some(j) =>
        AdvanceGrowsLines(s.locks, s.acquisitions[j], q);
        PromoteGrowsLines(Moved(s, j), p + 1, q);
    }
  }

  /** A line with a later participant ahead of an earlier one is in no orderly snapshot. */
  lemma {:induction false} OutOfTurn(s: Snapshot, q: nat, e: nat, f: nat, m: nat, j: nat)
    requires Participants(s.acquisitions, |s.locks|) && q < |s.locks| && e < f < |Line(s.locks[q])|
    requires j < m < |s.acquisitions|
    requires Line(s.locks[q])[e] == s.acquisitions[m].node && Line(s.locks[q])[f] == s.acquisitions[j].node
    ensures !Orderly(s)
  {
    if Orderly(s) {
      assert s.locks[q] == LockOf(QueueOf(s.acquisitions, q));
      assert Line(s.locks[q]) == QueueOf(s.acquisitions, q);
      QueueInOrder(s.acquisitions, q, e, f, m, j);
    }
  }

  /** Once a line is out of turn, the rest of the loop keeps it so. */
  lemma {:induction false} OutOfTurnStays(s: Snapshot, p: nat, q: nat, e: nat, f: nat, m: nat, j: nat)
    requires Participants(s.acquisitions, |s.locks|) && p <= |s.locks| && q < |s.locks|
    requires e < f < |Line(s.locks[q])| && j < m < |s.acquisitions|
    requires Line(s.locks[q])[e] == s.acquisitions[m].node && Line(s.locks[q])[f] == s.acquisitions[j].node
    ensures !Orderly(Promote(s, p))
  {
    PromoteGrowsLines(s, p, q);
    OutOfTurn(Promote(s, p), q, e, f, m, j);
  }

  /** The line that a promoted participant joins. */
  lemma {:induction false} JoinedLine(s: Snapshot, p: nat, j: nat, after: Snapshot)
    requires Moves(s, p, j, after) && after.acquisitions[j].held < |s.acquisitions[j].required|
    ensures var q := s.acquisitions[j].required[after.acquisitions[j].held];
            q < |s.locks| == |after.locks| && Line(after.locks[q]) == Line(s.locks[q]) + [s.acquisitions[j].node]
  {
    MovedShape(s, p, j, after, s.acquisitions[j].required[after.acquisitions[j].held]);
  }

  /** Who is ahead, and where, when a participant joins out of turn. */
  lemma {:induction false} LateJoin(s: Snapshot, j: nat) returns (q: nat, e: nat, m: nat)
    requires Participants(s.acquisitions, |s.locks|) && j < |s.acquisitions| && !JoinsInTurn(s, j)
    ensures var b := Moved(s, j).acquisitions[j];
            b.held < |s.acquisitions[j].required| && q == s.acquisitions[j].required[b.held] && q < |s.locks|
    ensures j < m < |s.acquisitions| && e < |Line(s.locks[q])| && Line(s.locks[q])[e] == s.acquisitions[m].node
  {
    var b := Advance(s.locks, s.acquisitions[j]).1;
    q := b.required[b.held];
    m :| j < m < |s.acquisitions| && s.acquisitions[m].node in Line(s.locks[q]);
    e :| 0 <= e < |Line(s.locks[q])| && Line(s.locks[q])[e] == s.acquisitions[m].node;
  }

  lemma {:induction false} LateJoinRejected(s: Snapshot, p: nat, j: nat)
    requires Participants(s.acquisitions, |s.locks|) && j < |s.acquisitions| && p < |s.locks|
    requires Moves(s, p, j, Moved(s, j)) && !JoinsInTurn(s, j)
    ensures !Orderly(Promote(Moved(s, j), p + 1))
  {
    var q, e, m := LateJoin(s, j);
    JoinedLine(s, p, j, Moved(s, j));
    OutOfTurnStays(Moved(s, j), p + 1, q, e, |Line(s.locks[q])|, m, j);
  }

  ghost predicate InProgress(s: Snapshot, p: nat) {
    forall z: Seal :: z.Broken() ==> Settling(s, p)
  }

  /** The promotion loop ends in order exactly when every promotion joins in turn. */
  lemma {:induction false} PromoteOrderlyIff(s: Snapshot, p: nat)
    requires InProgress(s, p) && p <= |s.locks| && Participants(s.acquisitions, |s.locks|)
    ensures Orderly(Promote(s, p)) <==> InTurn(s, p)
    decreases |s.locks| - p
  {
    if p == |s.locks| {
      PromotionEnds(s);
    } else if s.locks[p].owner.None? && s.locks[p].waiters != [] {
      var j := PromotionOutcome(s, p);
      var next := Moved(s, j);
      if JoinsInTurn(s, j) {
        PromoteOrderlyIff(next, p + 1);
      }
      PromotionDecides(s, p, j, next);
    } else {
      QuietProgress(s, p);
      PromoteOrderlyIff(s, p + 1);
      QuietDecides(s, p);
    }
  }

  lemma {:induction false} PromotionEnds(s: Snapshot)
    requires InProgress(s, |s.locks|) && Participants(s.acquisitions, |s.locks|)
    ensures Orderly(Promote(s, |s.locks|)) && InTurn(s, |s.locks|)
  {
    assert Seal.Seal.Broken();
    SettledIsOrderly(s);
  }

  lemma {:induction false} QuietProgress(s: Snapshot, p: nat)
    requires InProgress(s, p) && p < |s.locks| && (s.locks[p].owner.None? ==> s.locks[p].waiters == [])
    ensures InProgress(s, p + 1)
  {
    assert Seal.Seal.Broken();
    QuietSettles(s, p);
  }

  lemma {:induction false} QuietDecides(s: Snapshot, p: nat)
    requires Participants(s.acquisitions, |s.locks|) && p < |s.locks| && FirstWaiter(s, p).None?
    requires Orderly(Promote(s, p + 1)) <==> InTurn(s, p + 1)
    ensures Orderly(Promote(s, p)) <==> InTurn(s, p)
  {
  }

  /** One promotion decides: it joins in turn and the rest ends in order, or nothing does. */
  lemma {:induction false} PromotionDecides(s: Snapshot, p: nat, j: nat, next: Snapshot)
    requires Participants(s.acquisitions, |s.locks|) && j < |s.acquisitions| && p < |s.locks|
    requires FirstWaiter(s, p) == Some(j) && next == Moved(s, j)
    requires JoinsInTurn(s, j) ==> (Orderly(Promote(next, p + 1)) <==> InTurn(next, p + 1))
    requires !JoinsInTurn(s, j) ==> !Orderly(Promote(next, p + 1))
    ensures Orderly(Promote(s, p)) <==> InTurn(s, p)
  {
    assert Promote(s, p) == Promote(next, p + 1);
    assert InTurn(s, p) <==> JoinsInTurn(s, j) && InTurn(next, p + 1);
  }

  /** What one promotion leaves: settled locks up to its position, or a line out of turn for good. */
  lemma {:induction false} PromotionOutcome(s: Snapshot, p: nat) returns (j: nat)
    requires InProgress(s, p) && p < |s.locks| && s.locks[p].owner.None? && s.locks[p].waiters != []
    requires Participants(s.acquisitions, |s.locks|)
    ensures j < |s.acquisitions| && FirstWaiter(s, p) == Some(j)
    ensures JoinsInTurn(s, j) ==> InProgress(Moved(s, j), p + 1)
    ensures !JoinsInTurn(s, j) ==> !Orderly(Promote(Moved(s, j), p + 1))
  {
    assert Seal.Seal.Broken();
    j := PromotedWaits(s, p);
    PromotionAdvances(s, p, j);
    assert Moves(s, p, j, Moved(s, j));
    if JoinsInTurn(s, j) {
      PromotionSettles(s, p, j, Moved(s, j));
    } else {
      LateJoinRejected(s, p, j);
    }
  }

  /** The reducer accepts a release exactly when nobody it lets through has to queue up behind a participant
      that acquired later. */
  lemma {:induction false} ReleaseAcceptedIff(s: Snapshot, i: nat)
    requires Validates(s) && i < |s.acquisitions| && s.acquisitions[i].held == |s.acquisitions[i].required|
    ensures Validates(Release(s, i)) <==> ReleasesInTurn(s, i)
  {
    ValidatesIffOrderly(s);
    FreedSettles(s, i);
    PromoteOrderlyIff(Snapshot(Freed(s.locks, s.acquisitions[i]), Without(s.acquisitions, i)), 0);
    ValidatesIffOrderly(Release(s, i));
  }

  // ---- a release that is rejected --------------------------------------------------------

  /** A participant that takes its only resource, and one that stops at the first. */
  lemma {:induction false} TakesOne(locks: seq<Lock>, node: Text, p: nat)
    requires p < |locks| && locks[p] == FREE
    ensures Advance(locks, Acquisition(node, [p], 0)) == (locks[p := Lock(Some(node), [])], Acquisition(node, [p], 1))
  {
    var b := Acquisition(node, [p], 1);
    assert Advance(locks[p := Lock(Some(node), [])], b) == (locks[p := Lock(Some(node), [])], b);
  }

  lemma {:induction false} StopsAtOnce(locks: seq<Lock>, a: Acquisition)
    requires WellFormed(a, |locks|) && a.held < |a.required| && locks[a.required[a.held]].owner.Some?
    ensures var p := a.required[a.held];
            Advance(locks, a) == (locks[p := locks[p].(waiters := locks[p].waiters + [a.node])], a)
  {
  }

  /** Three participants over two resources: the second waits behind the first, the third holds what the
      second needs next. */
  function Overtaken(a: Text, b: Text, c: Text): (s: Snapshot) {
    Snapshot([Lock(Some(a), [b]), Lock(Some(c), [])],
             [Acquisition(a, [0], 1), Acquisition(b, [0, 1], 0), Acquisition(c, [1], 1)])
  }

  function OneHolder(a: Text): (s: Snapshot) {
    Snapshot([Lock(Some(a), []), FREE], [Acquisition(a, [0], 1)])
  }

  function OneWaiter(a: Text, b: Text): (s: Snapshot) {
    Snapshot([Lock(Some(a), [b]), FREE], [Acquisition(a, [0], 1), Acquisition(b, [0, 1], 0)])
  }

  lemma {:induction false} HolderValidates(a: Text)
    ensures Validates(OneHolder(a))
  {
    var s0 := Snapshot([FREE, FREE], []);
    NothingHeld(2);
    assert s0.locks == seq(2, i => FREE);
    ValidatesIffOrderly(s0);
    TakesOne(s0.locks, a, 0);
    assert s0.locks[0 := Lock(Some(a), [])] == OneHolder(a).locks;
    assert s0.acquisitions + [Acquisition(a, [0], 1)] == OneHolder(a).acquisitions;
    AcquireValidates(s0, a, [0]);
  }

  lemma {:induction false} WaiterValidates(a: Text, b: Text)
    requires a != b
    ensures Validates(OneWaiter(a, b))
  {
    var s, z := OneHolder(a), Acquisition(b, [0, 1], 0);
    HolderValidates(a);
    StopsAtOnce(s.locks, z);
    assert [] + [b] == [b];
    assert s.locks[0 := Lock(Some(a), [b])] == OneWaiter(a, b).locks;
    assert s.acquisitions + [z] == OneWaiter(a, b).acquisitions;
    FoundNone(s.acquisitions[0], b);
    AcquireValidates(s, b, [0, 1]);
  }

  lemma {:induction false} FoundNone(x: Acquisition, node: Text)
    requires x.node != node
    ensures Find([x], node).None?
  {
    assert [x][..0] == [];
  }

  lemma {:induction false} OvertakenIsReached(a: Text, b: Text, c: Text)
    requires a != b && b != c && a != c
    ensures Validates(Overtaken(a, b, c))
  {
    var s := OneWaiter(a, b);
    WaiterValidates(a, b);
    TakesOne(s.locks, c, 1);
    assert s.locks[1 := Lock(Some(c), [])] == Overtaken(a, b, c).locks;
    assert s.acquisitions + [Acquisition(c, [1], 1)] == Overtaken(a, b, c).acquisitions;
    FoundNone(s.acquisitions[0], c);
    assert s.acquisitions[..1] == [s.acquisitions[0]];
    AcquireValidates(s, c, [1]);
  }

  /** The second participant takes what was freed and has to queue up behind the third. */
  lemma {:induction false} SecondStops(b: Text, c: Text)
    ensures Advance([Lock(None, [b]), Lock(Some(c), [])], Acquisition(b, [0, 1], 0)).1 == Acquisition(b, [0, 1], 1)
  {
    var locks, a := [Lock(None, [b]), Lock(Some(c), [])], Acquisition(b, [0, 1], 0);
    assert CanTake(locks[0], b);
    StopsAtOnce(locks[0 := Lock(Some(b), locks[0].waiters[1..])], a.(held := 1));
  }

  /** The same, the first participant gone. */
  function Stuck(b: Text, c: Text): (s: Snapshot) {
    Snapshot([Lock(None, [b]), Lock(Some(c), [])], [Acquisition(b, [0, 1], 0), Acquisition(c, [1], 1)])
  }

  lemma {:induction false} SecondOvertakes(b: Text, c: Text)
    requires b != c
    ensures Participants(Stuck(b, c).acquisitions, |Stuck(b, c).locks|) && !InTurn(Stuck(b, c), 0)
  {
    var s := Stuck(b, c);
    FoundIs(s.acquisitions, 0);
    SecondStops(b, c);
    assert s.acquisitions[1].node in Line(s.locks[1]);
    assert !JoinsInTurn(s, 0);
  }

  lemma {:induction false} FreedFirst(a: Text, b: Text, c: Text)
    ensures Freed(Overtaken(a, b, c).locks, Acquisition(a, [0], 1)) == [Lock(None, [b]), Lock(Some(c), [])]
  {
    var held := [0][..1];
    assert held == [0] && 0 in held && 1 !in held;
  }

  /** The finding: releasing the first participant of a valid snapshot makes the second queue up behind a
      later one, and the reducer rejects its own result. */
  lemma {:induction false} ReleaseCanBeRejected(a: Text, b: Text, c: Text)
    requires a != b && b != c && a != c
    ensures Validates(Overtaken(a, b, c)) && Overtaken(a, b, c).acquisitions[0].held == 1
    ensures !Validates(Release(Overtaken(a, b, c), 0))
  {
    var s := Overtaken(a, b, c);
    OvertakenIsReached(a, b, c);
    ReleaseAcceptedIff(s, 0);
    FreedFirst(a, b, c);
    assert Without(s.acquisitions, 0) == Stuck(b, c).acquisitions;
    RestDistinct(s.acquisitions, 0, 2);
    SecondOvertakes(b, c);
  }
}
