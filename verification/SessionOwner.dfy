/** The one live Session of a graph family under concurrent, cancellable commits. */
module SessionOwner {
  import opened FrameIndex

  // ---- confirmed commits and the Session they carry --------------------------------------

  /** The Session a commit carries: its explicit successor, or else the current one. */
  function Selected<S>(current: Option<S>, successor: Option<S>): (s: Option<S>) {
    if successor.None? then current else successor
  }

  datatype Commit<+S, +T> = Commit(owner: nat, successor: Option<S>, session: Option<S>, value: T)

  /** The Session in force after the first n commits. */
  function SessionAfter<S, T>(initial: Option<S>, log: seq<Commit<S, T>>, n: nat): (s: Option<S>)
    requires n <= |log|
  {
    if n == 0 then initial else log[n - 1].session
  }

  ghost predicate Linear<S, T>(initial: Option<S>, log: seq<Commit<S, T>>) {
    forall n :: 0 <= n < |log| ==> log[n].session == Selected(SessionAfter(initial, log, n), log[n].successor)
  }

  lemma {:induction false} LinearSnoc<S, T>(initial: Option<S>, log: seq<Commit<S, T>>, c: Commit<S, T>)
    requires Linear(initial, log) && c.session == Selected(SessionAfter(initial, log, |log|), c.successor)
    ensures Linear(initial, log + [c]) && SessionAfter(initial, log + [c], |log| + 1) == c.session
  {
    var next := log + [c];
    forall n | 0 <= n < |next|
      ensures next[n].session == Selected(SessionAfter(initial, next, n), next[n].successor)
    {
      assert SessionAfter(initial, next, n) == SessionAfter(initial, log, n);
    }
  }

  // ---- the owner as an object ------------------------------------------------------------

  /** A prepared commit: the Session it claims to carry and what it would install. */
  datatype Prepared<+S, +T> = Prepared(session: Option<S>, value: T)

  class FamilySessionOwner<S(==), T> {
    var current: Option<S>
    ghost const initial: Option<S>
    ghost var log: seq<Commit<S, T>>

    /** The live Session is that of the last confirmed commit, each commit continuing the one before. */
    ghost predicate Valid()
      reads this
    {
      Linear(initial, log) && current == SessionAfter(initial, log, |log|)
    }

    constructor (session: Option<S>)
      ensures Valid() && initial == session && log == []
    {
      current, initial, log := session, session, [];
    }

    /** Serialized selection, confirmation and advancement. What is confirmed joins the history with its
        explicit successor, or else with exactly the Session of the commit before it; what is not confirmed,
        and what was prepared with another Session, leaves no trace. */
    method Confirm(ghost o: nat, prepare: Option<S> -> Prepared<S, T>, commit: Prepared<S, T> -> bool,
                   successor: Option<S>)
      returns (r: Option<T>)
      requires Valid()
      modifies this
      ensures Valid()
      ensures r.Some? ==> log == old(log) + [Commit(o, successor, current, r.value)]
      ensures r.None? ==> log == old(log) && current == old(current)
      ensures var selected := Selected(SessionAfter(initial, old(log), |old(log)|), successor);
              && (r.Some? <==> prepare(selected).session == selected && commit(prepare(selected)))
              && (r.Some? ==> r.value == prepare(selected).value)
    {
      var selected := if successor.None? then current else successor;
      var prepared := prepare(selected);
      if prepared.session != selected {
        return None;
      }
      if !commit(prepared) {
        return None;
      }
      LinearSnoc(initial, log, Commit(o, successor, selected, prepared.value));
      log := log + [Commit(o, successor, selected, prepared.value)];
      current := selected;
      return Some(prepared.value);
    }
  }

  // ---- interleaved owners ----------------------------------------------------------------

  /** Where one scoped owner is in its current transition. */
  datatype Phase<+S, +T> =
    | Idle
    | Waiting(successor: Option<S>)
    | Committing(successor: Option<S>, selected: Option<S>, prepared: T)
    | Confirmed(prepared: T)
    | Rejected
    | Surfaced

  /** An owner: its installed state and frames, its phase, and whether its caller was cancelled. */
  datatype Owner<+S, +T> = Owner(value: T, phase: Phase<S, T>, cancelled: bool) {
    /** No transition is under way: the last one returned normally, or its failure or cancellation surfaced. */
    predicate AtRest() { phase.Idle? || phase.Surfaced? }
  }

  datatype World<+S, +T> = World(current: Option<S>, lock: Option<nat>, owners: map<nat, Owner<S, T>>,
                                 log: seq<Commit<S, T>>)

  datatype Action<+S, +T> =
    | Request(owner: nat, successor: Option<S>)
    | Acquire(owner: nat, prepared: T)
    | CommitOk(owner: nat)
    | CommitFail(owner: nat)
    | Cancel(owner: nat)
    | Install(owner: nat)
    | Raise(owner: nat)

  function With<S, T>(w: World<S, T>, o: nat, owner: Owner<S, T>): (v: World<S, T>) {
    w.(owners := w.owners[o := owner])
  }

  /** One step of the family; None when the action is not enabled. An owner whose last transition failed or
      was cancelled may start another one. */
  function Step<S, T>(w: World<S, T>, a: Action<S, T>): (r: Option<World<S, T>>) {
    if a.owner !in w.owners then None
    else
      var o, me := a.owner, w.owners[a.owner];
      match a
      case Request(_, successor) =>
        if !me.AtRest() then None else Some(With(w, o, me.(phase := Waiting(successor))))
      case Acquire(_, prepared) =>
        if !me.phase.Waiting? || w.lock.Some? then None
        else
          var phase := Committing(me.phase.successor, Selected(w.current, me.phase.successor), prepared);
          Some(With(w, o, me.(phase := phase)).(lock := Some(o)))
      case CommitOk(_) =>
        if !me.phase.Committing? then None
        else
          var entry := Commit(o, me.phase.successor, me.phase.selected, me.phase.prepared);
          Some(With(w, o, me.(phase := Confirmed(me.phase.prepared)))
               .(current := me.phase.selected, lock := None, log := w.log + [entry]))
      case CommitFail(_) =>
        if !me.phase.Committing? then None else Some(With(w, o, me.(phase := Rejected)).(lock := None))
      case Cancel(_) =>
        if me.AtRest() then None else Some(With(w, o, me.(cancelled := true)))
      case Install(_) =>
        if !me.phase.Confirmed? then None
        else Some(With(w, o, Owner(me.phase.prepared, if me.cancelled then Surfaced else Idle, false)))
      case Raise(_) =>
        if !me.phase.Rejected? then None else Some(With(w, o, Owner(me.value, Surfaced, false)))
  }

  /** A family before any commit: every owner idle with its starting value. */
  function Fresh<S, T>(initial: Option<S>, starts: map<nat, T>): (w: World<S, T>) {
    World(initial, None, map o | o in starts :: Owner(starts[o], Idle, false), [])
  }

  function Run<S, T>(w: World<S, T>, actions: seq<Action<S, T>>): (r: Option<World<S, T>>) {
    if actions == [] then Some(w)
    else
      var n := |actions| - 1;
      match Run(w, actions[..n])
      case None => None
      case Some(v) => Step(v, actions[n])
  }

  lemma {:induction false} RunPrefix<S, T>(w: World<S, T>, actions: seq<Action<S, T>>, n: nat)
    requires n <= |actions| && Run(w, actions).Some?
    ensures Run(w, actions[..n]).Some?
  {
    if n < |actions| {
      RunPrefix(w, actions[..|actions| - 1], n);
      assert actions[..|actions| - 1][..n] == actions[..n];
    } else {
      assert actions[..n] == actions;
    }
  }

  lemma {:induction false} RunNext<S, T>(start: World<S, T>, actions: seq<Action<S, T>>, i: nat, w: World<S, T>)
    requires i < |actions| && Run(start, actions).Some? && Run(start, actions[..i]) == Some(w)
    ensures Step(w, actions[i]).Some? && Run(start, actions[..i + 1]) == Step(w, actions[i])
  {
    RunPrefix(start, actions, i + 1);
    assert actions[..i + 1][..i] == actions[..i];
  }

  // ---- the run invariant -----------------------------------------------------------------

  /** What an owner's last confirmed commit installs. */
  function LastValue<S, T>(log: seq<Commit<S, T>>, o: nat, initial: T): (v: T) {
    if log == [] then initial
    else if log[|log| - 1].owner == o then log[|log| - 1].value
    else LastValue(log[..|log| - 1], o, initial)
  }

  ghost predicate OwnerInStep<S, T>(w: World<S, T>, o: nat, start: T)
    requires o in w.owners
  {
    var me := w.owners[o];
    && (me.phase.Committing? ==> w.lock == Some(o) && me.phase.selected == Selected(w.current, me.phase.successor))
    && (if me.phase.Confirmed? then me.phase.prepared == LastValue(w.log, o, start)
        else me.value == LastValue(w.log, o, start))
    && (me.AtRest() ==> !me.cancelled)
  }

  ghost predicate Inv<S, T>(w: World<S, T>, initial: Option<S>, starts: map<nat, T>) {
    && w.owners.Keys == starts.Keys
    && Linear(initial, w.log)
    && w.current == SessionAfter(initial, w.log, |w.log|)
    && (w.lock.Some? ==> w.lock.value in w.owners && w.owners[w.lock.value].phase.Committing?)
    && (forall o :: o in w.owners ==> OwnerInStep(w, o, starts[o]))
  }

  lemma {:induction false} LastValueSnoc<S, T>(log: seq<Commit<S, T>>, c: Commit<S, T>, o: nat, start: T)
    ensures LastValue(log + [c], o, start) == if c.owner == o then c.value else LastValue(log, o, start)
  {
    assert (log + [c])[..|log|] == log;
  }

  lemma {:induction false} CommitKeepsInv<S, T>(w: World<S, T>, o: nat, initial: Option<S>, starts: map<nat, T>)
    requires Inv(w, initial, starts) && Step(w, CommitOk(o)).Some?
    ensures Inv(Step(w, CommitOk(o)).value, initial, starts)
  {
    var v, me := Step(w, CommitOk(o)).value, w.owners[o];
    var entry := v.log[|w.log|];
    assert OwnerInStep(w, o, starts[o]);
    LinearSnoc(initial, w.log, entry);
    forall x | x in v.owners
      ensures OwnerInStep(v, x, starts[x])
    {
      assert OwnerInStep(w, x, starts[x]);
      assert w.lock == Some(o);
      CommitKeepsOwner(w, o, x, starts[x]);
    }
  }

  lemma {:induction false} CommitKeepsOwner<S, T>(w: World<S, T>, o: nat, x: nat, start: T)
    requires Step(w, CommitOk(o)).Some? && x in w.owners && OwnerInStep(w, x, start) && w.lock == Some(o)
    ensures x in Step(w, CommitOk(o)).value.owners && OwnerInStep(Step(w, CommitOk(o)).value, x, start)
  {
    LastValueSnoc(w.log, Step(w, CommitOk(o)).value.log[|w.log|], x, start);
  }

  lemma {:induction false} StepKeepsInv<S, T>(w: World<S, T>, a: Action<S, T>, initial: Option<S>, starts: map<nat, T>)
    requires Inv(w, initial, starts) && Step(w, a).Some?
    ensures Inv(Step(w, a).value, initial, starts)
  {
    if a.CommitOk? {
      CommitKeepsInv(w, a.owner, initial, starts);
    } else {
      var v := Step(w, a).value;
      assert OwnerInStep(w, a.owner, starts[a.owner]);
      forall x | x in v.owners
        ensures OwnerInStep(v, x, starts[x])
      {
        assert OwnerInStep(w, x, starts[x]);
        QuietStepKeeps(w, a, x, starts[x]);
      }
    }
  }

  lemma {:induction false} QuietStepKeeps<S, T>(w: World<S, T>, a: Action<S, T>, x: nat, start: T)
    requires Step(w, a).Some? && !a.CommitOk? && x in w.owners && OwnerInStep(w, x, start)
    requires w.owners[a.owner].phase.Committing? ==> w.lock == Some(a.owner)
    ensures x in Step(w, a).value.owners && OwnerInStep(Step(w, a).value, x, start)
  {
  }

  lemma {:induction false} RunKeepsInv<S, T>(w: World<S, T>, initial: Option<S>, starts: map<nat, T>,
                                             actions: seq<Action<S, T>>)
    requires Inv(w, initial, starts) && Run(w, actions).Some?
    ensures Inv(Run(w, actions).value, initial, starts)
  {
    if actions != [] {
      var n := |actions| - 1;
      RunKeepsInv(w, initial, starts, actions[..n]);
      StepKeepsInv(Run(w, actions[..n]).value, actions[n], initial, starts);
    }
  }

  // ---- what the callers asked for --------------------------------------------------------

  /** The explicit successor of an owner's last request. */
  function LastRequest<S, T>(actions: seq<Action<S, T>>, o: nat): (r: Option<Option<S>>) {
    if actions == [] then None
    else
      var a := actions[|actions| - 1];
      if a.Request? && a.owner == o then Some(a.successor) else LastRequest(actions[..|actions| - 1], o)
  }

  /** What an owner prepared when it last got the lock. */
  function LastPrepared<S, T>(actions: seq<Action<S, T>>, o: nat): (r: Option<T>) {
    if actions == [] then None
    else
      var a := actions[|actions| - 1];
      if a.Acquire? && a.owner == o then Some(a.prepared) else LastPrepared(actions[..|actions| - 1], o)
  }

  /** A confirmed commit as its owner asked for it. */
  datatype Asked<+S, +T> = Asked(owner: nat, successor: Option<Option<S>>, value: Option<T>)

  /** The confirmed commits of a run, in order, read off its actions alone. */
  function Confirmations<S, T>(actions: seq<Action<S, T>>): (asked: seq<Asked<S, T>>) {
    if actions == [] then []
    else
      var n := |actions| - 1;
      var before, a := actions[..n], actions[n];
      if a.CommitOk? then Confirmations(before)
                          + [Asked(a.owner, LastRequest(before, a.owner), LastPrepared(before, a.owner))]
      else Confirmations(before)
  }

  ghost predicate OwnerAsked<S, T>(me: Owner<S, T>, actions: seq<Action<S, T>>, o: nat) {
    && (me.phase.Waiting? ==> LastRequest(actions, o) == Some(me.phase.successor))
    && (me.phase.Committing? ==>
          LastRequest(actions, o) == Some(me.phase.successor) && LastPrepared(actions, o) == Some(me.phase.prepared))
  }

  ghost predicate LogAsked<S, T>(log: seq<Commit<S, T>>, asked: seq<Asked<S, T>>) {
    && |log| == |asked|
    && (forall n :: 0 <= n < |log| ==> asked[n] == Asked(log[n].owner, Some(log[n].successor), Some(log[n].value)))
  }

  lemma {:induction false} RunIsAsked<S, T>(initial: Option<S>, starts: map<nat, T>, actions: seq<Action<S, T>>)
    requires Run(Fresh(initial, starts), actions).Some?
    ensures var w := Run(Fresh(initial, starts), actions).value;
            && LogAsked(w.log, Confirmations(actions))
            && (forall o :: o in w.owners ==> OwnerAsked(w.owners[o], actions, o))
  {
    if actions != [] {
      var n := |actions| - 1;
      RunIsAsked(initial, starts, actions[..n]);
      AskedStep(Run(Fresh(initial, starts), actions[..n]).value, actions);
    }
  }

  lemma {:induction false} AskedStep<S, T>(w: World<S, T>, actions: seq<Action<S, T>>)
    requires actions != [] && Step(w, actions[|actions| - 1]).Some?
    requires LogAsked(w.log, Confirmations(actions[..|actions| - 1]))
    requires forall o :: o in w.owners ==> OwnerAsked(w.owners[o], actions[..|actions| - 1], o)
    ensures var v := Step(w, actions[|actions| - 1]).value;
            && LogAsked(v.log, Confirmations(actions))
            && (forall o :: o in v.owners ==> OwnerAsked(v.owners[o], actions, o))
  {
    var a, before := actions[|actions| - 1], actions[..|actions| - 1];
    assert OwnerAsked(w.owners[a.owner], before, a.owner);
    forall o | o in Step(w, a).value.owners
      ensures OwnerAsked(Step(w, a).value.owners[o], actions, o)
    {
      assert OwnerAsked(w.owners[o], before, o);
    }
  }

  // ---- linearization ---------------------------------------------------------------------

  /** In every interleaving the n-th confirmed commit is the one asked for by the n-th confirmation: of the
      owner confirmed, with what it last prepared and the successor it last requested. It carries that explicit
      successor, or else exactly the Session of the commit before it; the live Session is that of the last
      commit; at most one commit is under way; and whenever a caller sees its transition end, with or without
      cancellation, what is installed is what its last confirmed commit decided. */
  lemma {:induction false} SessionLinearization<S, T>(initial: Option<S>, starts: map<nat, T>,
                                                      actions: seq<Action<S, T>>)
    requires Run(Fresh(initial, starts), actions).Some?
    ensures var w := Run(Fresh(initial, starts), actions).value;
            && w.owners.Keys == starts.Keys
            && LogAsked(w.log, Confirmations(actions))
            && (forall n :: 0 <= n < |w.log| ==>
                              w.log[n].session == if w.log[n].successor.Some? then w.log[n].successor
                              else SessionAfter(initial, w.log, n))
            && w.current == SessionAfter(initial, w.log, |w.log|)
            && (forall o, p ::
                  o in w.owners && p in w.owners && w.owners[o].phase.Committing? && w.owners[p].phase.Committing? ==>
                    o == p)
            && (forall o :: o in w.owners && w.owners[o].AtRest() ==>
                              w.owners[o].value == LastValue(w.log, o, starts[o]))
  {
    RunKeepsInv(Fresh(initial, starts), initial, starts, actions);
    RunIsAsked(initial, starts, actions);
    var w := Run(Fresh(initial, starts), actions).value;
    forall o | o in w.owners
      ensures OwnerInStep(w, o, starts[o])
    {
    }
  }

  /** Every interleaving of any number of owners is a serial history of the one owner object: calling
      `Confirm` once for each commit that ended, in the order in which they ended, makes the same
      confirmed commits and leaves the same Session. */
  method SerialHistory<S(==), T>(initial: Option<S>, starts: map<nat, T>, actions: seq<Action<S, T>>)
    returns (owner: FamilySessionOwner<S, T>)
    requires Run(Fresh(initial, starts), actions).Some?
    ensures fresh(owner) && owner.Valid() && owner.initial == initial
    ensures owner.log == Run(Fresh(initial, starts), actions).value.log
    ensures owner.current == Run(Fresh(initial, starts), actions).value.current
  {
    owner := new FamilySessionOwner(initial);
    var w := Fresh(initial, starts);
    for i := 0 to |actions|
      invariant owner.Valid() && owner.initial == initial && fresh(owner)
      invariant Run(Fresh(initial, starts), actions[..i]) == Some(w) && Inv(w, initial, starts)
      invariant owner.log == w.log && owner.current == w.current
    {
      RunNext(Fresh(initial, starts), actions, i, w);
      StepKeepsInv(w, actions[i], initial, starts);
      SelectedInStep(w, actions[i].owner, initial, starts);
      Serve(owner, w, actions[i]);
      w := Step(w, actions[i]).value;
    }
    assert actions[..|actions|] == actions;
  }

  lemma {:induction false} SelectedInStep<S, T>(w: World<S, T>, o: nat, initial: Option<S>, starts: map<nat, T>)
    requires Inv(w, initial, starts) && o in w.owners
    ensures var me := w.owners[o].phase; me.Committing? ==> me.selected == Selected(w.current, me.successor)
  {
    assert OwnerInStep(w, o, starts[o]);
  }

  method Serve<S(==), T>(owner: FamilySessionOwner<S, T>, w: World<S, T>, a: Action<S, T>)
    requires owner.Valid() && owner.log == w.log && owner.current == w.current && Step(w, a).Some?
    requires var me := w.owners[a.owner].phase; me.Committing? ==> me.selected == Selected(w.current, me.successor)
    modifies owner
    ensures owner.Valid() && owner.log == Step(w, a).value.log && owner.current == Step(w, a).value.current
  {
    if a.CommitOk? || a.CommitFail? {
      var me, ok := w.owners[a.owner].phase, a.CommitOk?;
      var _ := owner.Confirm(a.owner, s => Prepared(s, me.prepared), _ => ok, me.successor);
    }
  }

  // ---- progress --------------------------------------------------------------------------

  /** An owner at rest can always commit once the lock is free, and ends with its value installed and its
      commit last in the history; nobody else is touched. */
  lemma {:induction false} CommitCompletes<S, T>(w: World<S, T>, o: nat, successor: Option<S>, prepared: T)
    requires o in w.owners && w.owners[o].AtRest() && !w.owners[o].cancelled && w.lock.None?
    ensures var session := Selected(w.current, successor);
            Run(w, [Request(o, successor), Acquire(o, prepared), CommitOk(o), Install(o)])
            == Some(World(session, None, w.owners[o := Owner(prepared, Idle, false)],
                          w.log + [Commit(o, successor, session, prepared)]))
  {
    var actions := [Request(o, successor), Acquire(o, prepared), CommitOk(o), Install(o)];
    var session := Selected(w.current, successor);
    var w1 := With(w, o, w.owners[o].(phase := Waiting(successor)));
    var w2 := With(w1, o, w1.owners[o].(phase := Committing(successor, session, prepared))).(lock := Some(o));
    var w3 := With(w2, o, w2.owners[o].(phase := Confirmed(prepared)))
    .(current := session, lock := None, log := w.log + [Commit(o, successor, session, prepared)]);
    assert actions[..1] == [actions[0]] && actions[..2][..1] == actions[..1] && actions[..3][..2] == actions[..2];
    assert actions[..1][..0] == [] && Run(w, []) == Some(w);
    assert Run(w, actions[..1]) == Some(w1);
    assert Run(w, actions[..2]) == Some(w2);
    assert Run(w, actions[..3]) == Some(w3);
    assert w3.owners[o := Owner(prepared, Idle, false)] == w.owners[o := Owner(prepared, Idle, false)];
  }

  /** Nobody is stuck: while an owner is not at rest, something other than a cancellation can happen, and it
      happens to that owner or to the one holding the lock. */
  lemma {:induction false} NobodyIsStuck<S, T>(w: World<S, T>, o: nat, prepared: T, initial: Option<S>,
                                               starts: map<nat, T>)
    returns (a: Action<S, T>)
    requires Inv(w, initial, starts) && o in w.owners && !w.owners[o].AtRest()
    ensures Step(w, a).Some? && !a.Cancel? && !a.Request? && (a.owner == o || w.lock == Some(a.owner))
  {
    match w.owners[o].phase
    case Waiting(_) => a := if w.lock.Some? then CommitFail(w.lock.value) else Acquire(o, prepared);
    case Committing(_, _, _) => a := CommitOk(o);
    case Confirmed(_) => a := Install(o);
    case Rejected => a := Raise(o);
  }

  // ---- a failed confirm leaves no trace --------------------------------------------------

  function WithoutOwner<S, T>(actions: seq<Action<S, T>>, o: nat): (rest: seq<Action<S, T>>) {
    if actions == [] then []
    else
      var n := |actions| - 1;
      WithoutOwner(actions[..n], o) + (if actions[n].owner == o then [] else [actions[n]])
  }

  /** The same family as if one owner had stayed at rest. */
  ghost predicate Erased<S, T>(w: World<S, T>, v: World<S, T>, o: nat, start: Owner<S, T>) {
    && o in w.owners && w.owners[o].value == start.value && !w.owners[o].phase.Confirmed?
    && v == World(w.current, if w.lock == Some(o) then None else w.lock, w.owners[o := start], w.log)
  }

  lemma {:induction false} ErasedOwnStep<S, T>(w: World<S, T>, v: World<S, T>, o: nat, start: Owner<S, T>,
                                               a: Action<S, T>)
    requires Erased(w, v, o, start) && (w.owners[o].phase.Committing? ==> w.lock == Some(o))
    requires a.owner == o && Step(w, a).Some? && !a.CommitOk?
    ensures Erased(Step(w, a).value, v, o, start)
  {
    var x := Step(w, a).value;
    assert x.owners == w.owners[o := x.owners[o]] && x.owners[o := start] == w.owners[o := start];
  }

  lemma {:induction false} ErasedOtherStep<S, T>(w: World<S, T>, v: World<S, T>, o: nat, start: Owner<S, T>,
                                                 a: Action<S, T>)
    requires Erased(w, v, o, start) && a.owner != o && Step(w, a).Some?
    requires w.owners[a.owner].phase.Committing? ==> w.lock == Some(a.owner)
    ensures Step(v, a).Some? && Erased(Step(w, a).value, Step(v, a).value, o, start)
  {
    var x, p := Step(w, a).value, a.owner;
    assert v.owners[p] == w.owners[p];
    assert x.owners == w.owners[p := x.owners[p]];
    assert w.owners[p := x.owners[p]][o := start] == w.owners[o := start][p := x.owners[p]];
  }

  lemma {:induction false} ErasedRun<S, T>(w: World<S, T>, actions: seq<Action<S, T>>, o: nat, initial: Option<S>,
                                           starts: map<nat, T>)
    requires Inv(w, initial, starts) && o in w.owners && w.owners[o].AtRest()
    requires Run(w, actions).Some? && CommitOk(o) !in actions
    ensures Run(w, WithoutOwner(actions, o)).Some?
    ensures Erased(Run(w, actions).value, Run(w, WithoutOwner(actions, o)).value, o, w.owners[o])
  {
    if actions == [] {
      assert w.owners[o := w.owners[o]] == w.owners;
      NobodyAtRestHoldsTheLock(w, o, initial, starts);
    } else {
      var n := |actions| - 1;
      var rest, a := WithoutOwner(actions[..n], o), actions[n];
      ErasedRun(w, actions[..n], o, initial, starts);
      RunKeepsInv(w, initial, starts, actions[..n]);
      var before := Run(w, actions[..n]).value;
      assert OwnerInStep(before, a.owner, starts[a.owner]);
      if a.owner == o {
        assert a in actions;
        ErasedOwnStep(before, Run(w, rest).value, o, w.owners[o], a);
        assert rest + [] == rest;
      } else {
        ErasedOtherStep(before, Run(w, rest).value, o, w.owners[o], a);
        assert (rest + [a])[..|rest|] == rest;
      }
    }
  }

  /** Whatever the other owners do meanwhile, an owner whose commits are not confirmed changes nothing:
      the family ends as if it had never asked, and what it has installed is what it had. */
  lemma {:induction false} FailedConfirmChangesNothing<S, T>(w: World<S, T>, actions: seq<Action<S, T>>, o: nat,
                                                             initial: Option<S>, starts: map<nat, T>)
    requires Inv(w, initial, starts) && o in w.owners && w.owners[o].AtRest()
    requires Run(w, actions).Some? && CommitOk(o) !in actions
    ensures Run(w, WithoutOwner(actions, o)).Some?
    ensures var after, without := Run(w, actions).value, Run(w, WithoutOwner(actions, o)).value;
            && after.log == without.log && after.current == without.current && after.owners.Keys == without.owners.Keys
            && (forall p :: p in after.owners && p != o ==> after.owners[p] == without.owners[p])
            && o in after.owners && after.owners[o].value == w.owners[o].value
  {
    ErasedRun(w, actions, o, initial, starts);
  }

  lemma {:induction false} NobodyAtRestHoldsTheLock<S, T>(w: World<S, T>, o: nat, initial: Option<S>,
                                                          starts: map<nat, T>)
    requires Inv(w, initial, starts) && o in w.owners && w.owners[o].AtRest()
    ensures w.lock != Some(o)
  {
  }

  // ---- a commit under way ends before its caller's cancellation surfaces ------------------

  ghost predicate CancelledIn<S, T>(start: Owner<S, T>, actions: seq<Action<S, T>>, o: nat) {
    start.cancelled || Cancel(o) in actions
  }

  /** Where a commit under way has got to. */
  ghost predicate Followed<S, T>(start: Owner<S, T>, w: World<S, T>, actions: seq<Action<S, T>>, o: nat)
    requires start.phase.Committing?
  {
    && o in w.owners
    && var me, c := w.owners[o], start.phase;
    && (CommitOk(o) in actions ==>
          CommitFail(o) !in actions && Commit(o, c.successor, c.selected, c.prepared) in w.log)
    && match me.phase
       case Committing(_, _, _) =>
         && me == Owner(start.value, c, CancelledIn(start, actions, o)) && CommitOk(o) !in actions
         && CommitFail(o) !in actions
       case Confirmed(p) => p == c.prepared && CommitOk(o) in actions
                            && me.cancelled == CancelledIn(start, actions, o)
       case Rejected => me.value == start.value && CommitFail(o) in actions && CommitOk(o) !in actions
       case Idle => me.value == c.prepared && CommitOk(o) in actions && !CancelledIn(start, actions, o)
       case Surfaced =>
         if CommitOk(o) in actions then me.value == c.prepared && CancelledIn(start, actions, o)
         else me.value == start.value && CommitFail(o) in actions
       case Waiting(_) => false
  }

  lemma {:induction false} FollowedStep<S, T>(start: Owner<S, T>, w: World<S, T>, actions: seq<Action<S, T>>, o: nat,
                                              a: Action<S, T>)
    requires start.phase.Committing? && Followed(start, w, actions, o) && Step(w, a).Some?
    requires !(a.Request? && a.owner == o)
    ensures Followed(start, Step(w, a).value, actions + [a], o)
  {
    var v, next := Step(w, a).value, actions + [a];
    assert forall x :: x in next <==> x in actions || x == a;
    assert forall x :: x in w.log ==> x in v.log;
    if a.owner != o {
      assert v.owners[o] == w.owners[o];
    } else if a.CommitOk? {
      assert v.log[|w.log|] == Commit(o, start.phase.successor, start.phase.selected, start.phase.prepared);
    }
  }

  lemma {:induction false} CommitIsFollowed<S, T>(w: World<S, T>, actions: seq<Action<S, T>>, o: nat)
    requires o in w.owners && w.owners[o].phase.Committing? && Run(w, actions).Some?
    requires forall a :: a in actions ==> !(a.Request? && a.owner == o)
    ensures Followed(w.owners[o], Run(w, actions).value, actions, o)
  {
    if actions != [] {
      var n := |actions| - 1;
      assert actions == actions[..n] + [actions[n]];
      CommitIsFollowed(w, actions[..n], o);
      FollowedStep(w.owners[o], Run(w, actions[..n]).value, actions[..n], o, actions[n]);
    }
  }

  /** A caller cancelled while its commit is under way, whatever the other owners do meanwhile: its
      transition never returns as if nothing had happened, and once the cancellation has surfaced, a
      confirmed commit is in the history and its value installed; an unconfirmed one installed nothing. */
  lemma {:induction false} CancelledCommitIsInstalledFirst<S, T>(w: World<S, T>, actions: seq<Action<S, T>>, o: nat)
    requires o in w.owners && w.owners[o].phase.Committing? && Run(w, actions).Some?
    requires forall a :: a in actions ==> !(a.Request? && a.owner == o)
    requires w.owners[o].cancelled || Cancel(o) in actions
    ensures var start, v := w.owners[o], Run(w, actions).value;
            && o in v.owners && !v.owners[o].phase.Idle?
            && (v.owners[o].phase.Surfaced? ==>
                  if CommitOk(o) in actions
                  then v.owners[o].value == start.phase.prepared
                       && Commit(o, start.phase.successor, start.phase.selected, start.phase.prepared) in v.log
                  else CommitFail(o) in actions && v.owners[o].value == start.value)
  {
    CommitIsFollowed(w, actions, o);
  }

  // ---- waiting through cancellation ------------------------------------------------------

  /** What ends one wait on the shielded owner task. A cancellation of the caller may arrive before the task
      is done, or after it but before the caller runs again. */
  datatype Wake = Completed | Raised | InnerCancelled | CallerCancelled(error: nat, late: bool) {
    predicate TaskDone() { CallerCancelled? ==> late }
  }

  datatype Waited = Result(cancellation: Option<nat>) | Error

  /** The first caller cancellation of a wait. */
  function FirstCancellation(wakes: seq<Wake>): (c: Option<nat>) {
    if wakes == [] || !wakes[0].CallerCancelled? then None else Some(wakes[0].error)
  }

  /** One wait: it goes on exactly until the task is done. */
  predicate IsWait(wakes: seq<Wake>, ok: bool) {
    && wakes != []
    && (forall i :: 0 <= i < |wakes| ==> (wakes[i].TaskDone() <==> i == |wakes| - 1))
    && (wakes[|wakes| - 1].Completed? ==> ok)
    && (wakes[|wakes| - 1].Raised? || wakes[|wakes| - 1].InnerCancelled? ==> !ok)
  }

  /** `wait_for_owner_task`, for a task that ends well or not: caller cancellations are absorbed until the
      task is done; a result is reported with the first of them, a failure without. */
  method WaitForOwnerTask(wakes: seq<Wake>, ok: bool) returns (r: Waited, waits: nat)
    requires IsWait(wakes, ok)
    ensures waits == |wakes|
    ensures r == if ok then Result(FirstCancellation(wakes)) else Error
  {
    var cancellation: Option<nat> := None;
    var done := false;
    waits := 0;
    while !done
      invariant 0 <= waits <= |wakes| && (done <==> waits == |wakes|)
      invariant cancellation == if waits == 0 then None else FirstCancellation(wakes)
      decreases |wakes| - waits
    {
      var wake := wakes[waits];
      if wake.CallerCancelled? && cancellation.None? {
        cancellation := Some(wake.error);
      }
      done := wake.TaskDone();
      waits := waits + 1;
    }
    r := if ok then Result(cancellation) else Error;
  }

  /** A cancellation wakes its caller at once, or, once the task is done, in place of the task's own wake. */
  function Cancelled(before: seq<Wake>, n: nat): (wakes: seq<Wake>) {
    if before == [] || !before[|before| - 1].TaskDone() then before + [CallerCancelled(n, false)]
    else if before[|before| - 1].CallerCancelled? then before
    else before[..|before| - 1] + [CallerCancelled(n, true)]
  }

  /** The wakes of one owner's caller during a run. */
  function Wakes<S, T>(actions: seq<Action<S, T>>, o: nat): (wakes: seq<Wake>) {
    if actions == [] then []
    else
      var n := |actions| - 1;
      var before := Wakes(actions[..n], o);
      if actions[n].owner != o then before
      else
        match actions[n]
        case CommitOk(_) => before + [Completed]
        case CommitFail(_) => before + [Raised]
        case Cancel(_) => Cancelled(before, n)
        case _ => before
  }

  /** The wakes of a transition under way tell how far it is and whether its caller was cancelled. */
  ghost predicate WakesTell<S, T>(me: Owner<S, T>, wakes: seq<Wake>) {
    && (me.cancelled <==> FirstCancellation(wakes).Some?)
    && (match me.phase
        case Waiting(_) => NotDone(wakes)
        case Committing(_, _, _) => NotDone(wakes)
        case Confirmed(_) => IsWait(wakes, true)
        case Rejected => IsWait(wakes, false)
        case _ => false)
  }

  lemma {:induction false} WakesFollow<S, T>(w: World<S, T>, actions: seq<Action<S, T>>, o: nat)
    requires o in w.owners && (w.owners[o].phase.Waiting? || w.owners[o].phase.Committing?) && !w.owners[o].cancelled
    requires Run(w, actions).Some? && forall a :: a in actions && a.owner == o ==> !a.Install? && !a.Raise?
    ensures o in Run(w, actions).value.owners && WakesTell(Run(w, actions).value.owners[o], Wakes(actions, o))
  {
    if actions != [] {
      var n := |actions| - 1;
      assert actions == actions[..n] + [actions[n]];
      WakesFollow(w, actions[..n], o);
      WakesStep(Run(w, actions[..n]).value, actions, o);
    }
  }

  lemma {:induction false} WakesStep<S, T>(v: World<S, T>, actions: seq<Action<S, T>>, o: nat)
    requires actions != [] && o in v.owners && Step(v, actions[|actions| - 1]).Some?
    requires WakesTell(v.owners[o], Wakes(actions[..|actions| - 1], o))
    requires var a := actions[|actions| - 1]; a.owner == o ==> !a.Install? && !a.Raise?
    ensures var after := Step(v, actions[|actions| - 1]).value;
            o in after.owners && WakesTell(after.owners[o], Wakes(actions, o))
  {
    var a, before := actions[|actions| - 1], Wakes(actions[..|actions| - 1], o);
    if a.owner == o {
      match a
      case CommitOk(_) => CommitWakes(before, Completed, true);
      case CommitFail(_) => CommitWakes(before, Raised, false);
      case Cancel(_) => CancelWakes(v.owners[o], before, |actions| - 1);
      case _ =>
    }
  }

  ghost predicate NotDone(wakes: seq<Wake>) {
    forall i :: 0 <= i < |wakes| ==> !wakes[i].TaskDone()
  }

  lemma {:induction false} CommitWakes(before: seq<Wake>, end: Wake, ok: bool)
    requires NotDone(before) && (if ok then end.Completed? else end.Raised?)
    ensures IsWait(before + [end], ok) && FirstCancellation(before + [end]) == FirstCancellation(before)
  {
  }

  lemma {:induction false} CancelWakes<S, T>(me: Owner<S, T>, before: seq<Wake>, n: nat)
    requires WakesTell(me, before) && !me.AtRest()
    ensures WakesTell(me.(cancelled := true), Cancelled(before, n))
  {
    if before == [] || !before[|before| - 1].TaskDone() {
      CancelEarly(before, n);
    } else {
      CancelLate(before, n, me.phase.Confirmed?);
    }
  }

  lemma {:induction false} CancelEarly(before: seq<Wake>, n: nat)
    requires before == [] || !before[|before| - 1].TaskDone()
    requires NotDone(before)
    ensures NotDone(Cancelled(before, n)) && FirstCancellation(Cancelled(before, n)).Some?
  {
  }

  lemma {:induction false} CancelLate(before: seq<Wake>, n: nat, ok: bool)
    requires IsWait(before, ok)
    ensures IsWait(Cancelled(before, n), ok) && FirstCancellation(Cancelled(before, n)).Some?
  {
    assert |before| > 1 ==> !before[0].TaskDone();
  }

  /** The two halves meet: in every run, once a commit has ended, waiting for it on the wakes of that run
      reports success exactly when it was confirmed, and a cancellation exactly when the owner's caller was
      cancelled; the installation then surfaces exactly that. */
  method WaitInRun<S, T>(w: World<S, T>, actions: seq<Action<S, T>>, o: nat) returns (r: Waited)
    requires o in w.owners && (w.owners[o].phase.Waiting? || w.owners[o].phase.Committing?) && !w.owners[o].cancelled
    requires Run(w, actions).Some? && forall a :: a in actions && a.owner == o ==> !a.Install? && !a.Raise?
    requires o in Run(w, actions).value.owners
    requires Run(w, actions).value.owners[o].phase.Confirmed? || Run(w, actions).value.owners[o].phase.Rejected?
    ensures var v := Run(w, actions).value; var me := v.owners[o];
                                            && (r.Error? <==> me.phase.Rejected?)
                                            && (r.Result? ==>
                                                  && (r.cancellation.Some? <==> me.cancelled)
                                                  && Step(v, Install(o)).Some?
                                                  && Step(v, Install(o)).value.owners[o]
                                                     == Owner(me.phase.prepared, if r.cancellation.Some? then Surfaced
                                                              else Idle, false))
  {
    WakesFollow(w, actions, o);
    var waits;
    r, waits := WaitForOwnerTask(Wakes(actions, o), Run(w, actions).value.owners[o].phase.Confirmed?);
  }
}
