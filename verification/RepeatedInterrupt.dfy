/** A run that shows what a recorded answer does: its one node interrupts, is answered, interrupts again in
    the same superstep, and cannot be answered again on the same continuation. */
module RepeatedInterrupt {
  import opened Sorted
  import opened Identity
  import opened FrameIndex
  import opened GraphState
  import opened Lineage
  import opened ScopedFrames
  import opened Resumption
  import opened ResumeAcceptance

  /** A running graph of one node, in its first superstep. */
  function OneNode(run: Text, node: Text, settlement: Settlement, sequence: nat, lease: Option<Token>,
                   revision: nat): (s: State) {
    State(run, Running, 0, [FrontierNode(node, settlement)], sequence, true, None, map[], lease, None, None, revision,
          None)
  }

  function Asked(run: Text, node: Text, generation: nat, question: Text, revision: nat): (s: State) {
    OneNode(run, node, Interrupted(InterruptIdentity(run, 0, node, generation), question), generation, None, revision)
  }

  function OneGraph(node: Text, descriptor: nat): (graph: Graph) {
    Graph(map[node := NodeInput(descriptor, false)], map[])
  }

  /** The answer to the interrupt of a given generation. */
  function Answer<V>(run: Text, node: Text, generation: nat, payload: Text, value: V): (groups: seq<ResumeGroup<V>>) {
    [ResumeGroup([], [RequestedAction(node, InterruptId(run, 0, node, generation), payload, value)])]
  }

  lemma {:induction false} OneNodeIsValid(run: Text, node: Text, settlement: Settlement, sequence: nat,
                                          lease: Option<Token>, revision: nat)
    requires settlement.Pending? || settlement.Interrupted?
    requires settlement.Interrupted? ==>
               lease.None? && exists g :: 1 <= g <= sequence
                                          && settlement.identity == InterruptIdentity(run, 0, node, g)
    requires lease.Some? ==> settlement.Pending? && lease.value.generation == sequence >= 1
    ensures Valid(OneNode(run, node, settlement, sequence, lease, revision))
  {
    var s := OneNode(run, node, settlement, sequence, lease, revision);
    assert NodeIds(s.frontier) == [node];
    assert s.frontier[0].settlement == settlement;
  }

  lemma {:induction false} Starts(run: Text, node: Text)
    ensures Reduce(None, Start(run, [node], None, true, None)) == Some(OneNode(run, node, Pending(None), 0, None, 0))
  {
    var c := Start(run, [node], None, true, None);
    var s := StartRun(c).value;
    StartIsValid(c);
    assert s.frontier == [FrontierNode(node, Pending(None))];
  }

  function Claimed(run: Text, node: Text, given: Option<Text>, generation: nat, revision: nat): (s: State) {
    OneNode(run, node, Pending(given), generation, Some(Token(generation, [])), revision)
  }

  function Ask(run: Text, node: Text, generation: nat, revision: nat, question: Text): (c: Command) {
    Settle(revision, Token(generation, []),
           InterruptedOutcome(node, InterruptIdentity(run, 0, node, generation), question), None)
  }

  lemma {:induction false} Claims(run: Text, node: Text, given: Option<Text>, generation: nat, revision: nat)
    ensures Reduce(Some(OneNode(run, node, Pending(given), generation, None, revision)), Claim(revision, []))
         == Some(Claimed(run, node, given, generation + 1, revision + 1))
  {
    var s := OneNode(run, node, Pending(given), generation, None, revision);
    OneNodeIsValid(run, node, Pending(given), generation, None, revision);
    assert s.frontier[0].settlement.Pending?;
    ValidationRejectsOnlyConflictingCompletion(s, Claim(revision, []));
  }

  lemma {:induction false} Interrupts(run: Text, node: Text, given: Option<Text>, generation: nat, revision: nat,
                                      question: Text)
    requires generation >= 1
    ensures Reduce(Some(Claimed(run, node, given, generation, revision)),
                   Ask(run, node, generation, revision, question))
         == Some(Asked(run, node, generation, question, revision + 1))
  {
    var s := Claimed(run, node, given, generation, revision);
    var id := InterruptIdentity(run, 0, node, generation);
    OneNodeIsValid(run, node, Pending(given), generation, Some(Token(generation, [])), revision);
    assert s.frontier[0].node == node && s.frontier[0].settlement.Pending?;
    assert WithSettlement(s.frontier, node, Interrupted(id, question))
        == [FrontierNode(node, Interrupted(id, question))];
    ValidationRejectsOnlyConflictingCompletion(s, Ask(run, node, generation, revision, question));
  }

  lemma {:induction false} AnswersAsked<V>(run: Text, node: Text, generation: nat, question: Text, revision: nat,
                                           payload: Text, value: V)
    requires generation >= 1
    ensures Valid(Asked(run, node, generation, question, revision))
    ensures Answers(Asked(run, node, generation, question, revision),
                    Answer(run, node, generation, payload, value)[0].actions)
  {
    var s := Asked(run, node, generation, question, revision);
    var id := InterruptIdentity(run, 0, node, generation);
    OneNodeIsValid(run, node, Interrupted(id, question), generation, None, revision);
    assert s.frontier[0].node == node && s.frontier[0].settlement == Interrupted(id, question);
  }

  /** The answer fits the run it is addressed to exactly when none is recorded at its activation. */
  lemma {:induction false} AnswerFitsIff<V>(run: Text, node: Text, descriptor: nat, generation: nat, question: Text,
                                            revision: nat,
                                            payload: Text, value: V, frames: Index<V>)
    requires generation >= 1 && Canonical(frames.resumes)
    ensures var s, at := Asked(run, node, generation, question, revision), RootScopeRun(run);
            PlanGroups(OneGraph(node, descriptor), Progress([Binding(at, s)], frames, []),
                       Answer(run, node, generation, payload, value)).Some?
            <==> !Has(frames.resumes, AnswerKey(OneGraph(node, descriptor), at, s, node))
  {
    var graph, s, at := OneGraph(node, descriptor), Asked(run, node, generation, question, revision), RootScopeRun(run);
    var bs, groups := [Binding(at, s)], Answer(run, node, generation, payload, value);
    AnswersAsked(run, node, generation, question, revision, payload, value);
    PositionSpec(bs, 0);
    RequestAcceptedIff(graph, bs, frames, groups);
    assert groups[0].actions[0].node == node;
    assert GroupFits(graph, bs, frames, groups, 0) <==> NotRecorded(graph, frames.resumes, at, s, groups[0].actions);
  }

  /** What an accepted answer plans: the node is pending again and the answer is recorded. */
  lemma {:induction false} AnswerIsRecorded<V>(run: Text, node: Text, descriptor: nat, generation: nat, question: Text,
                                               revision: nat,
                                               payload: Text, value: V, frames: Index<V>)
    requires generation >= 1 && Canonical(frames.resumes)
    requires !Has(frames.resumes,
                  AnswerKey(OneGraph(node, descriptor), RootScopeRun(run),
                            Asked(run, node, generation, question, revision), node))
    ensures var s, at := Asked(run, node, generation, question, revision), RootScopeRun(run);
            var p := PlanGroups(OneGraph(node, descriptor), Progress([Binding(at, s)], frames, []),
                                Answer(run, node, generation, payload, value));
            && p.Some?
            && p.value.bindings == [Binding(at,
                                            OneNode(run, node, Pending(Some(payload)), generation, None, revision + 1))]
            && Canonical(p.value.frames.resumes)
            && Has(p.value.frames.resumes, AnswerKey(OneGraph(node, descriptor), at, s, node))
  {
    var graph, s, at := OneGraph(node, descriptor), Asked(run, node, generation, question, revision), RootScopeRun(run);
    var p, groups := Progress([Binding(at, s)], frames, []), Answer(run, node, generation, payload, value);
    AnswerFitsIff(run, node, descriptor, generation, question, revision, payload, value, frames);
    var next := PlanGroup(graph, p, groups[0]).value;
    assert groups[1..] == [];
    assert PlanGroups(graph, p, groups) == Some(next);
    PositionSpec(p.bindings, 0);
    var inputs := InputsOf(graph, at, s, groups[0].actions);
    var resumes := InsertedMembers(frames.resumes, inputs);
    assert inputs[0] in resumes;
    HasMembers(resumes, inputs[0].coordinate);
    InsertAllSpec(frames.resumes, inputs);
    AnsweredOnce(run, node, generation, question, revision, payload, value);
    ReplaceSpec(p.bindings, 0, Binding(at, OneNode(run, node, Pending(Some(payload)), generation, None, revision + 1)));
  }

  lemma {:induction false} AnsweredOnce<V>(run: Text, node: Text, generation: nat, question: Text, revision: nat,
                                           payload: Text, value: V)
    requires generation >= 1
    ensures var s := Asked(run, node, generation, question, revision);
            Reduce(Some(s), CommandOf(s, Answer(run, node, generation, payload, value)[0].actions))
            == Some(OneNode(run, node, Pending(Some(payload)), generation, None, revision + 1))
  {
    var s, actions := Asked(run, node, generation, question, revision),
                      Answer(run, node, generation, payload, value)[0].actions;
    AnswersAsked(run, node, generation, question, revision, payload, value);
    ResumeAcceptedIff(s, actions);
    var t := Reduce(Some(s), CommandOf(s, actions)).value;
    assert AscendingNodes(actions);
    ActionOf(s, actions, 0);
    assert t.frontier == [FrontierNode(node, Pending(Some(payload)))];
  }

  /** The continuation after the first answer: what was planned for it. */
  function Continued<V>(run: Text, node: Text, descriptor: nat, first: Text, a: Text, v: V): (p: Option<Progress<V>>) {
    PlanGroups(OneGraph(node, descriptor),
               Progress([Binding(RootScopeRun(run), Asked(run, node, 1, first, 2))], EmptyIndex(), []),
               Answer(run, node, 1, a, v))
  }

  lemma {:induction false} FirstIsAccepted<V>(run: Text, node: Text, descriptor: nat, first: Text, a: Text, v: V)
    ensures var p := Continued(run, node, descriptor, first, a, v);
            && p.Some?
            && p.value.bindings == [Binding(RootScopeRun(run), OneNode(run, node, Pending(Some(a)), 1, None, 3))]
            && Canonical(p.value.frames.resumes)
            && Has(p.value.frames.resumes,
                   AnswerKey(OneGraph(node, descriptor), RootScopeRun(run), Asked(run, node, 1, first, 2), node))
  {
    AnswerIsRecorded(run, node, descriptor, 1, first, 2, a, v, EmptyIndex());
  }

  /** The second answer names the current interrupt and is accepted or not with the frames alone. */
  lemma {:induction false} SecondIsRefused<V>(run: Text, node: Text, descriptor: nat, first: Text, second: Text,
                                              b: Text, w: V, frames: Index<V>)
    requires Canonical(frames.resumes)
    requires Has(frames.resumes,
                 AnswerKey(OneGraph(node, descriptor), RootScopeRun(run), Asked(run, node, 1, first, 2), node))
    ensures var graph, bs := OneGraph(node, descriptor), [Binding(RootScopeRun(run), Asked(run, node, 2, second, 5))];
            && Answers(bs[0].state, Answer(run, node, 2, b, w)[0].actions)
            && PlanGroups(graph, Progress(bs, EmptyIndex(), []), Answer(run, node, 2, b, w)).Some?
            && PlanGroups(graph, Progress(bs, frames, []), Answer(run, node, 2, b, w)).None?
  {
    AnswersAsked(run, node, 2, second, 5, b, w);
    AnswerFitsIff(run, node, descriptor, 2, second, 5, b, w, EmptyIndex());
    AnswerFitsIff(run, node, descriptor, 2, second, 5, b, w, frames);
  }

  /** The failing run, command by command: the node starts, is claimed and asks. */
  lemma {:induction false} NodeInterrupts(run: Text, node: Text, first: Text)
    ensures Reduce(None, Start(run, [node], None, true, None)) == Some(OneNode(run, node, Pending(None), 0, None, 0))
    ensures Reduce(Some(OneNode(run, node, Pending(None), 0, None, 0)), Claim(0, []))
         == Some(Claimed(run, node, None, 1, 1))
    ensures Reduce(Some(Claimed(run, node, None, 1, 1)), Ask(run, node, 1, 1, first))
         == Some(Asked(run, node, 1, first, 2))
  {
    Starts(run, node);
    Claims(run, node, None, 0, 0);
    Interrupts(run, node, None, 1, 1, first);
  }

  /** Once its answer has made it pending again, it is claimed and asks again in the same superstep. */
  lemma {:induction false} InterruptRepeats(run: Text, node: Text, a: Text, second: Text)
    ensures Reduce(Some(OneNode(run, node, Pending(Some(a)), 1, None, 3)), Claim(3, []))
         == Some(Claimed(run, node, Some(a), 2, 4))
    ensures Reduce(Some(Claimed(run, node, Some(a), 2, 4)), Ask(run, node, 2, 4, second))
         == Some(Asked(run, node, 2, second, 5))
  {
    Claims(run, node, Some(a), 1, 3);
    Interrupts(run, node, Some(a), 2, 4, second);
  }

  /** Its two answers. The first is accepted and makes the node pending again. The second names the current
      interrupt, would be accepted if the first were not recorded, and is rejected. */
  lemma {:induction false} RepeatedInterruptIsRefused<V>(run: Text, node: Text, descriptor: nat, first: Text,
                                                         second: Text,
                                                         a: Text, v: V, b: Text, w: V)
    ensures Continued(run, node, descriptor, first, a, v).Some?
    ensures Continued(run, node, descriptor, first, a, v).value.bindings
         == [Binding(RootScopeRun(run), OneNode(run, node, Pending(Some(a)), 1, None, 3))]
    ensures var graph, bs := OneGraph(node, descriptor), [Binding(RootScopeRun(run), Asked(run, node, 2, second, 5))];
            && Answers(bs[0].state, Answer(run, node, 2, b, w)[0].actions)
            && PlanGroups(graph, Progress(bs, EmptyIndex(), []), Answer(run, node, 2, b, w)).Some?
            && PlanGroups(graph, Progress(bs, Continued(run, node, descriptor, first, a, v).value.frames, []),
                          Answer(run, node, 2, b, w)).None?
  {
    FirstIsAccepted(run, node, descriptor, first, a, v);
    SecondIsRefused(run, node, descriptor, first, second, b, w,
                    Continued(run, node, descriptor, first, a, v).value.frames);
  }
}
