/**
 * The step-and-merge semantics a compiled workflow runs under, independent
 * of what the nodes do: from the current node, obtain its collaborator's
 * reply, let the node's transition produce the next target and state, record
 * the visit, and continue until a node's edge leads to the end. The
 * transition of this particular workflow is defined in module Workflow; the
 * lemmas here hold for every transition with the stated property.
 */
module Engine {
  import opened Wrappers
  import opened State
  import opened Agent
  import Chain

  /** What a node's collaborator returned for one invocation. */
  datatype Reply =
    | Said(text: string)                                  // text from the language model
    | Found(docs: seq<Chain.Document>)                    // passages from the retriever
    | Reported(text: string, fields: map<string, string>) // the final report, as text and as a dictionary
    | Failed                                              // the call raised

  /**
   * One invocation of a node: from the node, the state it is given and its
   * collaborator's reply, the target to go to and the state handed on;
   * `None` when the invocation raised.
   */
  type Transition = (Step, AgentState, Reply) -> Option<(Target, AgentState)>

  /** One entry of the stream: the node that ran and the state it handed on. */
  datatype Visit = Visit(step: Step, state: AgentState)

  /**
   * How a run stopped: at the end of the graph, at a node whose invocation
   * raised (the exception propagates to the caller), or with the step budget
   * exhausted.
   */
  datatype Outcome =
    | Finished(trace: seq<Visit>)
    | Aborted(at: Step, trace: seq<Visit>)
    | OutOfFuel(trace: seq<Visit>)

  /** The same outcome with one more visit in front. */
  function Prepend(v: Visit, o: Outcome): (r: Outcome)
    ensures r.trace == [v] + o.trace
    ensures r.Finished? == o.Finished? && r.Aborted? == o.Aborted? && r.OutOfFuel? == o.OutOfFuel?
  {
    match o
    case Finished(t) => Finished([v] + t)
    case Aborted(at, t) => Aborted(at, [v] + t)
    case OutOfFuel(t) => OutOfFuel([v] + t)
  }

  /** Terminal nodes: their only edge leads to the end of the run. */
  predicate IsTerminal(step: Step) {
    step == RequestClarification || step == CreateFinalReport
  }

  /**
   * Runs from node `at` in state `s`, consuming one reply per invocation,
   * for at most `fuel` invocations. The stream holds one visit per
   * invocation that returned, the first of them at `at`. An aborted run in
   * which nothing returned names the start node.
   */
  function Run(next: Transition, at: Step, s: AgentState, replies: seq<Reply>, fuel: nat): (o: Outcome)
    ensures |o.trace| <= fuel && |o.trace| <= |replies|
    ensures |o.trace| > 0 ==> o.trace[0].step == at
    ensures o.Finished? ==> |o.trace| > 0
    ensures o.Aborted? && |o.trace| == 0 ==> o.at == at
    decreases fuel
  {
    if fuel == 0 then OutOfFuel([])
    else if |replies| == 0 then Aborted(at, [])
    else
      match next(at, s, replies[0])
      case None => Aborted(at, [])
      case Some(n) =>
        if n.0.End? then Finished([Visit(at, n.1)])
        else Prepend(Visit(at, n.1), Run(next, n.0.step, n.1, replies[1..], fuel - 1))
  }

  /** The state invocation `i` of a run from `s` is handed: `s` itself, then the state the previous visit handed on. */
  function Before(s: AgentState, trace: seq<Visit>, i: nat): AgentState
    requires i <= |trace|
  {
    if i == 0 then s else trace[i - 1].state
  }

  /**
   * An aborted run names the node whose invocation did not return: at that
   * node either no reply was left or the invocation failed on the state it
   * was handed.
   */
  lemma {:induction false} AbortedWhereInvocationFailed(next: Transition, at: Step, s: AgentState, replies: seq<Reply>, fuel: nat)
    requires Run(next, at, s, replies, fuel).Aborted?
    ensures var o := Run(next, at, s, replies, fuel);
      |o.trace| == |replies| || next(o.at, Before(s, o.trace, |o.trace|), replies[|o.trace|]).None?
    decreases fuel
  {
    if |replies| > 0 && next(at, s, replies[0]).Some? {
      var n := next(at, s, replies[0]).value;
      var o := Run(next, at, s, replies, fuel);
      var rest := Run(next, n.0.step, n.1, replies[1..], fuel - 1);
      assert o == Prepend(Visit(at, n.1), rest);
      AbortedWhereInvocationFailed(next, n.0.step, n.1, replies[1..], fuel - 1);
      var k := |rest.trace|;
      assert Before(s, o.trace, k + 1) == Before(n.1, rest.trace, k);
      assert k < |replies[1..]| ==> replies[1..][k] == replies[k + 1];
    }
  }

  /**
   * An aborted run that got past its first node stopped at the node the
   * last returning invocation led to.
   */
  lemma {:induction false} AbortedAtLastTarget(next: Transition, at: Step, s: AgentState, replies: seq<Reply>, fuel: nat)
    requires Run(next, at, s, replies, fuel).Aborted? && |Run(next, at, s, replies, fuel).trace| > 0
    ensures var o := Run(next, at, s, replies, fuel);
      var k := |o.trace| - 1;
      next(o.trace[k].step, Before(s, o.trace, k), replies[k]) == Some((Node(o.at), o.trace[k].state))
    decreases fuel
  {
    var n := next(at, s, replies[0]).value;
    var o := Run(next, at, s, replies, fuel);
    var rest := Run(next, n.0.step, n.1, replies[1..], fuel - 1);
    assert o == Prepend(Visit(at, n.1), rest);
    if |rest.trace| > 0 {
      AbortedAtLastTarget(next, n.0.step, n.1, replies[1..], fuel - 1);
      var k := |o.trace| - 1;
      assert o.trace[k] == rest.trace[k - 1];
      assert replies[1..][k - 1] == replies[k];
      if k > 1 {
        assert o.trace[k - 1] == rest.trace[k - 2];
      }
    }
  }

  /** More fuel does not change the outcome of a run that stopped without running out. */
  lemma {:induction false} FuelIrrelevant(next: Transition, at: Step, s: AgentState, replies: seq<Reply>, fuel: nat, more: nat)
    requires !Run(next, at, s, replies, fuel).OutOfFuel? && more >= fuel
    ensures Run(next, at, s, replies, more) == Run(next, at, s, replies, fuel)
    decreases fuel
  {
    if fuel > 0 && |replies| > 0 {
      var a := next(at, s, replies[0]);
      if a.Some? && a.value.0.Node? {
        FuelIrrelevant(next, a.value.0.step, a.value.1, replies[1..], fuel - 1, more - 1);
      }
    }
  }

  /** The invocation of `at` on `s` with reply `r`, when it returns, takes an edge of the graph. */
  ghost predicate EdgeTaken(next: Transition, at: Step, s: AgentState, r: Reply) {
    next(at, s, r).Some? ==> next(at, s, r).value.0 in Successors(at)
  }

  /** A transition that only takes edges of the graph. */
  ghost predicate FollowsGraph(next: Transition) {
    forall at, s, r :: EdgeTaken(next, at, s, r)
  }

  /** Each node of the stream `t` is a successor of the one before it. */
  ghost predicate WalksEdges(t: seq<Visit>) {
    forall i :: 0 <= i < |t| - 1 ==> Node(t[i + 1].step) in Successors(t[i].step)
  }

  /** Only the terminal nodes have an edge to the end. */
  lemma EndOnlyAtTerminal(step: Step)
    ensures End in Successors(step) ==> IsTerminal(step)
  {
    GraphShape();
  }

  /**
   * The stream of `o` follows the graph, and when `o` finished it ended at a
   * terminal node.
   */
  ghost predicate FollowsToEnd(o: Outcome) {
    && WalksEdges(o.trace)
    && (o.Finished? ==> |o.trace| > 0 && IsTerminal(o.trace[|o.trace| - 1].step))
  }

  /**
   * An outcome that follows the graph still does with one visit put in
   * front, when that visit has an edge to the stream's first node.
   */
  lemma PrependFollows(v: Visit, o: Outcome)
    requires FollowsToEnd(o) && (|o.trace| > 0 ==> Node(o.trace[0].step) in Successors(v.step))
    ensures FollowsToEnd(Prepend(v, o))
  {
    var w := Prepend(v, o).trace;
    forall i | 0 <= i < |w| - 1
      ensures Node(w[i + 1].step) in Successors(w[i].step)
    {
      if i > 0 {
        assert w[i] == o.trace[i - 1] && w[i + 1] == o.trace[i];
      }
    }
    if o.Finished? {
      assert w[|w| - 1] == o.trace[|o.trace| - 1];
    }
  }

  /**
   * The stream of a run under such a transition follows the graph: each
   * visited node is a successor of the one before, and a finished run ends
   * at a terminal node.
   */
  lemma {:induction false} RunFollowsGraph(next: Transition, at: Step, s: AgentState, replies: seq<Reply>, fuel: nat)
    requires FollowsGraph(next)
    ensures FollowsToEnd(Run(next, at, s, replies, fuel))
    decreases fuel
  {
    if fuel > 0 && |replies| > 0 {
      var a := next(at, s, replies[0]);
      if a.Some? {
        var n := a.value;
        if n.0.Node? {
          var rest := Run(next, n.0.step, n.1, replies[1..], fuel - 1);
          assert EdgeTaken(next, at, s, replies[0]);
          RunFollowsGraph(next, n.0.step, n.1, replies[1..], fuel - 1);
          RunStep(next, at, s, replies, fuel, n);
          PrependFollows(Visit(at, n.1), rest);
        } else {
          assert EdgeTaken(next, at, s, replies[0]);
          EndOnlyAtTerminal(at);
        }
      }
    }
  }

  /** One step of a run: the visit of `at` in front of the run from the node it led to. */
  lemma RunStep(next: Transition, at: Step, s: AgentState, replies: seq<Reply>, fuel: nat, n: (Target, AgentState))
    requires fuel > 0 && |replies| > 0
    requires next(at, s, replies[0]) == Some(n) && n.0.Node?
    ensures Run(next, at, s, replies, fuel) == Prepend(Visit(at, n.1), Run(next, n.0.step, n.1, replies[1..], fuel - 1))
  {
  }

  /** A transition that hands on a transcript extending the one it was given. */
  ghost predicate KeepsTranscript(next: Transition) {
    forall at, s, r | next(at, s, r).Some? :: s.messages <= next(at, s, r).value.1.messages
  }

  /** Every state of the stream `t` has a transcript extending `m`. */
  ghost predicate ExtendsTranscript(t: seq<Visit>, m: seq<Message>) {
    forall i :: 0 <= i < |t| ==> m <= t[i].state.messages
  }

  /** Along the stream `t` each transcript is a prefix of the next. */
  ghost predicate TranscriptsGrow(t: seq<Visit>) {
    forall i :: 0 <= i < |t| - 1 ==> t[i].state.messages <= t[i + 1].state.messages
  }

  /**
   * Under such a transition the transcript never shrinks along a run: the
   * initial one is a prefix of every streamed one, and each streamed one is
   * a prefix of the next.
   */
  lemma {:induction false} TranscriptGrows(next: Transition, at: Step, s: AgentState, replies: seq<Reply>, fuel: nat)
    requires KeepsTranscript(next)
    ensures ExtendsTranscript(Run(next, at, s, replies, fuel).trace, s.messages)
    ensures TranscriptsGrow(Run(next, at, s, replies, fuel).trace)
    decreases fuel
  {
    if fuel > 0 && |replies| > 0 {
      var a := next(at, s, replies[0]);
      if a.Some? && a.value.0.Node? {
        var n := a.value;
        TranscriptGrows(next, n.0.step, n.1, replies[1..], fuel - 1);
        var rest := Run(next, n.0.step, n.1, replies[1..], fuel - 1).trace;
        var t := Run(next, at, s, replies, fuel).trace;
        assert t == [Visit(at, n.1)] + rest;
        assert ExtendsTranscript(t, s.messages) by {
          forall i | 0 <= i < |t|
            ensures s.messages <= t[i].state.messages
          {
            if i > 0 {
              assert t[i] == rest[i - 1];
              assert s.messages <= n.1.messages <= rest[i - 1].state.messages;
            }
          }
        }
        assert TranscriptsGrow(t) by {
          forall i | 0 <= i < |t| - 1
            ensures t[i].state.messages <= t[i + 1].state.messages
          {
            if i > 0 {
              assert t[i] == rest[i - 1] && t[i + 1] == rest[i];
            }
          }
        }
      }
    }
  }

  /** Retrieval invocations in a stream. */
  function Retrievals(trace: seq<Visit>): (n: nat)
    ensures n <= |trace|
    decreases |trace|
  {
    if |trace| == 0 then 0
    else (if trace[0].step == RetrieveDocuments then 1 else 0) + Retrievals(trace[1..])
  }

  /** Loop-backs still allowed with `retries` at `r`. */
  function Slack(r: int): nat {
    if r >= MaxRetries then 0 else MaxRetries - r
  }

  /**
   * The most invocations a run from `at` with `retries` at `r` can take when
   * every loop-back raises `retries` and the question gate hands over 0.
   */
  function Budget(at: Step, r: int): nat {
    match at
    case CreateFinalReport => 1
    case FilterAndSanitize => 2
    case GenerateAnswer => 3
    case RequestClarification => 1
    case AssessAnswerQuality => 4 + 2 * Slack(r)
    case RetrieveDocuments => 5 + 2 * Slack(r)
    case AssessQuestion => 6 + 2 * Slack(0)
  }

  /** The most retrievals such a run from `at` with `retries` at `r` can make. */
  function RetrievalBudget(at: Step, r: int): nat {
    match at
    case RetrieveDocuments => 1 + Slack(r)
    case AssessAnswerQuality => Slack(r)
    case AssessQuestion => 1 + Slack(0)
    case _ => 0
  }

  /**
   * A transition under which every invocation that continues lands on a
   * node with a strictly smaller budget and no larger retrieval budget,
   * counting the retrieval just made.
   */
  ghost predicate ShrinksBudget(next: Transition) {
    forall at, s, r :: BudgetShrinks(next, at, s, r)
  }

  /** The invocation of `at` on `s` with reply `r` shrinks the budgets as `ShrinksBudget` demands. */
  ghost predicate BudgetShrinks(next: Transition, at: Step, s: AgentState, r: Reply) {
    next(at, s, r).Some? && next(at, s, r).value.0.Node? ==>
      && Budget(next(at, s, r).value.0.step, next(at, s, r).value.1.retries) < Budget(at, s.retries)
      && RetrievalBudget(next(at, s, r).value.0.step, next(at, s, r).value.1.retries)
         + (if at == RetrieveDocuments then 1 else 0) <= RetrievalBudget(at, s.retries)
  }

  /**
   * Under such a transition a run from any node never takes more than its
   * budget of invocations, so given that much fuel it never runs out, and it
   * retrieves at most its retrieval budget of times.
   */
  lemma {:induction false} BoundedRun(next: Transition, at: Step, s: AgentState, replies: seq<Reply>, fuel: nat)
    requires ShrinksBudget(next) && fuel >= Budget(at, s.retries)
    ensures var o := Run(next, at, s, replies, fuel);
      && !o.OutOfFuel?
      && |o.trace| <= Budget(at, s.retries)
      && Retrievals(o.trace) <= RetrievalBudget(at, s.retries)
    decreases fuel
  {
    if |replies| > 0 {
      var a := next(at, s, replies[0]);
      if a.Some? {
        var n := a.value;
        var v := Visit(at, n.1);
        if n.0.Node? {
          var rest := Run(next, n.0.step, n.1, replies[1..], fuel - 1);
          assert BudgetShrinks(next, at, s, replies[0]);
          BoundedRun(next, n.0.step, n.1, replies[1..], fuel - 1);
          RunStep(next, at, s, replies, fuel, n);
          assert Prepend(v, rest).trace[1..] == rest.trace;
        } else {
          assert Retrievals([v]) == (if at == RetrieveDocuments then 1 else 0) + Retrievals([]);
        }
      }
    }
  }

  /**
   * A transition under which the question gate, whenever it hands over to
   * retrieval, hands over `retries` at 0.
   */
  ghost predicate ResetsAtQuestionGate(next: Transition) {
    forall s, r | next(AssessQuestion, s, r).Some? && next(AssessQuestion, s, r).value.0 == Node(RetrieveDocuments) ::
      next(AssessQuestion, s, r).value.1.retries == 0
  }

  /** Every hand-over from the question gate to retrieval in the stream `t` carries `retries` at 0. */
  ghost predicate EntersRetrievalReset(t: seq<Visit>) {
    forall i :: 0 <= i < |t| - 1 && t[i].step == AssessQuestion && t[i + 1].step == RetrieveDocuments ==>
      t[i].state.retries == 0
  }

  /** In the stream of such a run every hand-over from the question gate to retrieval carries `retries` at 0. */
  lemma {:induction false} RetrievalEntryResets(next: Transition, at: Step, s: AgentState, replies: seq<Reply>, fuel: nat)
    requires ResetsAtQuestionGate(next)
    ensures EntersRetrievalReset(Run(next, at, s, replies, fuel).trace)
    decreases fuel
  {
    if fuel > 0 && |replies| > 0 {
      var a := next(at, s, replies[0]);
      if a.Some? && a.value.0.Node? {
        var n := a.value;
        RetrievalEntryResets(next, n.0.step, n.1, replies[1..], fuel - 1);
        var t := Run(next, at, s, replies, fuel).trace;
        var rest := Run(next, n.0.step, n.1, replies[1..], fuel - 1).trace;
        assert t == [Visit(at, n.1)] + rest;
        forall i | 0 <= i < |t| - 1 && t[i].step == AssessQuestion && t[i + 1].step == RetrieveDocuments
          ensures t[i].state.retries == 0
        {
          if i > 0 {
            assert t[i] == rest[i - 1] && t[i + 1] == rest[i];
          } else {
            assert t[1] == rest[0];
          }
        }
      }
    }
  }

  /**
   * A transition under which, from any node other than the two that
   * extend the transcript, the transcript is handed on unchanged and neither
   * of those two nodes is reached.
   */
  ghost predicate FreezesTranscript(next: Transition) {
    forall at, s, r | at != AssessQuestion && at != RequestClarification && next(at, s, r).Some? ::
      && next(at, s, r).value.1.messages == s.messages
      && next(at, s, r).value.0 != Node(AssessQuestion)
      && next(at, s, r).value.0 != Node(RequestClarification)
  }

  /** Every state of the stream `t` has transcript `m`, and neither node that extends it is visited. */
  ghost predicate StaysFrozen(t: seq<Visit>, m: seq<Message>) {
    forall i :: 0 <= i < |t| ==>
      t[i].state.messages == m && t[i].step != AssessQuestion && t[i].step != RequestClarification
  }

  /**
   * Under such a transition, a run from a node other than those two keeps
   * the transcript it started with in every streamed state and never visits
   * either of them.
   */
  lemma {:induction false} TranscriptFrozen(next: Transition, at: Step, s: AgentState, replies: seq<Reply>, fuel: nat)
    requires FreezesTranscript(next)
    requires at != AssessQuestion && at != RequestClarification
    ensures StaysFrozen(Run(next, at, s, replies, fuel).trace, s.messages)
    decreases fuel
  {
    if fuel > 0 && |replies| > 0 {
      var a := next(at, s, replies[0]);
      if a.Some? && a.value.0.Node? {
        var n := a.value;
        TranscriptFrozen(next, n.0.step, n.1, replies[1..], fuel - 1);
        var t := Run(next, at, s, replies, fuel).trace;
        var rest := Run(next, n.0.step, n.1, replies[1..], fuel - 1).trace;
        assert t == [Visit(at, n.1)] + rest;
        forall i | 0 <= i < |t|
          ensures t[i].state.messages == s.messages
          ensures t[i].step != AssessQuestion && t[i].step != RequestClarification
        {
          if i > 0 {
            assert t[i] == rest[i - 1];
          }
        }
      }
    }
  }
}
