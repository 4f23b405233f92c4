/**
 * The compiled workflow: the nodes of module Chain wired by the edge table
 * and the routers of module Agent, run under the semantics of module Engine.
 * Whether a router's own assignment to `retries` survives into the state is
 * not settled by the workflow code (the routers assign into the state they
 * are handed and return only a node name), so it is the parameter `commit`.
 */
module Workflow {
  import opened Wrappers
  import opened State
  import opened Agent
  import opened Engine
  import Chain
  import Text

  /**
   * The update `step` returns given its collaborator's reply, or `None` when
   * the call failed or returned something of the wrong kind.
   */
  function Invoke(step: Step, s: AgentState, reply: Reply): Option<Update> {
    match (step, reply)
    case (AssessQuestion, Said(t)) => Some(Chain.AssessQuestion(s, t))
    case (RequestClarification, Said(t)) => Some(Chain.RequestClarification(s, t))
    case (RetrieveDocuments, Found(docs)) => Some(Chain.RetrieveDocuments(s, docs))
    case (AssessAnswerQuality, Said(t)) => Some(Chain.AssessAnswerQuality(s, t))
    case (GenerateAnswer, Said(t)) => Some(Chain.GenerateAnswer(s, t))
    case (FilterAndSanitize, Said(t)) => Some(Chain.FilterAndSanitize(s, t))
    case (CreateFinalReport, Reported(t, fields)) => Some(Chain.CreateFinalReport(s, t, fields))
    case _ => None
  }

  /**
   * A failed call yields no update. No node writes `question`, only the
   * clarification node writes `retries`, and only the question assessment
   * and the clarification extend the transcript.
   */
  lemma InvokeWrites(step: Step, s: AgentState, reply: Reply)
    ensures reply.Failed? ==> Invoke(step, s, reply).None?
    ensures Invoke(step, s, reply).Some? ==> Question !in Carried(Invoke(step, s, reply).value)
    ensures Invoke(step, s, reply).Some? && step != RequestClarification ==>
      Invoke(step, s, reply).value.retries.None?
    ensures Invoke(step, s, reply).Some? && step != AssessQuestion && step != RequestClarification ==>
      Invoke(step, s, reply).value.messages == []
  {
  }

  /** The router consulted at a conditional point. */
  function Route(gate: Gate, s: AgentState): Decision {
    match gate
    case QuestionGate => RouteAfterQuestionAssessment(s)
    case QualityGate => RouteAfterQualityAssessment(s)
  }

  /** The state after a router ran: its write to `retries` is kept only when writes are committed. */
  function Commit(commit: bool, s: AgentState, d: Decision): AgentState {
    if commit && d.retriesWrite.Some? then s.(retries := d.retriesWrite.value) else s
  }

  /**
   * Where the run goes after `step`, given the merged state `s`, and the
   * state handed on. The target is always one of the node's successors in
   * the edge table; the state handed on differs from `s` at most in
   * `retries`, and not at all when router writes are not committed.
   */
  function Follow(commit: bool, step: Step, s: AgentState): (r: (Target, AgentState))
    ensures r.0 in Successors(step)
    ensures r.1 == s.(retries := r.1.retries)
    ensures !commit ==> r.1 == s
  {
    match EdgeOf(step)
    case Static(t) => (t, s)
    case Conditional(gate, paths) =>
      var d := Route(gate, s);
      (Node(paths[d.route]), Commit(commit, s, d))
  }

  /** One invocation: the node's update merged into the state, then the edge followed. */
  function Advance(commit: bool, step: Step, s: AgentState, reply: Reply): Option<(Target, AgentState)> {
    match Invoke(step, s, reply)
    case None => None
    case Some(u) => Some(Follow(commit, step, Merge(s, u)))
  }

  /** The compiled workflow: its transition for the engine, with router writes committed or not. */
  function Compiled(commit: bool): Transition {
    (step, s, reply) => Advance(commit, step, s, reply)
  }

  /**
   * Either way, the workflow only takes edges of the graph, never shortens
   * the transcript, and, once past the question gate, neither extends it nor
   * returns to the two nodes that do.
   */
  lemma WorkflowRespectsGraph(commit: bool)
    ensures FollowsGraph(Compiled(commit))
    ensures KeepsTranscript(Compiled(commit))
    ensures FreezesTranscript(Compiled(commit))
  {
    forall at, s, r | Compiled(commit)(at, s, r).Some?
      ensures s.messages <= Compiled(commit)(at, s, r).value.1.messages
      ensures at != AssessQuestion && at != RequestClarification ==>
        && Compiled(commit)(at, s, r).value.1.messages == s.messages
        && Compiled(commit)(at, s, r).value.0 != Node(AssessQuestion)
        && Compiled(commit)(at, s, r).value.0 != Node(RequestClarification)
    {
      InvokeWrites(at, s, r);
      var u := Invoke(at, s, r).value;
      assert Merge(s, u).messages == s.messages + u.messages;
      GraphShape();
    }
  }

  /**
   * Without committed router writes, `retries` is written by the
   * clarification node only: every other invocation hands it on unchanged,
   * so nothing on the retrieve/assess loop can make it decrease towards an end.
   */
  lemma UncommittedRetriesFrozen(at: Step, s: AgentState, r: Reply)
    requires at != RequestClarification && Compiled(false)(at, s, r).Some?
    ensures Compiled(false)(at, s, r).value.1.retries == s.retries
  {
    InvokeWrites(at, s, r);
  }

  /**
   * With router writes committed, one invocation moves the run to a node
   * with a strictly smaller budget and no larger retrieval budget, counting
   * the retrieval just made.
   */
  lemma CommittedStepShrinksBudget(at: Step, s: AgentState, r: Reply)
    requires Advance(true, at, s, r).Some?
    ensures var n := Advance(true, at, s, r).value;
      n.0.Node? ==>
        && Budget(n.0.step, n.1.retries) < Budget(at, s.retries)
        && RetrievalBudget(n.0.step, n.1.retries) + (if at == RetrieveDocuments then 1 else 0)
           <= RetrievalBudget(at, s.retries)
  {
    InvokeWrites(at, s, r);
  }

  /**
   * With router writes committed the workflow shrinks the budget at every
   * step, and the question gate hands over to retrieval with `retries` at 0.
   */
  lemma CommittedWorkflowShrinks()
    ensures ShrinksBudget(Compiled(true))
    ensures ResetsAtQuestionGate(Compiled(true))
  {
    forall at, s, r
      ensures BudgetShrinks(Compiled(true), at, s, r)
    {
      if Compiled(true)(at, s, r).Some? {
        CommittedStepShrinksBudget(at, s, r);
      }
    }
  }

  /** The worst case from the entry: one assessment, two rounds of retrieve and assess, then three nodes. */
  const WorstCase: nat := 1 + 2 * (1 + MaxRetries) + 3

  lemma EntryBudget(r: int)
    ensures Budget(Entry, r) == WorstCase
    ensures RetrievalBudget(Entry, r) == 1 + MaxRetries
  {
  }

  /**
   * With router writes committed, every run from the entry stops within
   * `WorstCase` = 1 + 2 * (1 + MaxRetries) + 3 invocations, whatever the collaborators
   * answer, retrieves at most `1 + MaxRetries` times, and enters retrieval
   * from the question gate only with `retries` at 0.
   */
  lemma CommittedRunTerminates(s: AgentState, replies: seq<Reply>)
    ensures var o := Run(Compiled(true), Entry, s, replies, WorstCase);
      && !o.OutOfFuel?
      && |o.trace| <= WorstCase
      && Retrievals(o.trace) <= 1 + MaxRetries
    ensures EntersRetrievalReset(Run(Compiled(true), Entry, s, replies, WorstCase).trace)
  {
    EntryBudget(s.retries);
    CommittedWorkflowShrinks();
    BoundedRun(Compiled(true), Entry, s, replies, WorstCase);
    RetrievalEntryResets(Compiled(true), Entry, s, replies, WorstCase);
  }

  /** Replies that, from retrieval, keep rejecting: passages, then a verdict other than "sufficient", and so on. */
  predicate KeepsRejecting(replies: seq<Reply>) {
    forall i :: 0 <= i < |replies| ==>
      if i % 2 == 0 then replies[i].Found?
      else replies[i].Said? && Text.Lower(replies[i].text) != Sufficient
  }

  /**
   * Without committed router writes nothing on the retrieve/assess loop
   * writes `retries`, so it stays below the budget and the quality gate
   * sends the run back every time: no fuel is ever enough.
   */
  lemma {:induction false} UncommittedLoopNeverEnds(s: AgentState, replies: seq<Reply>, fuel: nat)
    requires s.retries < MaxRetries
    requires KeepsRejecting(replies) && |replies| >= fuel
    ensures Run(Compiled(false), RetrieveDocuments, s, replies, fuel).OutOfFuel?
    decreases fuel
  {
    if fuel > 0 {
      var s1 := Merge(s, Chain.RetrieveDocuments(s, replies[0].docs));
      assert Compiled(false)(RetrieveDocuments, s, replies[0]) == Some((Node(AssessAnswerQuality), s1));
      if fuel > 1 {
        assert replies[1..][0] == replies[1];
        var s2 := Merge(s1, Chain.AssessAnswerQuality(s1, replies[1].text));
        assert s2.retries == s.retries;
        assert Compiled(false)(AssessAnswerQuality, s1, replies[1]) == Some((Node(RetrieveDocuments), s2));
        assert replies[1..][1..] == replies[2..];
        assert KeepsRejecting(replies[2..]) by {
          forall i | 0 <= i < |replies[2..]|
            ensures if i % 2 == 0 then replies[2..][i].Found?
              else replies[2..][i].Said? && Text.Lower(replies[2..][i].text) != Sufficient
          {
            assert replies[2..][i] == replies[i + 2];
            assert (i + 2) % 2 == i % 2;
          }
        }
        UncommittedLoopNeverEnds(s2, replies[2..], fuel - 2);
      }
    }
  }

  /**
   * From the entry, a question judged sufficient followed by passages and
   * rejections without end never finishes when router writes are not
   * committed, however much fuel is given.
   */
  lemma UncommittedRunDiverges(s: AgentState, replies: seq<Reply>, fuel: nat)
    requires s.retries < MaxRetries
    requires |replies| > fuel && replies[0] == Said(Sufficient) && KeepsRejecting(replies[1..])
    ensures Run(Compiled(false), Entry, s, replies, fuel).OutOfFuel?
  {
    if fuel > 0 {
      var s1 := Merge(s, Chain.AssessQuestion(s, Sufficient));
      SufficientGoesToRetrieval(s);
      UncommittedLoopNeverEnds(s1, replies[1..], fuel - 1);
    }
  }

  /** Without committed writes, a "sufficient" question verdict moves on to retrieval with `retries` untouched. */
  lemma SufficientGoesToRetrieval(s: AgentState)
    ensures var s1 := Merge(s, Chain.AssessQuestion(s, Sufficient));
      && s1.retries == s.retries
      && Compiled(false)(AssessQuestion, s, Said(Sufficient)) == Some((Node(RetrieveDocuments), s1))
  {
    var u := Chain.AssessQuestion(s, Sufficient);
    var s1 := Merge(s, u);
    assert s1.assessmentResult == Sufficient;
    var d := RouteAfterQuestionAssessment(s1);
    assert d.route == "retrieve_documents" by {
      SufficientIsClean();
      assert Text.Strip(Text.Lower(s1.assessmentResult)) == Sufficient;
    }
    assert QuestionPaths[d.route] == RetrieveDocuments;
    assert Follow(false, AssessQuestion, s1) == (Node(RetrieveDocuments), s1);
    assert Invoke(AssessQuestion, s, Said(Sufficient)) == Some(u);
  }
}
