/**
 * The entry point that runs the workflow for one question and turns the
 * last streamed state into the text handed back, and the rules of the
 * interactive loop that re-asks with the conversation so far.
 */
module Runner {
  import opened Wrappers
  import opened State
  import opened Agent
  import opened Engine
  import opened Workflow
  import Chain
  import Text

  /** The character that marks a finished report. */
  const ReportMarker: char := '■'

  /** Returned when the last state has neither a report nor any message. */
  const NoAnswerText: string := "오류: 최종 답변을 생성하지 못했습니다."

  /** Returned when the stream produced no state at all. */
  const NothingStreamedText: string := "에이전트 실행 중 오류가 발생했습니다."

  /** The state a run starts from: the question, and every other field empty or zero. */
  function Initial(question: string): (s: AgentState)
    ensures s.question == question && s.retries == 0
    ensures s.cleanedQuestion == "" && s.answer == "" && s.assistantAnswer == "" && s.assessmentResult == ""
    ensures s.documents == [] && s.finalReport == map[] && s.messages == []
  {
    AgentState(question, "", [], "", "", "", map[], 0, [])
  }

  /** The states the stream yields: the input state, then the state after each invocation. */
  function Streamed(initial: AgentState, trace: seq<Visit>): (states: seq<AgentState>)
    ensures |states| == |trace| + 1 && states[0] == initial
    ensures forall i :: 0 <= i < |trace| ==> states[i + 1] == trace[i].state
  {
    [initial] + seq(|trace|, i requires 0 <= i < |trace| => trace[i].state)
  }

  /** The loop variable left after the stream is consumed: the last state, if any. */
  function LastStreamed(states: seq<AgentState>): (r: Option<AgentState>)
    ensures |states| == 0 <==> r.None?
    ensures |states| > 0 ==> r == Some(states[|states| - 1])
  {
    if |states| == 0 then None else Some(states[|states| - 1])
  }

  /**
   * The text handed back for the last state: the answer itself when it
   * carries the report marker, otherwise the content of the last message,
   * otherwise a fixed error text; a different error text when there was no
   * state at all.
   */
  function SelectResult(last: Option<AgentState>): (r: string)
    ensures last.None? ==> r == NothingStreamedText
    ensures last.Some? && ReportMarker in last.value.answer ==> r == last.value.answer
    ensures last.Some? && ReportMarker !in last.value.answer && |last.value.messages| > 0 ==>
      r == last.value.messages[|last.value.messages| - 1].content
    ensures last.Some? && ReportMarker !in last.value.answer && |last.value.messages| == 0 ==>
      r == NoAnswerText
  {
    match last
    case None => NothingStreamedText
    case Some(s) =>
      if |s.answer| > 0 && ReportMarker in s.answer then s.answer
      else if |s.messages| > 0 then s.messages[|s.messages| - 1].content
      else NoAnswerText
  }

  /** Why a run produced no text: a collaborator raised, or the step budget ran out. */
  datatype RunError = CollaboratorFailed(at: Step) | StepLimit

  /**
   * `run_minone_agent`: run the workflow from the initial state and select
   * the text from the last streamed state. A collaborator failure propagates
   * as an error naming the node. The stream always yields at least the
   * input state, so the text never comes from an empty stream.
   */
  function RunAgent(commit: bool, question: string, replies: seq<Reply>, fuel: nat): (r: Result<string, RunError>)
    ensures var o := Run(Compiled(commit), Entry, Initial(question), replies, fuel);
      && (o.Aborted? <==> r.Failure? && r.error.CollaboratorFailed?)
      && (o.Aborted? ==> r == Failure(CollaboratorFailed(o.at)))
      && (o.OutOfFuel? <==> r == Failure(StepLimit))
      && (o.Finished? ==> r == Success(SelectResult(Some(o.trace[|o.trace| - 1].state))))
  {
    var o := Run(Compiled(commit), Entry, Initial(question), replies, fuel);
    match o
    case Aborted(at, _) => Failure(CollaboratorFailed(at))
    case OutOfFuel(_) => Failure(StepLimit)
    case Finished(trace) => Success(SelectResult(LastStreamed(Streamed(Initial(question), trace))))
  }

  /**
   * The first invocation of every run, from the initial state: whatever the
   * verdict, the transcript becomes the question alone and the run goes to
   * one of the two successors of the gate. Towards retrieval `retries` is
   * handed on as 0; towards clarification it is 1 when the router's write is
   * kept and still 0 otherwise.
   */
  lemma FirstStep(commit: bool, question: string, reply: Reply)
    requires Compiled(commit)(AssessQuestion, Initial(question), reply).Some?
    ensures var n := Compiled(commit)(AssessQuestion, Initial(question), reply).value;
      && n.1.messages == [Message(Human, question)]
      && (n.0 == Node(RequestClarification) || n.0 == Node(RetrieveDocuments))
      && (n.0 == Node(RetrieveDocuments) ==> n.1.retries == 0)
      && (n.0 == Node(RequestClarification) ==> n.1.retries == if commit then 1 else 0)
  {
    GraphShape();
  }

  /** A first verdict other than "sufficient" sends the fresh state to the clarification node. */
  lemma AskedForClarification(commit: bool, question: string, verdict: string)
    requires Text.Strip(Text.Lower(verdict)) != Sufficient
    ensures Compiled(commit)(AssessQuestion, Initial(question), Said(verdict)) ==
      Some((Node(RequestClarification),
            Initial(question).(assessmentResult := verdict, messages := [Message(Human, question)],
                               retries := if commit then 1 else 0)))
  {
    var u := Chain.AssessQuestion(Initial(question), verdict);
    var s1 := Initial(question).(assessmentResult := verdict, messages := [Message(Human, question)]);
    assert Merge(Initial(question), u) == s1;
    var d := RouteAfterQuestionAssessment(s1);
    assert d == Decision("request_clarification", Some(1));
    assert QuestionPaths[d.route] == RequestClarification;
    var s2 := Commit(commit, s1, d);
    assert Follow(commit, AssessQuestion, s1) == (Node(RequestClarification), s2);
    assert Invoke(AssessQuestion, Initial(question), Said(verdict)) == Some(u);
    assert Advance(commit, AssessQuestion, Initial(question), Said(verdict)) == Some((Node(RequestClarification), s2));
  }

  /** The clarification node always ends the run, with one more retry and the clarification appended. */
  lemma Clarified(commit: bool, s: AgentState, clarification: string)
    ensures Compiled(commit)(RequestClarification, s, Said(clarification)) ==
      Some((End, s.(retries := s.retries + 1, messages := s.messages + [Message(Ai, clarification)])))
  {
  }

  /**
   * From the fresh state a first verdict other than "sufficient" always ends
   * the run at the clarification exit after two invocations, whether or not
   * router writes are committed: the gate sees `retries` at 0, below the
   * budget, so the forced hand-over to retrieval cannot happen. The
   * transcript is the question then the clarification, `retries` ends at 2
   * when the router's increment is committed on top of the node's and at 1
   * otherwise.
   */
  lemma ClarificationExit(commit: bool, question: string, verdict: string, clarification: string, rest: seq<Reply>, fuel: nat)
    requires fuel >= 2
    requires Text.Strip(Text.Lower(verdict)) != Sufficient
    ensures var o := Run(Compiled(commit), Entry, Initial(question), [Said(verdict), Said(clarification)] + rest, fuel);
      && o.Finished? && |o.trace| == 2
      && o.trace[0].step == AssessQuestion && o.trace[1].step == RequestClarification
      && o.trace[1].state.messages == [Message(Human, question), Message(Ai, clarification)]
      && o.trace[1].state.retries == (if commit then 2 else 1)
      && o.trace[1].state.answer == ""
  {
    var replies := [Said(verdict), Said(clarification)] + rest;
    var s2 := Initial(question).(assessmentResult := verdict, messages := [Message(Human, question)],
                                 retries := if commit then 1 else 0);
    AskedForClarification(commit, question, verdict);
    Clarified(commit, s2, clarification);
    TwoStepRun(Compiled(commit), AssessQuestion, Initial(question), replies, fuel);
  }

  /** In that case the text handed back is the clarification: its message is the last one and the answer is empty. */
  lemma ClarificationReturned(commit: bool, question: string, verdict: string, clarification: string, rest: seq<Reply>, fuel: nat)
    requires fuel >= 2
    requires Text.Strip(Text.Lower(verdict)) != Sufficient
    ensures RunAgent(commit, question, [Said(verdict), Said(clarification)] + rest, fuel) == Success(clarification)
  {
    ClarificationExit(commit, question, verdict, clarification, rest, fuel);
  }

  /** A run whose first invocation moves on and whose second ends the run finishes with those two visits. */
  lemma TwoStepRun(next: Transition, at: Step, s: AgentState, replies: seq<Reply>, fuel: nat)
    requires fuel >= 2 && |replies| >= 2
    requires next(at, s, replies[0]).Some? && next(at, s, replies[0]).value.0.Node?
    requires var n := next(at, s, replies[0]).value;
      next(n.0.step, n.1, replies[1]).Some? && next(n.0.step, n.1, replies[1]).value.0.End?
    ensures var n := next(at, s, replies[0]).value;
      Run(next, at, s, replies, fuel) ==
        Finished([Visit(at, n.1), Visit(n.0.step, next(n.0.step, n.1, replies[1]).value.1)])
  {
    var n := next(at, s, replies[0]).value;
    assert replies[1..][0] == replies[1];
    var tail := Run(next, n.0.step, n.1, replies[1..], fuel - 1);
    assert tail == Finished([Visit(n.0.step, next(n.0.step, n.1, replies[1]).value.1)]);
  }

  /** A run from the clarification node that finishes does so there, after one invocation. */
  lemma ClarificationEndsRun(next: Transition, s: AgentState, replies: seq<Reply>, fuel: nat)
    requires FollowsGraph(next)
    ensures var o := Run(next, RequestClarification, s, replies, fuel);
      o.Finished? ==> |o.trace| == 1 && o.trace[0].step == RequestClarification
  {
    var o := Run(next, RequestClarification, s, replies, fuel);
    if o.Finished? {
      var a := next(RequestClarification, s, replies[0]);
      assert a.value.0 == End by {
        GraphShape();
        assert EdgeTaken(next, RequestClarification, s, replies[0]);
      }
    }
  }

  /**
   * A run that reaches the completion terminal went through retrieval, and
   * past the question gate nothing extends the transcript: the last state's
   * transcript is the question alone.
   */
  lemma CompletedRunResult(commit: bool, question: string, replies: seq<Reply>, fuel: nat)
    requires Run(Compiled(commit), Entry, Initial(question), replies, fuel).Finished?
    requires var t := Run(Compiled(commit), Entry, Initial(question), replies, fuel).trace;
      t[|t| - 1].step == CreateFinalReport
    ensures var t := Run(Compiled(commit), Entry, Initial(question), replies, fuel).trace;
      t[|t| - 1].state.messages == [Message(Human, question)]
  {
    FirstStep(commit, question, replies[0]);
    WorkflowRespectsGraph(commit);
    CompletionKeepsFirstTranscript(Compiled(commit), Initial(question), replies, fuel);
  }

  /**
   * Under a transition that follows the graph and freezes the transcript
   * past the question gate, a run from the entry that ends at the completion
   * terminal ends with the transcript its first invocation left.
   */
  lemma CompletionKeepsFirstTranscript(next: Transition, s: AgentState, replies: seq<Reply>, fuel: nat)
    requires FollowsGraph(next) && FreezesTranscript(next)
    requires Run(next, AssessQuestion, s, replies, fuel).Finished?
    requires var t := Run(next, AssessQuestion, s, replies, fuel).trace;
      t[|t| - 1].step == CreateFinalReport
    ensures var t := Run(next, AssessQuestion, s, replies, fuel).trace;
      t[|t| - 1].state.messages == next(AssessQuestion, s, replies[0]).value.1.messages
  {
    var o := Run(next, AssessQuestion, s, replies, fuel);
    var n := next(AssessQuestion, s, replies[0]).value;
    assert n.0 == Node(RequestClarification) || n.0 == Node(RetrieveDocuments) by {
      GraphShape();
      assert EdgeTaken(next, AssessQuestion, s, replies[0]);
    }
    var rest := Run(next, n.0.step, n.1, replies[1..], fuel - 1);
    assert o == Prepend(Visit(AssessQuestion, n.1), rest);
    ClarificationEndsRun(next, n.1, replies[1..], fuel - 1);
    assert n.0 == Node(RetrieveDocuments);
    TranscriptFrozen(next, RetrieveDocuments, n.1, replies[1..], fuel - 1);
    assert o.trace[|o.trace| - 1] == rest.trace[|rest.trace| - 1];
  }

  /**
   * So the text a completed run hands back is the report when it carries the
   * marker and otherwise the user's own question, echoed from the transcript.
   */
  lemma CompletedRunEchoes(commit: bool, question: string, replies: seq<Reply>, fuel: nat)
    requires Run(Compiled(commit), Entry, Initial(question), replies, fuel).Finished?
    requires var t := Run(Compiled(commit), Entry, Initial(question), replies, fuel).trace;
      t[|t| - 1].step == CreateFinalReport
    ensures var t := Run(Compiled(commit), Entry, Initial(question), replies, fuel).trace;
      RunAgent(commit, question, replies, fuel) ==
        Success(if ReportMarker in t[|t| - 1].state.answer then t[|t| - 1].state.answer else question)
  {
    CompletedRunResult(commit, question, replies, fuel);
  }

  /**
   * Every finished run ends with a non-empty transcript, so the fixed error
   * text for a state with neither report nor message is never returned
   * for it.
   */
  lemma FinishedRunHasTranscript(commit: bool, question: string, replies: seq<Reply>, fuel: nat)
    requires Run(Compiled(commit), Entry, Initial(question), replies, fuel).Finished?
    ensures var t := Run(Compiled(commit), Entry, Initial(question), replies, fuel).trace;
      |t[|t| - 1].state.messages| >= 1
  {
    var next := Compiled(commit);
    var s0 := Initial(question);
    var t := Run(next, Entry, s0, replies, fuel).trace;
    FirstStep(commit, question, replies[0]);
    assert t[0].state.messages == [Message(Human, question)];
    WorkflowRespectsGraph(commit);
    TranscriptGrows(next, Entry, s0, replies, fuel);
    assert t[0].state.messages <= t[|t| - 1].state.messages by {
      PrefixChain(t);
    }
  }

  /** Along a stream whose consecutive transcripts extend each other, the first is a prefix of the last. */
  lemma {:induction false} PrefixChain(t: seq<Visit>)
    requires |t| > 0
    requires forall i :: 0 <= i < |t| - 1 ==> t[i].state.messages <= t[i + 1].state.messages
    ensures t[0].state.messages <= t[|t| - 1].state.messages
    decreases |t|
  {
    if |t| > 1 {
      PrefixChain(t[..|t| - 1]);
      assert t[..|t| - 1][|t| - 2] == t[|t| - 2];
    }
  }

  /** The prefix the loop puts before each user turn. */
  const UserPrefix: string := "사용자: "

  /** The prefix the loop puts before the agent's previous response. */
  const AiPrefix: string := "AI: "

  /** An input that ends the loop: "exit" or "quit" in any letter case, not trimmed. */
  predicate IsExitCommand(input: string) {
    Text.Lower(input) == "exit" || Text.Lower(input) == "quit"
  }

  /** A response that ends the loop: it carries the report marker. */
  predicate IsFinalResponse(response: string) {
    ReportMarker in response
  }

  /** One round of the loop after a run: the agent's response, and what the user typed next. */
  datatype Exchange = Exchange(response: string, reply: string)

  /**
   * The questions the loop sends, starting from `history`: each is the
   * history joined by newlines. After a response that is not final and a
   * reply that is not an exit command, the reply and then the previous
   * response are appended to the history, so each question is the previous
   * one followed by those two lines. The loop stops at the first final
   * response or exit command, or when the scripted exchanges run out.
   */
  function Turns(history: seq<string>, exchanges: seq<Exchange>): (asked: seq<string>)
    requires |history| > 0
    ensures 1 <= |asked| <= |exchanges| + 1
    ensures asked[0] == Text.Join(history, "\n")
    ensures forall k :: 0 <= k < |asked| - 1 ==>
      && !IsFinalResponse(exchanges[k].response)
      && !IsExitCommand(exchanges[k].reply)
      && asked[k + 1] == asked[k] + "\n" + UserPrefix + exchanges[k].reply + "\n" + AiPrefix + exchanges[k].response
    ensures |asked| <= |exchanges| ==>
      IsFinalResponse(exchanges[|asked| - 1].response) || IsExitCommand(exchanges[|asked| - 1].reply)
    decreases |exchanges|
  {
    var question := Text.Join(history, "\n");
    if |exchanges| == 0 then [question]
    else
      var e := exchanges[0];
      if IsFinalResponse(e.response) || IsExitCommand(e.reply) then [question]
      else
        var extended := history + [UserPrefix + e.reply, AiPrefix + e.response];
        Text.JoinSnoc(history, "\n", UserPrefix + e.reply);
        Text.JoinSnoc(history + [UserPrefix + e.reply], "\n", AiPrefix + e.response);
        assert extended == history + [UserPrefix + e.reply] + [AiPrefix + e.response];
        [question] + Turns(extended, exchanges[1..])
  }

  /**
   * The whole loop: nothing is asked when the first input is an exit
   * command; otherwise the first question is that input behind the user
   * prefix, and the rest follow the rules of `Turns`.
   */
  function Conversation(first: string, exchanges: seq<Exchange>): (asked: seq<string>)
    ensures IsExitCommand(first) <==> |asked| == 0
    ensures !IsExitCommand(first) ==> asked[0] == UserPrefix + first
  {
    if IsExitCommand(first) then [] else Turns([UserPrefix + first], exchanges)
  }
}
