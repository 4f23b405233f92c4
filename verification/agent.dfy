/**
 * The workflow definition: the retry budget, the two routers that decide
 * where to go after each assessment, and the static edge table.
 */
module Agent {
  import opened Wrappers
  import opened State
  import Text

  /** The retry budget, shared by the clarification loop and the re-retrieval loop. */
  const MaxRetries: int := 1

  /** The seven nodes the workflow registers. */
  datatype Step =
    | AssessQuestion | RequestClarification | RetrieveDocuments | AssessAnswerQuality
    | GenerateAnswer | FilterAndSanitize | CreateFinalReport

  /** Where an edge leads: another node, or the end of the run. */
  datatype Target = Node(step: Step) | End

  /** The name under which each node is registered. */
  function Name(step: Step): string {
    match step
    case AssessQuestion => "assess_question"
    case RequestClarification => "request_clarification"
    case RetrieveDocuments => "retrieve_documents"
    case AssessAnswerQuality => "assess_answer_quality"
    case GenerateAnswer => "generate_answer"
    case FilterAndSanitize => "filter_and_sanitize"
    case CreateFinalReport => "create_final_report"
  }

  /** The path map of the conditional edges leaving `assess_question`. */
  const QuestionPaths: map<string, Step> :=
    map["request_clarification" := RequestClarification, "retrieve_documents" := RetrieveDocuments]

  /** The path map of the conditional edges leaving `assess_answer_quality`. */
  const QualityPaths: map<string, Step> :=
    map["retrieve_documents" := RetrieveDocuments, "generate_answer" := GenerateAnswer]

  /** Each path map sends a node name to the node registered under that name. */
  lemma PathMapsFollowNames()
    ensures forall n :: n in QuestionPaths ==> Name(QuestionPaths[n]) == n
    ensures forall n :: n in QualityPaths ==> Name(QualityPaths[n]) == n
  {
  }

  /**
   * What a router does: the node name it returns, and the value it assigns
   * to `state['retries']` on the way, if any.
   */
  datatype Decision = Decision(route: string, retriesWrite: Option<int>)

  /** The verdict both routers compare against. */
  const Sufficient: string := "sufficient"

  /** The verdict is a lower-case word, so lower-casing is the identity on it. */
  lemma SufficientIsLowerWord()
    ensures Text.IsLowerWord(Sufficient)
  {
  }

  /**
   * `route_after_question_assessment`: a verdict that reads "sufficient"
   * after lower-casing and trimming leads to retrieval with `retries` reset
   * to 0; any other verdict leads to retrieval with `retries` reset to 0 once
   * the budget is used up, and otherwise to clarification with `retries`
   * raised by exactly one. The name returned is always a key of the path map.
   */
  function RouteAfterQuestionAssessment(s: AgentState): (d: Decision)
    ensures d.route in QuestionPaths
    ensures Text.Strip(Text.Lower(s.assessmentResult)) == Sufficient ==>
      d == Decision("retrieve_documents", Some(0))
    ensures Text.Strip(Text.Lower(s.assessmentResult)) != Sufficient && s.retries >= MaxRetries ==>
      d == Decision("retrieve_documents", Some(0))
    ensures Text.Strip(Text.Lower(s.assessmentResult)) != Sufficient && s.retries < MaxRetries ==>
      d == Decision("request_clarification", Some(s.retries + 1))
  {
    var verdict := Text.Strip(Text.Lower(s.assessmentResult));
    if verdict == Sufficient then
      Decision("retrieve_documents", Some(0))
    else if s.retries >= MaxRetries then
      Decision("retrieve_documents", Some(0))
    else
      Decision("request_clarification", Some(s.retries + 1))
  }

  /**
   * `route_after_quality_assessment`: the verdict is only lower-cased, not
   * trimmed. "sufficient" leads to drafting, and so does any other verdict
   * once the budget is used up, both without touching `retries`; otherwise
   * retrieval runs again with `retries` raised by exactly one.
   */
  function RouteAfterQualityAssessment(s: AgentState): (d: Decision)
    ensures d.route in QualityPaths
    ensures Text.Lower(s.assessmentResult) == Sufficient ==> d == Decision("generate_answer", None)
    ensures Text.Lower(s.assessmentResult) != Sufficient && s.retries >= MaxRetries ==>
      d == Decision("generate_answer", None)
    ensures Text.Lower(s.assessmentResult) != Sufficient && s.retries < MaxRetries ==>
      d == Decision("retrieve_documents", Some(s.retries + 1))
  {
    if Text.Lower(s.assessmentResult) == Sufficient then
      Decision("generate_answer", None)
    else if s.retries >= MaxRetries then
      Decision("generate_answer", None)
    else
      Decision("retrieve_documents", Some(s.retries + 1))
  }

  /**
   * The question gate asks for clarification exactly when the verdict is
   * not "sufficient" in any letter case (surrounding whitespace ignored) and
   * budget remains; in every other case it proceeds to retrieval.
   */
  lemma QuestionGateClarifiesIff(s: AgentState)
    ensures RouteAfterQuestionAssessment(s).route == "request_clarification" <==>
      (|Text.Strip(s.assessmentResult)| != |Sufficient|
        || exists i :: 0 <= i < |Sufficient| && !Text.SameLetter(Text.Strip(s.assessmentResult)[i], Sufficient[i]))
      && s.retries < MaxRetries
  {
    var v := Text.Strip(s.assessmentResult);
    Text.StripLowerCommute(s.assessmentResult);
    SufficientIsLowerWord();
    Text.LowerMatchesIff(v, Sufficient);
    var spelled := |v| == |Sufficient| && forall i :: 0 <= i < |v| ==> Text.SameLetter(v[i], Sufficient[i]);
    assert Text.Strip(Text.Lower(s.assessmentResult)) == Sufficient <==> spelled;
  }

  /**
   * The quality gate does not trim: a verdict with a leading space is read
   * as insufficient and, with budget left, sends the run back to retrieval,
   * although the question gate reads the same text as sufficient.
   */
  lemma QualityGateDoesNotTrim(s: AgentState)
    requires s.assessmentResult == " sufficient" && s.retries == 0
    ensures RouteAfterQualityAssessment(s) == Decision("retrieve_documents", Some(1))
    ensures RouteAfterQuestionAssessment(s) == Decision("retrieve_documents", Some(0))
  {
    assert |Text.Lower(s.assessmentResult)| != |Sufficient|;
    PaddedVerdictStrips();
  }

  /** The question gate reads `" sufficient"` as the verdict itself. */
  lemma PaddedVerdictStrips()
    ensures Text.Strip(Text.Lower(" sufficient")) == Sufficient
  {
    Text.StripLowerCommute(" sufficient");
    LeadingSpaceTrimmed();
    SufficientIsClean();
  }

  /** Trimming the front drops the single leading space. */
  lemma LeadingSpaceTrimmed()
    ensures Text.TrimStart(" sufficient") == Text.TrimStart("sufficient")
  {
    assert " sufficient"[1..] == "sufficient";
  }

  /** The verdict has no surrounding whitespace and no upper-case letter. */
  lemma SufficientIsClean()
    ensures Text.TrimStart(Sufficient) == Sufficient
    ensures Text.TrimEnd(Sufficient) == Sufficient
    ensures Text.Lower(Sufficient) == Sufficient
  {
    assert !Text.IsSpace('s') && !Text.IsSpace('t');
    SufficientIsLowerWord();
    Text.LowerMatchesIff(Sufficient, Sufficient);
  }

  /** Which router decides at a conditional point. */
  datatype Gate = QuestionGate | QualityGate

  /** The outgoing edge of a node: fixed, or decided by a router through its path map. */
  datatype Edge = Static(next: Target) | Conditional(gate: Gate, paths: map<string, Step>)

  /** The node every run starts at. */
  const Entry: Step := AssessQuestion

  /** The edge table of `build_agent_workflow`. */
  function EdgeOf(step: Step): Edge {
    match step
    case AssessQuestion => Conditional(QuestionGate, QuestionPaths)
    case RequestClarification => Static(End)
    case RetrieveDocuments => Static(Node(AssessAnswerQuality))
    case AssessAnswerQuality => Conditional(QualityGate, QualityPaths)
    case GenerateAnswer => Static(Node(FilterAndSanitize))
    case FilterAndSanitize => Static(Node(CreateFinalReport))
    case CreateFinalReport => Static(End)
  }

  /** Every target an edge of `step` can lead to. */
  function Successors(step: Step): set<Target> {
    match EdgeOf(step)
    case Static(t) => {t}
    case Conditional(_, paths) => set n | n in paths :: Node(paths[n])
  }

  /** The one edge that leads back: from the quality gate to retrieval. */
  predicate IsBackEdge(a: Step, b: Step) {
    a == AssessAnswerQuality && b == RetrieveDocuments
  }

  /** A topological rank of the nodes once the back edge is removed. */
  function Rank(step: Step): nat {
    match step
    case AssessQuestion => 0
    case RequestClarification => 1
    case RetrieveDocuments => 1
    case AssessAnswerQuality => 2
    case GenerateAnswer => 3
    case FilterAndSanitize => 4
    case CreateFinalReport => 5
  }

  /** A sequence of nodes each of which has an edge to the next. */
  ghost predicate IsPath(p: seq<Step>) {
    forall i :: 0 <= i < |p| - 1 ==> Node(p[i + 1]) in Successors(p[i])
  }

  /** Some step of the path is the back edge. */
  ghost predicate UsesBackEdge(p: seq<Step>) {
    exists i :: 0 <= i < |p| - 1 && IsBackEdge(p[i], p[i + 1])
  }

  /**
   * The shape of the graph: the run ends only after clarification or after
   * the final report; retrieval leads to the quality gate; drafting leads to
   * sanitising and then to the report; the quality gate can lead back to
   * retrieval; every other edge goes strictly forward in rank.
   */
  lemma GraphShape()
    ensures forall a :: End in Successors(a) <==> a == RequestClarification || a == CreateFinalReport
    ensures Successors(RequestClarification) == {End}
    ensures Successors(RetrieveDocuments) == {Node(AssessAnswerQuality)}
    ensures Successors(GenerateAnswer) == {Node(FilterAndSanitize)}
    ensures Successors(FilterAndSanitize) == {Node(CreateFinalReport)}
    ensures Successors(CreateFinalReport) == {End}
    ensures Successors(AssessQuestion) == {Node(RequestClarification), Node(RetrieveDocuments)}
    ensures Successors(AssessAnswerQuality) == {Node(RetrieveDocuments), Node(GenerateAnswer)}
    ensures forall a, b :: Node(b) in Successors(a) && !IsBackEdge(a, b) ==> Rank(a) < Rank(b)
  {
    assert Successors(AssessQuestion) == {Node(RequestClarification), Node(RetrieveDocuments)} by {
      assert QuestionPaths["request_clarification"] == RequestClarification;
      assert QuestionPaths["retrieve_documents"] == RetrieveDocuments;
    }
    assert Successors(AssessAnswerQuality) == {Node(RetrieveDocuments), Node(GenerateAnswer)} by {
      assert QualityPaths["retrieve_documents"] == RetrieveDocuments;
      assert QualityPaths["generate_answer"] == GenerateAnswer;
    }
  }

  /** Along a path that avoids the back edge, the rank grows by at least one per edge. */
  lemma {:induction false} RankGrowsAlongForwardPath(p: seq<Step>)
    requires |p| > 0 && IsPath(p) && !UsesBackEdge(p)
    ensures Rank(p[0]) + |p| - 1 <= Rank(p[|p| - 1])
    decreases |p|
  {
    if |p| > 1 {
      var q := p[..|p| - 1];
      assert IsPath(q) by {
        forall i | 0 <= i < |q| - 1
          ensures Node(q[i + 1]) in Successors(q[i])
        {
          assert q[i] == p[i] && q[i + 1] == p[i + 1];
        }
      }
      assert !UsesBackEdge(q) by {
        forall i | 0 <= i < |q| - 1
          ensures !IsBackEdge(q[i], q[i + 1])
        {
          assert q[i] == p[i] && q[i + 1] == p[i + 1];
        }
      }
      RankGrowsAlongForwardPath(q);
      GraphShape();
      var n := |p| - 2;
      assert Node(p[n + 1]) in Successors(p[n]);
      assert !IsBackEdge(p[n], p[n + 1]);
    }
  }

  /** Every cycle of the graph passes through the back edge from the quality gate to retrieval. */
  lemma CycleUsesBackEdge(p: seq<Step>)
    requires |p| >= 2 && IsPath(p) && p[0] == p[|p| - 1]
    ensures UsesBackEdge(p)
  {
    if !UsesBackEdge(p) {
      RankGrowsAlongForwardPath(p);
      assert false;
    }
  }

  /** The retrieval loop is a cycle of the graph. */
  lemma RetrievalLoopIsCycle()
    ensures IsPath([RetrieveDocuments, AssessAnswerQuality, RetrieveDocuments])
  {
    GraphShape();
  }

  /** A path from the entry to each node: every node is reachable. */
  function PathTo(step: Step): (p: seq<Step>)
    ensures |p| > 0 && p[0] == Entry && p[|p| - 1] == step
    ensures IsPath(p)
  {
    GraphShape();
    match step
    case AssessQuestion => [AssessQuestion]
    case RequestClarification => [AssessQuestion, RequestClarification]
    case RetrieveDocuments => [AssessQuestion, RetrieveDocuments]
    case AssessAnswerQuality => [AssessQuestion, RetrieveDocuments, AssessAnswerQuality]
    case GenerateAnswer => [AssessQuestion, RetrieveDocuments, AssessAnswerQuality, GenerateAnswer]
    case FilterAndSanitize =>
      [AssessQuestion, RetrieveDocuments, AssessAnswerQuality, GenerateAnswer, FilterAndSanitize]
    case CreateFinalReport =>
      [AssessQuestion, RetrieveDocuments, AssessAnswerQuality, GenerateAnswer, FilterAndSanitize, CreateFinalReport]
  }
}
