/**
 * The step functions of the workflow. Each one reads the state and returns a
 * partial update; the language model and the retriever a step calls are
 * replaced by a parameter holding what that collaborator returned.
 */
module Chain {
  import opened Wrappers
  import opened State
  import Text

  /**
   * A retrieved passage. `source` stands for `metadata['source']`, which the
   * retriever's listing prints (app/rag/retriever.py:65); it is kept so that
   * `RetrieveDocuments` shows that only `page_content` reaches the state.
   */
  datatype Document = Document(pageContent: string, source: string)

  /** What the answer-drafting model is given. */
  datatype Prompt = Prompt(context: string, question: string)

  /** The separator placed between retrieved passages in the drafting context. */
  const ContextSeparator: string := "\n\n---\n\n"

  /**
   * `assess_question_node`: records the classifier's `verdict` as
   * `assessment_result` and appends the question as one human message;
   * nothing else is touched.
   */
  function AssessQuestion(s: AgentState, verdict: string): (u: Update)
    ensures Carried(u) == {AssessmentResult, Messages}
    ensures Merge(s, u).assessmentResult == verdict
    ensures Merge(s, u).messages == s.messages + [Message(Human, s.question)]
  {
    NoChange.(assessmentResult := Some(verdict), messages := [Message(Human, s.question)])
  }

  /**
   * `request_clarification_node`: increments the committed `retries` once
   * more and appends the generated `clarification` as one AI message; the
   * answer is left alone.
   */
  function RequestClarification(s: AgentState, clarification: string): (u: Update)
    ensures Carried(u) == {Retries, Messages}
    ensures Merge(s, u).retries == s.retries + 1
    ensures Merge(s, u).messages == s.messages + [Message(Ai, clarification)]
    ensures Merge(s, u).answer == s.answer
  {
    NoChange.(retries := Some(s.retries + 1), messages := [Message(Ai, clarification)])
  }

  /**
   * `retrieve_documents_node`: replaces `documents` by the page contents of
   * what the retriever returned, one per passage, in the same order; the
   * transcript is not extended.
   */
  function RetrieveDocuments(s: AgentState, retrieved: seq<Document>): (u: Update)
    ensures Carried(u) == {Documents}
    ensures |Merge(s, u).documents| == |retrieved|
    ensures forall i :: 0 <= i < |retrieved| ==> Merge(s, u).documents[i] == retrieved[i].pageContent
  {
    NoChange.(documents := Some(seq(|retrieved|, i requires 0 <= i < |retrieved| => retrieved[i].pageContent)))
  }

  /** `assess_answer_quality_node`: only `assessment_result` changes, to the model's verdict. */
  function AssessAnswerQuality(s: AgentState, verdict: string): (u: Update)
    ensures Carried(u) == {AssessmentResult}
    ensures Merge(s, u).assessmentResult == verdict
  {
    NoChange.(assessmentResult := Some(verdict))
  }

  /**
   * The prompt `generate_answer_node` sends: the question, and the documents
   * in order with the separator between neighbours (an empty context when
   * there are none).
   */
  function DraftPrompt(s: AgentState): (p: Prompt)
    ensures p.question == s.question
    ensures p.context == Text.Join(s.documents, ContextSeparator)
    ensures |s.documents| == 0 ==> p.context == ""
    ensures |s.documents| > 0 ==>
      |p.context| == Text.TotalLength(s.documents) + (|s.documents| - 1) * |ContextSeparator|
  {
    Text.JoinLength(s.documents, ContextSeparator);
    Prompt(Text.Join(s.documents, ContextSeparator), s.question)
  }

  /**
   * `generate_answer_node`: the draft goes to `answer`, not to
   * `assistant_answer`, and that is the only field written.
   */
  function GenerateAnswer(s: AgentState, draft: string): (u: Update)
    ensures Carried(u) == {Answer}
    ensures Merge(s, u).answer == draft
    ensures Merge(s, u).assistantAnswer == s.assistantAnswer
  {
    NoChange.(answer := Some(draft))
  }

  /**
   * `filter_and_sanitize_node`, which the workflow wires in but the chain
   * module does not define: an update that writes only `cleaned_question`.
   */
  function FilterAndSanitize(s: AgentState, cleaned: string): (u: Update)
    ensures Carried(u) == {CleanedQuestion}
    ensures Merge(s, u).cleanedQuestion == cleaned
  {
    NoChange.(cleanedQuestion := Some(cleaned))
  }

  /**
   * `create_final_report_node`, likewise not defined by the chain module: an
   * update that writes the report text to `answer` and its structured form
   * to `final_report`, and nothing else.
   */
  function CreateFinalReport(s: AgentState, report: string, fields: map<string, string>): (u: Update)
    ensures Carried(u) == {Answer, FinalReport}
    ensures Merge(s, u).answer == report && Merge(s, u).finalReport == fields
  {
    NoChange.(answer := Some(report), finalReport := Some(fields))
  }

  /**
   * `format_answer_node` (defined but not wired into the workflow): the
   * formatted text becomes `answer` and is appended as one AI message whose
   * content is identical to it.
   */
  function FormatAnswer(s: AgentState, formatted: string): (u: Update)
    ensures Carried(u) == {Answer, Messages}
    ensures Merge(s, u).answer == formatted
    ensures Merge(s, u).messages == s.messages + [Message(Ai, formatted)]
    ensures var t := Merge(s, u);
      |t.messages| == |s.messages| + 1 && t.messages[|t.messages| - 1] == Message(Ai, t.answer)
  {
    NoChange.(answer := Some(formatted), messages := [Message(Ai, formatted)])
  }
}
