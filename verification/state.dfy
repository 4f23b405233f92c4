/**
 * The record threaded through the workflow (`AgentState`) and the rule by
 * which a step's partial update is merged into it: `messages` is combined by
 * list concatenation, every other field is overwritten when the update
 * carries it and left alone otherwise.
 */
module State {
  import opened Wrappers

  /** Who produced a transcript entry: `HumanMessage` or `AIMessage`. */
  datatype Role = Human | Ai

  /** One transcript entry; only its role and `content` matter here. */
  datatype Message = Message(role: Role, content: string)

  /**
   * The nine fields of the state. `final_report` is a dictionary whose values
   * are abstracted to text.
   */
  datatype AgentState = AgentState(
    question: string,
    cleanedQuestion: string,
    documents: seq<string>,
    answer: string,
    assistantAnswer: string,
    assessmentResult: string,
    finalReport: map<string, string>,
    retries: int,
    messages: seq<Message>)

  /**
   * The dictionary a step returns. `None` means the key is absent; for
   * `messages` an absent key and an empty list are the same, since both
   * leave the transcript as it was.
   */
  datatype Update = Update(
    question: Option<string>,
    cleanedQuestion: Option<string>,
    documents: Option<seq<string>>,
    answer: Option<string>,
    assistantAnswer: Option<string>,
    assessmentResult: Option<string>,
    finalReport: Option<map<string, string>>,
    retries: Option<int>,
    messages: seq<Message>)

  /** The empty dictionary. */
  const NoChange: Update := Update(None, None, None, None, None, None, None, None, [])

  /** The keys of the state record. */
  datatype Field =
    | Question | CleanedQuestion | Documents | Answer | AssistantAnswer
    | AssessmentResult | FinalReport | Retries | Messages

  /** A field's value, seen as an entry of an untyped dictionary. */
  datatype Value =
    | Text(text: string)
    | Texts(texts: seq<string>)
    | Dict(entries: map<string, string>)
    | Number(number: int)
    | Transcript(log: seq<Message>)

  /** The dictionary view of a state: `state[f]`. */
  function Get(s: AgentState, f: Field): Value {
    match f
    case Question => Text(s.question)
    case CleanedQuestion => Text(s.cleanedQuestion)
    case Documents => Texts(s.documents)
    case Answer => Text(s.answer)
    case AssistantAnswer => Text(s.assistantAnswer)
    case AssessmentResult => Text(s.assessmentResult)
    case FinalReport => Dict(s.finalReport)
    case Retries => Number(s.retries)
    case Messages => Transcript(s.messages)
  }

  /** The dictionary view of an update: `update.get(f)`. */
  function Written(u: Update, f: Field): Option<Value> {
    match f
    case Question => if u.question.Some? then Some(Text(u.question.value)) else None
    case CleanedQuestion => if u.cleanedQuestion.Some? then Some(Text(u.cleanedQuestion.value)) else None
    case Documents => if u.documents.Some? then Some(Texts(u.documents.value)) else None
    case Answer => if u.answer.Some? then Some(Text(u.answer.value)) else None
    case AssistantAnswer => if u.assistantAnswer.Some? then Some(Text(u.assistantAnswer.value)) else None
    case AssessmentResult => if u.assessmentResult.Some? then Some(Text(u.assessmentResult.value)) else None
    case FinalReport => if u.finalReport.Some? then Some(Dict(u.finalReport.value)) else None
    case Retries => if u.retries.Some? then Some(Number(u.retries.value)) else None
    case Messages => if |u.messages| > 0 then Some(Transcript(u.messages)) else None
  }

  const AllFields: set<Field> :=
    {Question, CleanedQuestion, Documents, Answer, AssistantAnswer,
     AssessmentResult, FinalReport, Retries, Messages}

  /** The keys an update carries. */
  function Carried(u: Update): set<Field> {
    set f | f in AllFields && Written(u, f).Some?
  }

  /** The keys on which two states differ. */
  function Changed(s: AgentState, t: AgentState): set<Field> {
    set f | f in AllFields && Get(s, f) != Get(t, f)
  }

  /** The merge of a partial update into the state (the reducer of each field applied to it). */
  function Merge(s: AgentState, u: Update): AgentState {
    AgentState(
      question := u.question.GetOr(s.question),
      cleanedQuestion := u.cleanedQuestion.GetOr(s.cleanedQuestion),
      documents := u.documents.GetOr(s.documents),
      answer := u.answer.GetOr(s.answer),
      assistantAnswer := u.assistantAnswer.GetOr(s.assistantAnswer),
      assessmentResult := u.assessmentResult.GetOr(s.assessmentResult),
      finalReport := u.finalReport.GetOr(s.finalReport),
      retries := u.retries.GetOr(s.retries),
      messages := s.messages + u.messages)
  }

  /**
   * What a merge does, field by field in the dictionary view: each
   * overwrite field takes the update's value when the update carries it and
   * keeps the old one otherwise; the transcript is extended by the update's
   * messages, so the old transcript is a prefix of the new one; and no field
   * the update does not carry changes.
   */
  lemma MergeSemantics(s: AgentState, u: Update)
    ensures forall f :: f != Messages ==> Get(Merge(s, u), f) == Written(u, f).GetOr(Get(s, f))
    ensures Merge(s, u).messages == s.messages + u.messages
    ensures s.messages <= Merge(s, u).messages && |s.messages| <= |Merge(s, u).messages|
    ensures Changed(s, Merge(s, u)) <= Carried(u)
  {
  }

  /** The empty update changes nothing. */
  lemma MergeNoChange(s: AgentState)
    ensures Merge(s, NoChange) == s
  {
    assert s.messages + [] == s.messages;
  }

  /** Override `a` by `b`: `b`'s value when it has one, else `a`'s. */
  function Override<T>(a: Option<T>, b: Option<T>): Option<T> {
    if b.Some? then b else a
  }

  /** Two updates applied one after the other, as a single update. */
  function Then(u: Update, v: Update): Update {
    Update(
      Override(u.question, v.question),
      Override(u.cleanedQuestion, v.cleanedQuestion),
      Override(u.documents, v.documents),
      Override(u.answer, v.answer),
      Override(u.assistantAnswer, v.assistantAnswer),
      Override(u.assessmentResult, v.assessmentResult),
      Override(u.finalReport, v.finalReport),
      Override(u.retries, v.retries),
      u.messages + v.messages)
  }

  /**
   * Merging two updates in turn is merging their combination: later
   * overwrites win and the transcript receives both batches in order.
   */
  lemma MergeThen(s: AgentState, u: Update, v: Update)
    ensures Merge(Merge(s, u), v) == Merge(s, Then(u, v))
  {
    assert (s.messages + u.messages) + v.messages == s.messages + (u.messages + v.messages);
  }
}
