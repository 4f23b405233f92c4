# Complaint-agent workflow, modelled in Dafny

This project models the core of a civil-complaint assistant. The assistant is built as a
LangGraph state machine: one question from a citizen is assessed, clarified or answered
from retrieved law passages, and turned into a final report. The model covers:

- the shared agent state and how node updates are merged into it (`State`);
- the node functions of the chain, with each language-model or retriever call replaced
  by a parameter holding what that collaborator returned (`Chain`);
- the retry budget, the two routers and the edge table of the compiled workflow
  (`Agent`);
- a fuel-bounded run semantics for any transition (`Engine`) and the compiled workflow
  as one such transition (`Workflow`);
- the entry function that runs one question and picks the text handed back, and the
  interactive loop that re-asks with the conversation so far (`Runner`);
- the batched index build of the retriever (`Retriever`);
- Python's `lower`, `strip` and `join` as the routers and the loop use them (`Text`),
  and `Option`/`Result` (`Wrappers`).

The routers assign to `state['retries']` and return only a node name. Whether such an
assignment survives into the state the next node sees is decided by the graph library,
not by this code. The model therefore takes it as a parameter `commit`:

- With `commit`, every run from the entry stops within 1 + 2 * (1 + MAX_RETRIES) + 3 = 8
  invocations, retrieves at most 1 + MAX_RETRIES = 2 times, and enters retrieval from
  the question gate only with `retries` at 0 (`Workflow.CommittedRunTerminates`).
- Without `commit`, nothing on the retrieve/assess loop writes `retries`. A question
  judged sufficient, followed by documents rejected again and again, never reaches the
  end however many steps are allowed (`Workflow.UncommittedRunDiverges`).

Past the question gate no node adds a message. A run that reaches the final report
therefore still has the question as its only message. If the report text lacks the
marker `■`, the entry function hands back the question itself
(`Runner.CompletedRunEchoes`).

Behaviour of the code worth noting:

- With committed router writes, the worst case is 8 invocations: one question
  assessment, two rounds of retrieval plus quality assessment, then drafting,
  sanitising and the report. Without them there is no worst case (see above).
- The quality gate compares the lower-cased verdict for equality with "sufficient"
  without trimming it (`Agent.QualityGateDoesNotTrim`). The question gate lower-cases
  and trims.
- `generate_answer_node` writes the draft to `answer`; `assistant_answer` is never
  written (`Chain.GenerateAnswer`).
- `retries` is raised both by the question router (app/ai/agent.py:39) and by the
  clarification node (app/rag/chain.py:42). With committed router writes a
  clarification therefore leaves `retries` at 2 (`Runner.ClarificationExit`).
- app/ai/agent.py:9-10 imports `filter_and_sanitize_node` and `create_final_report_node`
  from app/rag/chain.py, which does not define them. As written, that import raises
  `ImportError`, so the workflow cannot be built at all. The model assumes that sanitising
  writes only `cleaned_question` and that the report writes only `answer` and
  `final_report`. No code in the repository fixes this behaviour.

## Model

| member | source | states |
|---|---|---|
| Text.Lower | app/ai/agent.py:23 | lower-casing keeps the length and maps every character on its own, ASCII capitals to small letters and everything else unchanged |
| Text.LowerMatchesIff | app/ai/agent.py:25 | the lower-cased text equals a lower-case word exactly when it spells that word letter by letter in any mix of cases |
| Text.Strip | app/ai/agent.py:23 | the stripped text is a contiguous slice of the input; everything cut off on either side is whitespace, and the result neither starts nor ends with whitespace |
| Text.StripLowerCommute | app/ai/agent.py:23 | stripping after lower-casing gives the same text as lower-casing after stripping |
| Text.JoinSnoc | app/main.py:97 | joining one more part appends the separator and that part to the previous join |
| Text.JoinLength | app/rag/chain.py:75 | a join is as long as all its parts plus one separator between each neighbouring pair |
| State.MergeSemantics | app/ai/state.py:21-29 | a merge overwrites exactly the fields the update carries, appends the update's messages to the transcript (the old transcript stays a prefix), and changes no other field |
| State.MergeNoChange | app/ai/state.py:21-29 | merging an empty update leaves the state as it was |
| State.MergeThen | app/ai/state.py:29 | merging two updates in turn equals merging their combination: later overwrites win and both message batches arrive in order |
| Chain.AssessQuestion | app/rag/chain.py:15-29 | the update carries only `assessment_result` (the verdict) and one human message holding the question |
| Chain.RequestClarification | app/rag/chain.py:31-44 | the update raises `retries` by one and appends the clarification as one AI message; nothing else, the answer included, changes |
| Chain.RetrieveDocuments | app/rag/chain.py:47-57 | `documents` becomes the page contents of the retrieved passages, one per passage and in order; nothing else changes |
| Chain.AssessAnswerQuality | app/rag/chain.py:59-67 | only `assessment_result` changes, to the verdict |
| Chain.DraftPrompt | app/rag/chain.py:74-76 | the drafting prompt carries the question and the documents joined by the separator; no documents give an empty context, otherwise its length is the documents' total length plus one separator per neighbouring pair |
| Chain.GenerateAnswer | app/rag/chain.py:70-79 | the draft goes to `answer`, which is the only field written; `assistant_answer` keeps its value |
| Chain.FilterAndSanitize | app/ai/agent.py:77 | the sanitising node writes only `cleaned_question` |
| Chain.CreateFinalReport | app/ai/agent.py:78 | the report node writes the report text to `answer` and its dictionary to `final_report`, and nothing else |
| Chain.FormatAnswer | app/rag/chain.py:81-89 | `answer` becomes the formatted text and the transcript gains exactly one AI message with that same text |
| Agent.PathMapsFollowNames | app/ai/agent.py:84-99 | each key of the two path maps leads to the node registered under that key |
| Agent.RouteAfterQuestionAssessment | app/ai/agent.py:17-40 | a verdict reading "sufficient" after lower-casing and trimming goes to retrieval with `retries` set to 0; any other verdict goes to retrieval with `retries` set to 0 once the budget is spent, else to clarification with `retries` raised by one |
| Agent.RouteAfterQualityAssessment | app/ai/agent.py:42-61 | a verdict equal to "sufficient" after lower-casing only goes to drafting, and so does any verdict once the budget is spent, neither writing `retries`; otherwise retrieval runs again with `retries` raised by one |
| Agent.QuestionGateClarifiesIff | app/ai/agent.py:23-40 | the question gate asks for clarification if and only if the trimmed verdict does not spell "sufficient" in any case and `retries` is below the budget |
| Agent.QualityGateDoesNotTrim | app/ai/agent.py:23-61 | the verdict " sufficient" (leading space) sends the quality gate back to retrieval with `retries` 1 while the question gate reads the same text as sufficient |
| Agent.GraphShape | app/ai/agent.py:81-108 | the successor sets of all seven nodes: the run ends only after clarification or the report, and every edge except quality-gate-to-retrieval goes strictly forward in rank |
| Agent.CycleUsesBackEdge | app/ai/agent.py:92-99 | every cycle of the graph passes through the edge from the quality gate back to retrieval |
| Agent.RetrievalLoopIsCycle | app/ai/agent.py:92-99 | retrieval, quality assessment, retrieval is a path of the graph |
| Agent.PathTo | app/ai/agent.py:72-108 | every node is reachable by a path from the entry point |
| Engine.Run | app/main.py:53-56 | a run streams no more visits than it has fuel and replies, its first visit is at the node it starts from, and a finished run streamed at least one visit; an aborted run in which nothing returned names the start node |
| Engine.AbortedWhereInvocationFailed | app/main.py:53-56 | at the node an aborted run names, either the replies ran out or the invocation failed on the state the previous invocation handed on |
| Engine.AbortedAtLastTarget | app/main.py:53-56 | an aborted run with at least one visit stopped at the node that its last returning invocation led to |
| Engine.FuelIrrelevant | app/main.py:53-56 | a run that finishes or aborts within some fuel has the same outcome with more fuel |
| Engine.RunFollowsGraph | app/ai/agent.py:81-108 | under a transition that only takes edges of the graph, each streamed node is a successor of the one before it, and a finished run ends at clarification or at the report |
| Engine.TranscriptGrows | app/ai/state.py:29 | under a transition that never shortens the transcript, every streamed transcript extends the previous one |
| Engine.BoundedRun | app/ai/agent.py:32-61 | under a transition that shrinks the budget at every step, a run never takes more invocations than its budget, never runs out of fuel given that budget, and retrieves at most its retrieval budget of times |
| Engine.RetrievalEntryResets | app/ai/agent.py:25-35 | under a transition whose question gate hands over to retrieval only with `retries` at 0, every such hand-over in the stream carries 0 |
| Engine.TranscriptFrozen | app/ai/agent.py:89-108 | a run from a node past the question gate keeps its transcript in every streamed state and never visits the two nodes that extend it |
| Workflow.InvokeWrites | app/rag/chain.py:15-89 | a failed call yields no update, no node writes `question`, only clarification writes `retries`, and only question assessment and clarification extend the transcript |
| Workflow.Follow | app/ai/agent.py:84-108 | the next target is always a successor in the edge table; the state handed on differs from the merged state at most in `retries`, and not at all when router writes are not kept |
| Workflow.WorkflowRespectsGraph | app/ai/agent.py:64-114 | the compiled workflow takes only edges of the graph, never shortens the transcript, and past the question gate neither extends it nor returns to the nodes that do |
| Workflow.UncommittedRetriesFrozen | app/ai/agent.py:58-61 | without kept router writes, every invocation other than clarification hands `retries` on unchanged |
| Workflow.CommittedStepShrinksBudget | app/ai/agent.py:25-61 | with kept router writes, each invocation reaches a node with a strictly smaller step budget and no larger retrieval budget |
| Workflow.CommittedRunTerminates | app/ai/agent.py:14-108 | with kept router writes, every run from the entry stops within 8 invocations whatever the collaborators answer, retrieves at most twice, and enters retrieval from the question gate only with `retries` at 0 |
| Workflow.UncommittedLoopNeverEnds | app/ai/agent.py:55-61 | without kept router writes, retrieval followed by endless rejections exhausts any amount of fuel |
| Workflow.SufficientGoesToRetrieval | app/ai/agent.py:25-29 | a "sufficient" question verdict moves on to retrieval with `retries` untouched when router writes are not kept |
| Workflow.UncommittedRunDiverges | app/ai/agent.py:42-99 | without kept router writes, a run from the entry with a sufficient question and endless rejections never finishes, whatever the fuel |
| Runner.Initial | app/main.py:36-46 | the initial state holds the question and every other field empty or zero |
| Runner.Streamed | app/main.py:53-56 | the stream yields the input state and then the state after each invocation, in order |
| Runner.LastStreamed | app/main.py:52-56 | the variable left after the loop is empty exactly when nothing was streamed, else the last streamed state |
| Runner.SelectResult | app/main.py:60-71 | the text handed back is the answer when it carries the report marker, else the last message's content, else a fixed error text; another error text when nothing was streamed |
| Runner.RunAgent | app/main.py:26-71 | a collaborator failure surfaces as an error naming the node the run stopped at, an exhausted step budget as a step-limit error, and a finished run as the text selected from its last streamed state |
| Runner.FirstStep | app/main.py:36-46 | the first invocation from the initial state leaves the question alone in the transcript and goes to clarification or retrieval; towards retrieval `retries` is 0, towards clarification it is 1 with kept router writes and 0 otherwise |
| Runner.AskedForClarification | app/ai/agent.py:36-40 | from the initial state, a verdict that is not "sufficient" leads to clarification with `retries` at 1 if router writes are kept, else 0 |
| Runner.Clarified | app/rag/chain.py:31-44 | clarification ends the run with `retries` raised once more and the clarification appended |
| Runner.ClarificationExit | app/main.py:26-71 | a question judged insufficient finishes after exactly two invocations, with transcript [question, clarification], an empty answer and `retries` at 2 (kept writes) or 1 |
| Runner.ClarificationReturned | app/main.py:60-67 | for such a run the text handed back is the clarification itself |
| Runner.CompletedRunResult | app/main.py:60-67 | a run that finishes at the report still has the question as its only message |
| Runner.CompletedRunEchoes | app/main.py:60-67 | a completed run hands back its answer when the answer carries the report marker, and otherwise echoes the question |
| Runner.FinishedRunHasTranscript | app/main.py:66-67 | the last state of every finished run has at least one message, so the fixed "no answer" text is never returned for one |
| Runner.Turns | app/main.py:95-118 | each question sent is the history joined by newlines; after a non-final response and a non-exit reply the next question is the previous one plus the reply line and the response line; the loop stops at a final response or an exit command |
| Runner.Conversation | app/main.py:87-93 | nothing is asked when the first input is an exit command; otherwise the first question is that input behind the user prefix |
| Retriever.ConcatSnoc | app/rag/retriever.py:21-22 | merging one more store appends its entries after the others |
| Retriever.CeilingDivision | app/rag/retriever.py:16 | the number of batches is the least count whose batches cover the input |
| Retriever.Partition | app/rag/retriever.py:15-19 | the batches, concatenated, give back the input; there are ceil(n / size) of them; each is the slice starting at its multiple of the size, non-empty and at most the size, and all but the last are full |
| Retriever.MergeStores | app/rag/retriever.py:20-23 | no stores fail the way indexing an empty list does; otherwise the result holds every store's entries in order |
| Retriever.BatchBuild | app/rag/retriever.py:13-23 | batch size zero fails like `range` with step 0; a negative size or empty input fails for lack of stores; otherwise the merged index holds exactly the input, in order |

## Left out

- The language model, the retriever, the embeddings and FAISS are not modelled. Each call
  is replaced by a reply taken from a scripted sequence. A missing, failed or wrongly
  shaped reply aborts the run, as the exception would.
- Printing, `input()` and `.env` loading are left out. The interactive loop is modelled
  over a finite script of exchanges.
- The graph library's own recursion limit is modelled as the `fuel` parameter of the run.
  `Runner.RunAgent` reports exhaustion as an error instead of raising.
- The library's handling of a router's write to the state is not visible in the code, so
  it is the `commit` parameter rather than a single behaviour.
- Text.Lower: lower-cases ASCII letters only. No other character's lower-case form is a
  letter of "sufficient", "exit" or "quit", so the comparisons the code makes come out the
  same.
- Chain.CreateFinalReport: the report dictionary is modelled as a map from strings to
  strings, because its value types are not visible.
- Chain.FilterAndSanitize: this node and the report node are defined nowhere in the
  repository. Their contracts are the assumption stated above, not behaviour taken from
  code.
- Chain.FormatAnswer: modelled, but not wired into the workflow, as in the code.
- `get_retriever`, PDF loading and text splitting (app/rag/retriever.py:25-66) are not
  part of this model. `batch_faiss_build` is modelled with the index as the sequence of
  documents it holds.
- Runner.Streamed: assumes the stream in "values" mode yields the input state first and
  then the full state after each node, as the library documents. That ordering is not
  visible in this code.
