# Verification of the LogiStream tutoring system

LogiStream makes a student describe an algorithm in words before it unlocks the code editor.
A Python orchestrator steps each session through a graph of nine nodes, a deterministic
verifier stands between the language model and the student, a Java service runs submitted
code in a sandbox, and a redaction layer keeps hidden tests hidden. This project models the
logic of these parts in Dafny and proves what the product claims about them.

`dafny verify dfyconfig.toml` checks everything.

| file | subject |
|---|---|
| Text.dfy | ASCII text: white space, words, lines, decimals |
| Verifier.dfy | the checks on tutor drafts, and the canned replies |
| Patterns.dfy | what the patterns of these checks match, by positions |
| Redaction.dfy | what the browser and the tutor may see of an execution |
| Keys.dfy | the normal form, the cache key and the thread key |
| Llm.dfy | the two ways of calling the language model |
| Session.dfy | the session state, its nodes and the graph |
| SessionSafety.dfy | what every run keeps: gates, budget, path, vetted text |
| Transcript.dfy | the transcript determines the session |
| Turns.dfy | every turn ends |
| HiddenData.dfy, HiddenHistories.dfy | the two-run property of hidden data, for a session and for the whole system |
| SeedRubric.dfy | the rubric the seed ships passes its own checks |
| VerdictCache.dfy | the shared table and the interleaved system: where every row and every hit comes from |
| Histories.dfy | every session of a history is a run; the cache decides no verdict |
| Cacheless.dfy | a history against its twin without cache reads, and exactly when they go together |
| Summaries.dfy | what a summary hit serves, and exactly when that is the student's own summary |
| CachedTurns.dfy | whole turns over the table against a reference |
| Nodes.dfy | the nodes statement by statement, over the cache object |
| Orchestrator.dfy | the API over the stored sessions and the table, with its history |
| Verdict.dfy, Execution.dfy | the bucket cascade, the poll loop, the one retry |
| EndToEnd.dfy | session and execution service together |
| TwoSum.dfy, Seed.dfy | the reference programs, the pair counter, the test generator, SQL quoting |
| Json.dfy | the JSON between seed, sandbox and harness, written and read back |
| OAuth.dfy | the single-use login states |

**How a session is modelled.** A checkpoint is the node to run next and the session state. An
input is a student event or a turn for the pending node. Each turn brings its own `World`: a
record of functions saying how the problem store, the three model calls, the two parsers, the
sandbox and the cache would answer just then. A theorem over all runs is therefore a theorem
over all answers, all failures and all their changes of mind. A node that raises leaves the
checkpoint as it was; an event that reaches a session whose node has not finished only retries
that node. Both follow the checkpointing library, which commits after each node. In a single
run the cache is part of the world; in a history of the whole system the world's cache reads go
to the shared table, and the API's object records the history it has gone through.

**Where the code and its documentation part.**

- `_longest_code_run` limits each run of code lines, not the draft, and an opening fence does
  not reset the counter (`Verifier.SegmentsNotDrafts`).
- The comment on the block pattern calls "for each number:" fine prose, but the pattern matches it
  (`LinePatterns.EachNumberIsCode`).
- "Worst wins, in the table's order" holds with one exception: the infrastructure verdict for
  an unmapped status ranks just above a match (`VerdictMapper.CascadeIsMaximum`).
- The request count said to be returned with the results is complete only if the last batch
  did not throw (`ExecutionService.CountIsCompleteIff`).
- A cached verdict can answer where the evaluator would have raised, so a session can get on
  where without the cache it would have stopped (`Cacheless.RescueHappens`).
- The summary is said to depend only on the accepted text, but its prompt also shows the earlier
  attempts, so a hit can serve the summary of another student's attempts
  (`Summaries.BorrowedSummary`). It serves the student's own exactly when the summarizer answers
  both prompts alike (`Summaries.HitCoversIff`), which is sure exactly when text and earlier
  attempts are equal (`Summaries.SafeForEveryWriterIff`).
- An event is validated by phase alone, so after a node raised the next text is accepted and
  lost: it only retries the unfinished node (`OrchestratorApi.EventJoinsIff`).
- The assertion against using an element twice compares indices, so a negative index passes it
  (`SeedGenerator.NegativeIndexSlipsThrough`, `SeedGenerator.AddedTestIsAnswered`).
- The assertion in `dollar_quote` is not enough for the value to be read back
  (`SeedGenerator.QuotedReadsBack`, `SeedGenerator.CutShort`).
- A colon in a user or problem id can make joined keys ambiguous (`Keys.ThreadKeyUniqueIff`,
  `Keys.CollideIff`).

## Model

| member | source | states |
|---|---|---|
| SessionSafety.StepIsMove | orchestrator/app/graph.py:34-87 | Every step of the session, whatever the model, the sandbox and the cache answer or fail to answer, is one of a small closed set of moves: nothing happens, an event is taken up while waiting, or the node whose turn it is returns one of its own updates. |
| SessionSafety.UpdatesAreLegal | orchestrator/app/nodes/logic_tutor.py:18-99 | No service answer makes a node return another node's update; a draft is never empty, a refused draft has a reason, and it is refused while regenerations remain and given up on exactly when they do not. |
| SessionSafety.RunsAreGated | orchestrator/app/graph.py:47-87 | In every run from a new session, for any events, validated or not: code nodes run only in CODE, logic nodes only in LOGIC; CODE and DONE imply a PASS or FLAGGED evaluation and an accepted text; DONE (and only DONE) is the end of the graph and implies an ACCEPTED execution. |
| SessionSafety.StepKeepsGates | orchestrator/app/graph.py:47-87 | One arbitrary step keeps all of those gates, never lowers the phase and only appends to the transcript. |
| SessionSafety.UnlocksIff | orchestrator/app/nodes/evaluate_logic.py:84-108 | A freshly evaluated text leads to the editor iff the evaluator passed it or it is novel, without a violated invariant and below the confidence threshold, and the verdict it then holds is FLAGGED for the latter and the evaluator's own otherwise; every other text goes to the tutor; the attempt is charged either way. |
| SessionSafety.RunsMoveForward | orchestrator/app/state.py:46-47 | Along every run the phase never goes back and the transcript of an earlier moment is a prefix of every later one. |
| SessionSafety.AllowedEventIsRouted | orchestrator/app/main.py:172-195 | An event that passes validation always reaches a node that answers it, so the unroutable self-loop is never taken, and exactly the student's message of the right kind is appended. |
| SessionSafety.EventRuling | orchestrator/app/main.py:172-195 | Unprocessable iff every character of the text is white space; allowed iff some is not and the event is a chat before the end, a logic text in LOGIC or a code in CODE; a conflict otherwise, DONE included. For a waiting session, allowed iff the text says something and the graph routes the event away from await_input. |
| SessionSafety.ValidatedRuns | orchestrator/app/main.py:172-195 | In every validated run the status agrees with the phase, each node runs for the event type it is meant for, and the text under evaluation and the accepted text are never empty. |
| SessionSafety.RunsStayInBudget | orchestrator/app/nodes/logic_tutor.py:57-104 | For every MAX_REGENERATIONS, negative ones included: drafts made this turn = regenerations + (0 if the fallback was used, else 1) <= max(limit, 0) + 1; the fallback is used iff regenerations exceed max(limit, 0); at least one rejection per regeneration; no draft is pending outside the drafting loop. |
| SessionSafety.RulingKeepsBudget | orchestrator/app/nodes/code_tutor.py:53-94 | Clearing, refusing or giving up on a draft keeps the drafting budget in either phase. |
| SessionSafety.PromptTells | orchestrator/app/nodes/logic_tutor.py:18-54 | In every run, the prompt of a draft shows the last 10 (LOGIC) or 8 (CODE) messages in order, the diagnosis with its counter or the code with its verdict, redacted results and accepted logic; and it names refusals iff an earlier draft of this turn was refused, then the last three reasons. |
| SessionSafety.NodePathIsWalked | orchestrator/app/nodes/await_input.py:35-39 | The node path shown in the debug panel is exactly the nodes that ran to completion since the last event was taken up, in order, and every two neighbours on it are joined by an edge of the graph. |
| SessionSafety.EdgesAreRoutes | orchestrator/app/graph.py:55-87 | The declared edges are exactly the routes the graph takes from some state. |
| SessionSafety.StepExtendsPath | orchestrator/app/graph.py:47-87 | A step either leaves the session as it was, restarts the path at await_input, or appends the node that ran; and it goes on along a declared edge. |
| SessionSafety.OnlyVettedTextIsDelivered | orchestrator/app/nodes/logic_tutor.py:57-99 | Every tutor message of every run was appended by a verifier step of the phase the session was in, and its text passed that phase's check under the rubric then in force or is that phase's canned fallback. |
| SessionSafety.TutorMessageIsVetted | orchestrator/app/nodes/code_tutor.py:53-94 | A step appends at most one message, and a tutor message only from a verifier node, with text that node vetted. |
| SessionSafety.FallbackPasses | orchestrator/app/verifier.py:215-243 | If the rubric forbids no word of the generic logic reply and its counters pass, the canned reply for any diagnosis passes the check of the phase that delivers it; the code reply needs no assumption. |
| SeedRubric.SeedRubricIsSelfConsistent | db/seed/generate_two_sum.py:63-125 | The rubric the seed ships is one (the tests at orchestrator/tests/test_verifier.py:232-246 look at the same texts): each of its four counters passes its logic check, and it forbids no word of the generic reply. |
| SeedRubric.MildPasses | orchestrator/app/verifier.py:139-182 | Every text without the code characters and without the letter pairs its forbidden terms have passes that rubric's logic check up to 239 characters. |
| SessionSafety.EveryTutorMessagePasses | orchestrator/app/nodes/logic_tutor.py:57-99 | Under such a rubric every tutor message of every run passes the check of the phase it was delivered in, the canned replies included. |
| SessionSafety.TutorNeverGivesItAway | orchestrator/app/verifier.py:139-212 | Hence, in every run: what the tutor says in LOGIC shows no code, has at most 120 words and names no rubric term, as a token or otherwise; what it says in CODE has at most 160 words, does not define the entrypoint and, however the text is cut into lines, has no segment with more than three lines of code: not four code lines in a row anywhere, nor four non-blank lines from the opening of its first fence on. |
| SessionSafety.ProblemIsFixed | orchestrator/app/state.py:50-71 | The problem, the user and the thread of a session never change. |
| Transcript.RunsAreTold | orchestrator/app/state.py:46-71 | In every validated run, at every node boundary, a fold over the messages alone recovers the phase, both counters and what the session is in the middle of. |
| Transcript.FoldCounts | orchestrator/app/nodes/execute_code.py:22-57 | The fold agrees with counting by hand: logic and code messages, infrastructure notices, one unlock notice iff past LOGIC, one success notice iff DONE. |
| Transcript.TranscriptTellsTheSession | orchestrator/app/nodes/summarize_logic.py:53-101 | Whenever a validated session waits: student logic messages = attempts.logic; student code messages = attempts.code + infrastructure notices, so a sandbox failure is never charged; the editor was unlocked once iff the phase is past LOGIC. |
| Transcript.SameTranscriptSameStanding | orchestrator/app/view.py:38-63 | Two waiting sessions with equal transcripts have equal phase, attempts and next node, whatever their configuration and services. |
| Transcript.TranscriptIsTurns | orchestrator/app/nodes/await_input.py:47-57 | A waiting session's transcript is a sequence of turns of exactly these forms: a logic or chat message and one hint; a logic message and the unlock notice; a code message and the infrastructure notice; a code message, an ACCEPTED result and the success notice; a code message, another result and one hint. |
| Transcript.TutorSpeaksOnce | orchestrator/app/nodes/logic_tutor.py:57-104 | In a turn the tutor speaks at most once, and last, and not at all exactly when the turn unlocks, succeeds or meets a sandbox failure. |
| Transcript.TutorKeepsTheSecret | orchestrator/app/verifier.py:139-212 | A statement about the transcript alone: until the unlock notice no tutor message shows code, names a rubric term or runs over 120 words; after it none defines the entrypoint, runs over 160 words, holds four code lines in a row or opens a fence on four non-blank lines. |
| TurnEnds.UpdateLowersRank | orchestrator/app/graph.py:61-87 | Every node lowers a measure that is 0 only at a wait: no invocation of the graph can run forever, whatever the drafts. |
| TurnEnds.DriveIsRun | orchestrator/app/main.py:138-138 | One invocation of the graph is a run of single committed nodes, no longer than that measure. |
| TurnEnds.AnsweredTurnEnds | orchestrator/app/nodes/logic_tutor.py:102-104 | As long as the services answer, the turn runs on to the next wait and stops nowhere else. |
| TurnEnds.TurnIsShort | orchestrator/app/graph.py:47-87 | A turn runs at most 2 * max(MAX_REGENERATIONS, 0) + 5 nodes after the event is taken up. |
| OrchestratorApi.HandlingIsARun | orchestrator/app/main.py:124-139 | Handling an allowed event extends a validated run to a longer validated run, also when a node raises half way. |
| OrchestratorApi.WholeTurn | orchestrator/app/nodes/await_input.py:47-57 | If the services answer, one allowed event ends in a waiting or finished session whose transcript grew by exactly one turn of those forms, beginning with this event; so a turn of the tutor ends with exactly one tutor message. |
| OrchestratorApi.PostIsWholeTurn | orchestrator/app/main.py:124-139 | The same for a waiting session of any allowed history, over the shared table however it answers. |
| OrchestratorApi.EventJoinsIff | orchestrator/app/main.py:133-139 | An allowed event joins the transcript iff the session waited for it; otherwise nothing the student said is added, although the reply may be a view. |
| OrchestratorApi.WorkStep | orchestrator/app/graph.py:34-87 | One node's action leaves every other session alone, changes its own by the node's committed update or not at all, and the table by at most the one row the node stores. |
| OrchestratorApi.Orchestrator.StoredIsReachable | orchestrator/app/main.py:100-147 | Every session in the store of a valid orchestrator is what a validated run of its own thread leaves. |
| OrchestratorApi.Orchestrator.Start | orchestrator/app/main.py:100-121 | Starting a known thread changes nothing and shows it; an unknown one gets a new session, for the demo user when no user is named; other threads and the table are untouched; the state stays one that the recorded history reaches. |
| OrchestratorApi.Orchestrator.HandlePost | orchestrator/app/main.py:124-139 | Unknown thread and refused event change nothing: 422 iff the text is white space only, 409 iff it says something but does not belong to the phase. Every other event adds itself and the nodes it ran to the history, changes only its own thread, as one turn over the table as it then is, and is answered with the stored view, or a server error iff a node raised; the state stays one that an allowed history reaches. |
| OrchestratorApi.Orchestrator.Invoke | orchestrator/app/main.py:138-138 | The loop commits node after node, each one action of the history, leaves exactly the state the drive describes, and reports a raise iff the session does not wait. |
| OrchestratorApi.Orchestrator.RunPending | orchestrator/app/graph.py:34-87 | Running one node through the real handlers and the real table is exactly one action of the interleaved system, so what is proved of all histories holds of this server. |
| OrchestratorApi.Orchestrator.RunNode | orchestrator/app/graph.py:37-45 | Dispatching on the node to run leaves the state of the graph's step for that node and at most the one row it stores. |
| OrchestratorApi.Orchestrator.Hear | orchestrator/app/nodes/await_input.py:25-81 | An event is taken up by a waiting session only, and changes no other session and no row. |
| OrchestratorApi.Orchestrator.Reset | orchestrator/app/main.py:142-147 | Only this thread is forgotten; the table and all other threads stay. |
| OrchestratorApi.Orchestrator.GetSession | orchestrator/app/main.py:150-156 | Reading shows the stored state or reports that there is none, and changes nothing. |
| Nodes.AwaitEvent | orchestrator/app/nodes/await_input.py:25-59 | Taking up an event clears draft, regenerations, rejections and path whatever the last turn left, says what the student said under the right kind, and touches neither phase, attempts, evaluation, accepted text nor execution. |
| Nodes.EvaluateText | orchestrator/app/nodes/evaluate_logic.py:28-81 | With the real cache object: a readable row is served with its hit marked and nothing written; otherwise the evaluator's reply gives the verdict of the flag rule and the other fields, and is the first write of its key; a missing context or reply raises and writes nothing; of the session only the evaluation, the logic count and the path change. |
| Nodes.WriteSummary | orchestrator/app/nodes/summarize_logic.py:29-92 | The step-by-step summary never fails: a readable row as it is, else the summarizer's reply with a missing final text patched by the student's, else the student's own words; only a fresh one is stored, once, under the summary key. |
| Nodes.Summarize | orchestrator/app/nodes/summarize_logic.py:74-101 | The state left is the graph's LOGIC to CODE step and the table changes by at most that one row. |
| Nodes.CollectAttempts | orchestrator/app/nodes/summarize_logic.py:32-35 | The summarizer is shown exactly the student's logic texts that differ from the accepted one. |
| Nodes.EarlierInOrder | orchestrator/app/nodes/summarize_logic.py:32-35 | They are shown in the order of the transcript and as often as they were made. |
| Nodes.Rule | orchestrator/app/nodes/logic_tutor.py:67-99 | Something is said iff nothing was found or no try is left: then one hint, the draft or the fallback, and no draft remains; otherwise the draft survives and nothing is said. Each finding is recorded and each rejection counted. |
| Nodes.VerifyDraft | orchestrator/app/nodes/code_tutor.py:53-94 | Whatever a verifier node says is vetted by the check of its phase; it raises iff the problem context cannot be had. |
| Nodes.RunCode | orchestrator/app/nodes/execute_code.py:15-59 | The attempt is charged iff the recorded bucket is not INFRA_ERROR; one message is added, the infrastructure notice in that case and the result otherwise; an unreachable service is recorded as INFRA_ERROR over 0 of 0 tests; phase, code and accepted text stay. |
| Nodes.OnlyTwoRead | orchestrator/app/cache.py:53-80 | No node but the evaluator and the summarizer reads the shared table or stores a row. |
| EndToEnd.AcceptedCodeWasRun | orchestrator/app/nodes/execute_code.py:62-69 | The code a finished session holds is code the run sent to the domain service, at a step that stood at execute_code with that code, and the result it shows is the ACCEPTED answer of that call. |
| EndToEnd.DoneMeansAllPassed | orchestrator/app/nodes/finish.py:11-29 | When every answer comes from an honest sandbox batch, a DONE session holds code that was sent, finished normally and printed the expected output on every test of the problem, with passed == total > 0, however often the sandbox failed on the way. This is the sentence the success message says. |
| EndToEnd.DoneMeansItPrints | domain/src/main/java/com/logistream/domain/exec/ExecutionService.java:42-110 | Over a sandbox that runs what it is given, the code of a DONE session, followed by the harness, finishes normally and prints the expected text on the input of each test, whatever happened on the way. |
| EndToEnd.DoneMeansSolved | db/seed/generate_two_sum.py:57-61 | Hence the function in that code returns, for each test the generator stored, the two stated indices, in either order. |
| EndToEnd.ServiceServes | domain/src/main/java/com/logistream/domain/exec/ExecutionService.java:42-110 | Over the hosted sandbox, for all its behaviours, every answer comes from an honest batch. |
| Redaction.StripForView | orchestrator/app/redact.py:30-65 | The loop keeps one row per test in order with its own index, label, outcome, status, time and excerpt, under the verdict and counts of the execution; a public test keeps its data, a hidden one has no input, expected output or printed output. |
| Redaction.DescribeTest | orchestrator/app/redact.py:86-100 | A hidden test gets at most two lines: its outcome and the student's own error. |
| Redaction.SummarizeForTutor | orchestrator/app/redact.py:68-102 | The text the tutor gets is the same for every execution that differs only in hidden tests' data, the retry flag and transport errors. |
| Redaction.SummaryTells | orchestrator/app/redact.py:79-102 | The tutor is told the verdict, the count, of every test whether it passed and its status, the student's own error if there is one, and of every public test its input, expected and actual output. |
| Redaction.ExcerptIs | orchestrator/app/redact.py:23-27 | An excerpt is the stripped text, cut at the limit with a mark iff it is longer, and empty iff the text is blank. |
| Redaction.ErasedAlikeIff | orchestrator/app/redact.py:30-102 | What counts as hidden, exactly: two executions have the same erased form iff they agree on everything but hidden tests' input, expected and actual output, the retry flag and the transport error. |
| Redaction.ConsumersSeeErasedOnly | orchestrator/app/redact.py:30-102 | Neither the browser nor the tutor can tell an execution from the same one with hidden tests' data, the retry flag and transport errors blanked. |
| Redaction.ViewTellsTheRest | orchestrator/app/redact.py:41-65 | Nothing more is hidden than that: equal views mean equal executions outside the erased fields, status ids and long error output. |
| HiddenData.TwinUpdates | orchestrator/app/graph.py:37-45 | From twin sessions in twin worlds every node returns the same update, up to what is hidden in an execution result, and raises in one iff it raises in the other. |
| HiddenData.AnswersAlikeIff | orchestrator/app/redact.py:30-102 | Twin worlds may differ in exactly that: two service answers are twins iff both are unreachable or their executions agree outside hidden test data, the retry flag and the transport error. |
| HiddenData.TwinPrompts | orchestrator/app/nodes/code_tutor.py:14-50 | Twin sessions send the tutor the same prompt. |
| HiddenData.RunsStayTwins | orchestrator/app/redact.py:30-102 | Two runs with the same events whose sandbox answers differ only in hidden data, and whose evaluator replies differ only in the private rationale, stay twins for ever. |
| HiddenData.HiddenDataNeverShows | orchestrator/app/view.py:32-63 | After any two such runs the session view, the transcript, the node to run next and any tutor prompt it would send are equal: hidden test data influences nothing anyone sees, through the models included. |
| Session.ViewShows | orchestrator/app/view.py:38-63 | Two sessions have the same view iff they agree on every field it shows, the execution up to redaction; each field of the view is the session's own. |
| HiddenHistories.HistoriesStayTwins | orchestrator/app/cache.py:53-80 | The same for whole histories of interleaved sessions: the shared tables stay equal row by row, and every session stays a twin. |
| HiddenHistories.HiddenDataNeverLeaks | orchestrator/app/view.py:32-63 | So hidden data does not reach another session through the shared table either: views, transcripts, next nodes and prompts of all sessions are equal. |
| VerdictCache.Cache.Put | orchestrator/app/cache.py:66-80 | A write adds a missing row when the database answers, and never changes or removes a row. |
| VerdictCache.Cache.Get | orchestrator/app/cache.py:53-63 | A read gives the stored row or, when the row is missing or the database fails, nothing; it never fails. |
| VerdictCache.RowsNeverChange | orchestrator/app/cache.py:66-80 | In every interleaving of sessions and failures a stored row keeps its first value for ever. |
| VerdictCache.EveryRowWasComputed | orchestrator/app/nodes/evaluate_logic.py:42-78 | Every row was computed afresh by one earlier action; nothing read from the table is ever stored again. |
| VerdictCache.VerdictHitHasOrigin | orchestrator/app/cache.py:42-50 | A row under a verdict key is a verdict, computed by an earlier evaluation for the same problem and rubric version on a text with the same lowercased words; a summary is never served as a verdict. |
| VerdictCache.TableReadsAreSound | orchestrator/app/nodes/evaluate_logic.py:39-45 | If the evaluator depends only on problem, version and normal form, then after any history whatever the table returns is what the evaluator would say. |
| VerdictCache.SummaryHitHasOrigin | orchestrator/app/nodes/summarize_logic.py:38-64 | A row under a summary key is a summary, freshly written for the same problem and version on a text with the same words; a verdict is never served as a summary. |
| Histories.SessionIsRun | orchestrator/app/state.py:20-47 | However sessions, failures and the shared table interleave, each session is a run of its own from a new state over what it met; a validated one if every event was allowed. |
| Histories.EverySessionKeeps | orchestrator/app/graph.py:47-87 | So gates and drafting budget hold of every session of every history, and in histories of allowed events so does what the transcript tells. |
| Histories.VerdictsAreExaminers | orchestrator/app/nodes/evaluate_logic.py:39-81 | Over all interleavings and all failures of reads, writes, models and sandboxes: the verdict a session holds is what the evaluator gives to problem, version and normal form at that session's own last evaluation, hit or not; no later action evaluated it and it was not dropped since. |
| Histories.GradeIsOfTheText | orchestrator/app/nodes/evaluate_logic.py:39-81 | In every history of allowed events, outside the evaluator node, the evaluation a session holds is the evaluator's of the very text it holds. |
| Histories.PastLogicIsPassing | orchestrator/app/nodes/evaluate_logic.py:106-108 | The gate, by the evaluator and not by a stored field: a session past LOGIC holds a text the evaluator passes or flags, and an accepted text. |
| Summaries.InvisibleIffPromptsAgree | orchestrator/app/cache.py:53-80 | For every history, with a summarizer that answers each prompt in one way: all sessions go through the same states as in the twin history in which no cache read succeeds, hit marks aside, if and only if every verdict hit stands for an evaluation that would have been answered, and every summary hit was written from a prompt the summarizer answers as it would answer the session's own. |
| Cacheless.VerdictsNeedNoCache | orchestrator/app/nodes/evaluate_logic.py:39-81 | For every history: all verdicts, all moves in LOGIC and the unlocking are the same as in that twin if and only if no verdict hit replaces an evaluation that would have failed. |
| Cacheless.RescueHappens | orchestrator/app/nodes/evaluate_logic.py:42-47 | The condition is needed: a concrete history of two sessions in which a hit carries the second on while its evaluator is down. |
| Summaries.HitCoversIff | orchestrator/app/nodes/summarize_logic.py:32-77 | A summary hit has a session that wrote it, from a text with the same words; it serves the student's own summary iff the summarizer says to that session's prompt, text and earlier attempts included, what it says to this one's, or, if it fails, iff that is the student's own words. |
| Summaries.SafeForEveryWriterIff | orchestrator/app/nodes/summarize_logic.py:32-77 | Two sessions get the same summary from every summarizer iff they hold the same text and the same earlier attempts. |
| Summaries.BorrowedSummary | orchestrator/app/nodes/summarize_logic.py:38-41 | A concrete history: a student who passed at once is served the summary of another student's mistake. |
| CachedTurns.TurnIsReference | orchestrator/app/nodes/evaluate_logic.py:28-81 | Over the table any history has left, one turn changes phase, verdict and next node as a reference that only asks the evaluator and reads the bucket, or stops short of it at the call that raised; if every call is answered it reaches the reference. |
| CachedTurns.PlaysStayLevel | orchestrator/app/cache.py:1-80 | Two answered plays of the same events, with the table or without, go through the same phases, verdicts and waits to the end, whatever the tutors and summaries say. |
| Llm.Complete | orchestrator/app/llm.py:97-101 | A reply is the stripped text of the model's answer, and there is one iff the call succeeded with some character that is not white space. |
| Llm.CompleteJson | orchestrator/app/llm.py:104-147 | One or two calls; a second iff the first reply came but could not be parsed; the result is what the reply to the last call reads as, an error if that fails, never a default. |
| Keys.NormalFormIsWords | orchestrator/app/cache.py:34-39 | The normal form is the lowercased words joined by single spaces. |
| Keys.SameNormalForm | orchestrator/app/cache.py:37-39 | Two texts normalise equally iff their lowercased word lists are equal. |
| Keys.NormalizeIdempotent | orchestrator/app/cache.py:37-39 | Normalising twice is normalising once. |
| Keys.CacheKeyDecodes | orchestrator/app/cache.py:42-50 | When neither problem id has a colon, two cache keys are equal iff kind, problem, version and lowercased words are. |
| Keys.CollideIff | orchestrator/app/cache.py:42-50 | Exactly which problem ids can share a key: those of which one is the other, a colon, an integer, and then nothing or a colon and the beginning of a normal form; so a colon is needed but not enough. |
| Keys.NormalIff | orchestrator/app/cache.py:34-39 | The normal forms are exactly the texts in lower case whose white space is single spaces inside: every result is one, and each of them is its own normal form. |
| Keys.ThreadKeyUniqueIff | gateway/src/main.rs:52-58 | No other pair of user and problem has this thread key iff neither part holds a colon. |
| Keys.ThreadKeyDecodes | gateway/src/main.rs:52-58 | Among users without a colon the thread key determines user and problem. |
| Verifier.LongestCodeRun | orchestrator/app/verifier.py:87-120 | However the text is cut into lines, the one-pass scanner returns the number of code lines of some segment, which no segment exceeds. |
| Text.LinesReadBack | orchestrator/app/verifier.py:97-97 | str.splitlines: lines, each with its break of whatever kind and the last perhaps without, are read back from their text. |
| Text.OneReading | orchestrator/app/verifier.py:97-97 | Every text is such lines in one way, the one the splitter finds. |
| LinePatterns.CodeIffPatternMatches | orchestrator/app/verifier.py:87-136 | Outside a fence a line counts as code iff it is no fence line and one of the six patterns matches, each stated by the positions of its parts: skipping white space greedily misses no match. |
| LinePatterns.ShowsCodeIff | orchestrator/app/verifier.py:153-172 | The logic check sees code in a text iff it holds a fence, a block, return or import pattern matches from the start of some line, or one of the other patterns matches anywhere. |
| LinePatterns.EachNumberIsCode | orchestrator/app/verifier.py:24-29 | The line the pattern's comment gives as fine prose counts as code. |
| Verifier.ScanIsLongestSegment | orchestrator/app/verifier.py:87-120 | The scanner's answer is the largest code-line count of any segment, and some segment has it; a segment ends at a closing fence or at a line outside a fence that is not code, not at an opening fence, and blank lines in a fence are neutral. |
| Verifier.AppendingNeverLowers | orchestrator/app/verifier.py:94-120 | Appending lines never lowers the longest run. |
| Verifier.SegmentsNotDrafts | orchestrator/app/verifier.py:97-118 | The limit is per segment and not per draft, and an opening fence joins what stands before it to what stands in it: two concrete texts. |
| Verifier.FindForbiddenTerms | orchestrator/app/verifier.py:70-84 | Exactly the non-blank terms that occur, ignoring case, between word boundaries are reported. |
| Verifier.FoundIffToken | orchestrator/app/verifier.py:70-84 | For a term of word characters: found iff it is, up to case, one of the maximal word tokens of the text. |
| Verifier.CheckLogicDraft | orchestrator/app/verifier.py:139-182 | No rejection is left iff the draft says something, shows no code, has at most 120 words and names no rubric term; a rejection that lists terms lists exactly the rubric terms the draft names. |
| Verifier.CheckCodeDraft | orchestrator/app/verifier.py:185-212 | No rejection is left iff the draft says something, does not define the entrypoint, has at most 160 words and, however cut into lines, no segment of more than three code lines; on its characters: more than three code lines joined by newlines anywhere, or more than three non-blank lines after its first opening fence, are refused; a rejection for length gives the code lines of some segment. |
| Verifier.LinesAreRefused | orchestrator/app/verifier.py:87-120 | A draft with more than three code lines in a row is refused wherever they stand and whatever fences are around them. |
| Verifier.BlockIsRefused | orchestrator/app/verifier.py:95-112 | A draft whose first fence opens on more than three non-blank lines is refused, whatever the lines are and whatever follows. |
| Verifier.LogicReasonsAreTrue | orchestrator/app/verifier.py:139-182 | Each reason a logic draft is refused for is true of it and each true one is given: the terms are exactly those named, the count is the number of words. |
| Verifier.CodeReasonsAreTrue | orchestrator/app/verifier.py:185-212 | The same of a code draft, with the length of the longest run and the number of words. |
| LinePatterns.DefinesIff | orchestrator/app/verifier.py:199-201 | The entrypoint counts as defined iff def stands in the text with no word character before it, then white space, then the name with no word character after it. |
| LinePatterns.NamesTermIff | orchestrator/app/verifier.py:71-84 | A term that begins and ends with a word character, spaces and all, is named iff it stands in the text up to case with no word character on either side. |
| Verifier.AcceptedLogicDraft | orchestrator/app/verifier.py:139-182 | A logic draft is accepted iff it is not blank, shows none of the code signs, has at most 120 words and names no rubric term; then no term of word characters is a token of it. |
| Verifier.AcceptedCodeDraft | orchestrator/app/verifier.py:185-212 | A code draft is accepted iff it is not blank, does not define the entrypoint, has at most 160 words and, however it is cut into lines, no segment of it has more than three lines of code. |
| Verifier.CounterIsListed | orchestrator/app/verifier.py:229-239 | The canned counter is a non-empty one the rubric lists for this misconception, and is missing only if the rubric lists none. |
| Verifier.FallbackIs | orchestrator/app/verifier.py:229-239 | The canned reply is the first non-empty counter listed for the diagnosed misconception, and the generic one when there is no diagnosis or no such counter. |
| Verifier.GenericLogicReply | orchestrator/app/verifier.py:219-221 | The generic logic reply passes the check of a rubric iff the rubric forbids no word of it. |
| Verifier.GenericCodeReply | orchestrator/app/verifier.py:223-226 | The generic code reply passes the check of every rubric. |
| VerdictMapper.CascadeIsMaximum | domain/src/main/java/com/logistream/domain/exec/BucketMapper.java:46-88 | For a non-empty batch that did not time out the cascade gives the label of the greatest per-test severity: matched < unmapped < wrong answer < TLE < runtime < compile < pending or sandbox failure. |
| VerdictMapper.WorstIsMaximum | domain/src/main/java/com/logistream/domain/exec/BucketMapper.java:46-88 | That severity bounds every test's and is one of them. |
| VerdictMapper.OnlyTheSetMatters | domain/src/main/java/com/logistream/domain/exec/BucketMapper.java:46-88 | Reordering or repeating tests does not change the bucket. |
| VerdictMapper.MoreTestsNeverImprove | domain/src/main/java/com/logistream/domain/exec/BucketMapper.java:46-88 | Adding tests never lowers the severity, and keeps ACCEPTED iff every added test passes. |
| VerdictMapper.AcceptedIff | domain/src/main/java/com/logistream/domain/exec/BucketMapper.java:82-85 | ACCEPTED iff there are tests, nothing timed out, and every test finished normally with matching output. |
| VerdictMapper.OneTest | domain/src/main/java/com/logistream/domain/exec/BucketMapper.java:46-88 | The table for one test, by status id. |
| VerdictMapper.Precedence | domain/src/main/java/com/logistream/domain/exec/BucketMapper.java:46-88 | A batch has the verdict that some test has alone, the first there is in the order: sandbox failure or pending, compile error, runtime error, time limit, wrong answer, unknown status; ACCEPTED if none has any of these. |
| VerdictMapper.SyntaxErrorIff | domain/src/main/java/com/logistream/domain/exec/BucketMapper.java:34-40 | A result counts as a syntax error iff its status is between 7 and 12 and stderr or the compile output names one: joining and trimming the two neither make nor hide it. |
| ExecutionService.Judge0Client.RunBatch | domain/src/main/java/com/logistream/domain/judge0/Judge0Client.java:85-113 | The batch submitted is the one given; the polls are the requests after the submission, each but the last showed something pending, a batch that timed out made all max(maxPolls, 0) of them, one that did not returns what the last one showed, and only a failed or interrupted request throws; every request sent is counted. |
| ExecutionService.BatchIsTold | domain/src/main/java/com/logistream/domain/judge0/Judge0Client.java:85-162 | That description fits exactly one outcome and request count, that of the poll specification, for every behaviour of the service. |
| ExecutionService.PollsAreHonest | domain/src/main/java/com/logistream/domain/judge0/Judge0Client.java:94-105 | A poll loop that timed out shows a pending result or none at all, one that did not shows none pending, and it reports as many requests as it sent. |
| ExecutionService.BatchesAreHonest | domain/src/main/java/com/logistream/domain/judge0/Judge0Client.java:85-162 | Every batch sends between 1 and 1 + max(maxPolls, 0) requests and meets the sandbox contract. |
| ExecutionService.Execute | domain/src/main/java/com/logistream/domain/exec/ExecutionService.java:42-110 | Every batch it submits has one submission for each test in order, the student's code, a blank line and the harness as its program and the test's own input as its input; it starts at most two batches, two iff the answer says the retry was used; answer, reported count and requests sent are the specified ones; no tests means an exception, no batch and no request. |
| ExecutionService.AcceptedIffRunPrints | domain/src/main/java/com/logistream/domain/exec/ExecutionService.java:51-103 | Over a sandbox that shows for each program it is sent pending, its own failure, or the result of running it on its input: ACCEPTED iff the batch that counts came back whole and the student's program prints the expected text on every test's own input. |
| ExecutionService.DeliveredVerdict | domain/src/main/java/com/logistream/domain/exec/ExecutionService.java:51-103 | If it delivers within the poll limit without a failure of its own, ACCEPTED iff the program prints the expected text on every test's own input, after one batch, however many polls showed something pending. |
| ExecutionService.AnswerIsWorst | domain/src/main/java/com/logistream/domain/exec/ExecutionService.java:78-109 | The verdict is that of the worst test when there is a result for each and no timeout, and INFRA_ERROR otherwise; passed is the number of tests marked passed. |
| ExecutionService.Assess | domain/src/main/java/com/logistream/domain/exec/ExecutionService.java:78-109 | The scoring loop gives the answer for the outcome, result by result in test order, and an infrastructure answer when the counts differ. |
| ExecutionService.MatchedIffAccepted | domain/src/main/java/com/logistream/domain/exec/ExecutionService.java:91-103 | The mapper says ACCEPTED iff every test matched. |
| ExecutionService.AcceptedIffAllPassed | domain/src/main/java/com/logistream/domain/exec/ExecutionService.java:78-110 | From any honest outcome: ACCEPTED iff passed == total iff every test in the answer passed. |
| ExecutionService.AnswerKeepsTests | domain/src/main/java/com/logistream/domain/exec/ExecutionService.java:84-125 | Whatever the sandbox did, the answer has every test in order with its own index, visibility, input and expected output and, if there is one result for each, its status, time, output and error; a test is marked passed iff it finished normally and printed the expected text. |
| ExecutionService.ExecuteIsSound | domain/src/main/java/com/logistream/domain/exec/ExecutionService.java:42-110 | For every behaviour of the hosted service: ACCEPTED iff passed == total, total > 0, one or two batches, two iff the retry is marked, and at most 2 * (1 + max(maxPolls, 0)) requests, half of that without a retry. |
| ExecutionService.RetryIff | domain/src/main/java/com/logistream/domain/exec/ExecutionService.java:64-76 | The retry is marked used iff a second batch was started, and one is iff the first came back with a sandbox failure; a first batch that threw is answered with INFRA_ERROR and never repeated. |
| ExecutionService.CountIsCompleteIff | domain/src/main/java/com/logistream/domain/exec/ExecutionService.java:56-76 | The logged request count equals the requests sent iff the last batch did not throw. |
| ExecutionService.FailedSubmissionIsNotCounted | domain/src/main/java/com/logistream/domain/exec/ExecutionService.java:73-76 | A concrete service whose first submission fails: one request sent, none reported. |
| TwoSum.SinglePass | demo/fixtures/code_correct.py:1-6 | Returns the least j that closes a pair, with the greatest i below it; nothing iff there is no pair. |
| TwoSum.NestedLoops | demo/fixtures/code_tle.py:1-5 | Returns the first pair in reading order; nothing iff there is no pair; and how many sums it tested. |
| TwoSum.AnswersAreFixed | demo/fixtures/code_correct.py:1-6 | Those descriptions leave one answer only. |
| TwoSum.TestsClosedForm | demo/fixtures/code_tle.py:2-5 | The sums tested before row i are i * (2n - 1 - i) / 2. |
| TwoSum.PairCountIsCardinality | db/seed/generate_two_sum.py:178-179 | The recursive count is the number of index pairs i < j that sum to the target. |
| TwoSum.ContributionCounts | db/seed/generate_two_sum.py:182-189 | What the loop adds for one value v is the number of pairs whose smaller value is v: c(c-1)/2 for a value paired with itself, the product for a mixed pair, counted once. |
| TwoSum.Tally | db/seed/generate_two_sum.py:180-180 | The counter holds every value with its number of occurrences, and lists each value once. |
| TwoSum.AddUp | db/seed/generate_two_sum.py:181-190 | In whatever order the counter is visited the total is the number of pairs. |
| TwoSum.CountPairs | db/seed/generate_two_sum.py:178-190 | The linear counter returns the size of the set of index pairs i < j that sum to the target, for every list and target. |
| TwoSum.CountOneIsUnique | db/seed/generate_two_sum.py:197-198 | A count of one means this pair and no other. |
| TwoSum.OnePairDecides | demo/fixtures/code_tle.py:1-5 | With one pair only, both programs find it, and the number of sums the slow one tests is known. |
| SeedGenerator.Shuffle | db/seed/generate_two_sum.py:158-161 | The in-place shuffle permutes: no value is lost or doubled. |
| SeedGenerator.BuildLargeTest | db/seed/generate_two_sum.py:145-175 | Succeeds iff 2 <= n <= 60001, for every shuffle, and then returns the test cut from some permutation of the pool. |
| SeedGenerator.LargeTestHasOnePair | db/seed/generate_two_sum.py:145-157 | For every permutation of the pool, positions (n - 2, n - 1) are the only pair that sums to the target. |
| SeedGenerator.LargeTestPasses | db/seed/generate_two_sum.py:196-201 | For every n and every permutation the large test passes all assertions of add. |
| SeedGenerator.LargeTestForcesFullScan | db/seed/generate_two_sum.py:153-157 | On it both programs answer (n - 2, n - 1), the nested loops after exactly n(n - 1)/2 sum tests. |
| SeedGenerator.TestList.Add | db/seed/generate_two_sum.py:196-209 | A test is appended iff no assertion fails: its input reads back as the list and the target, its expected output as the two stated indices, the lower one first; otherwise the list is unchanged and the first failing assertion is reported. |
| SeedGenerator.AcceptedIffOnlyPair | db/seed/generate_two_sum.py:180-202 | With indices from the front, a test is accepted iff they are, in either order, the only pair of the list; and the first assertion fails iff the list has not exactly one pair. |
| SeedGenerator.RefusalIsTrue | db/seed/generate_two_sum.py:196-202 | Each other refusal is true of the test, negative indices counted from the end: an index names no element, the elements do not sum to the target, or the indices are the same; and none of this holds of a test that is accepted. |
| SeedGenerator.PassesIff | db/seed/generate_two_sum.py:57-61 | Reading the stored input, running any program and printing its sorted answer gives the expected output, up to white space, iff the program returned the two stated indices in either order. |
| Json.ListReadsBack | db/seed/generate_two_sum.py:136-142 | A list of integers written as JSON is read back by a reader that evaluates digits and refuses leading zeros, whatever follows. |
| Json.DataReadsBack | db/seed/generate_two_sum.py:136-137 | So is the object that holds a test's list and target. |
| Json.NumeralIsDecimal | db/seed/generate_two_sum.py:136-142 | Every numeral is the written form of its value, so the written form is the only one. |
| SeedGenerator.ExpectedInjective | db/seed/generate_two_sum.py:140-142 | Two sorted index pairs have the same expected text iff they are equal. |
| SeedGenerator.AddedTestIsAnswered | db/seed/generate_two_sum.py:196-208 | On a test that passes the assertions both programs find the same pair; the harness prints the same line whichever way round it is returned, and that line is the expected output iff both stated indices are non-negative. |
| SeedGenerator.NegativeIndexSlipsThrough | db/seed/generate_two_sum.py:199-201 | A concrete test that passes every assertion although both stated indices name the same element. |
| SeedGenerator.DollarQuote | db/seed/generate_two_sum.py:225-229 | Quoting fails iff the marker occurs in the value; otherwise the result begins and ends with the marker and has exactly the value between. |
| SeedGenerator.QuotedReadsBack | db/seed/generate_two_sum.py:225-229 | Under the first-closing-marker rule of section 4.1.2.4 of the PostgreSQL manual, with a tag free of dollars: what was quoted is read back, with the right rest, iff the value does not end in a dollar and the tag. |
| SeedGenerator.CutShort | db/seed/generate_two_sum.py:225-229 | A concrete value that passes the assertion and is read back cut short. |
| OAuthStates.AuthServer.Login | auth_mockup/src/main.rs:158-163 | After a login the table is the live entries and the new state, issued now. |
| OAuthStates.AuthServer.Callback | auth_mockup/src/main.rs:211-234 | An error, a missing code and a missing state consume nothing; otherwise the state is consumed whether or not it was known or live; the outcome is judged on the table before. |
| OAuthStates.SweepIsInvisible | auth_mockup/src/main.rs:158-163 | In every history with times in order the same callbacks pass as if login never swept; at most, an expired state is called unknown. |
| OAuthStates.PassesIff | auth_mockup/src/main.rs:211-234 | A callback passes iff it carries no error, a code and a state that was issued less than the time to live ago and that no operation has touched since (section 10.12 of RFC 6749). |
| OAuthStates.TableHoldsPending | auth_mockup/src/main.rs:162-222 | Without the sweep the table holds exactly the states issued and untouched since, with their issue times. |
| OAuthStates.EachLoginPassesOnce | auth_mockup/src/main.rs:219-234 | Callbacks that passed with a state never outnumber the logins that issued it, at whatever times the handlers ran; so a state issued once passes at most once. |
| OAuthStates.ReplayIsRefused | auth_mockup/src/main.rs:221-226 | A second callback with a consumed state is refused until the state is issued again. |

## Left out

- Prompt wording: a tutor prompt is the record of everything it is rendered from, so equal records stand for equal prompts.
- Model quality, the LLM's HTTP calls and the extraction of JSON from a reply: arbitrary functions of the prompt and the reply.
- The second try of `complete_json` adds a fixed repair instruction: the model's answer to it is a separate arbitrary reply.
- LangGraph, PostgresSaver and psycopg: last-write-wins fields, appended messages and one commit per node are taken as given; two events at once on one thread are not modelled.
- Message timestamps, trace ids (passed through), logging, tokens, tracing, CORS, the gateway's proxying and the web UI.
- Notices and rejection reasons are values of a datatype instead of sentences; the sentences are a function of these values.
- Unicode: white space, word characters and case are ASCII; other characters are ordinary ones.
- Regular expressions: each pattern of the verifier is a predicate on positions, written for that pattern.
- SHA-256 is taken as injective; the joined text under it stands for the key.
- Missing dictionary keys in an answer of the domain service or in a rubric: the records are complete.
- The real clock: each OAuth handler reads it once, while the source reads it once per entry and once more for the insert.
- The network half of the OAuth callback, its client and its profile.
- random.shuffle is modelled as Fisher-Yates over arbitrary draws; that its generator reaches all permutations is not needed, since the lemmas hold for every permutation.
- JSON is modelled as far as the seed writes it: integers, lists of them and the object of one test, in the spacing of json.dumps; of the SQL text only the quoting.
- What a student's program returns is a list of integers; a program that raises or returns something else does not finish normally in the sense of the sandbox, or prints something the lemmas say nothing of.
- LocalPythonSandbox, subprocesses, time limits, base64 and HTTP in Java: a local run is an outcome that never timed out, which is honest by definition.
- The result token and the resource limits of a submission take part in no decision and are not in the model.
- CachedTurns.PlaysStayLevel: assumes that every call is answered, because after a raise the two plays may stop at different nodes; Summaries.InvisibleIffPromptsAgree and Cacheless.VerdictsNeedNoCache assume nothing of the kind.
- The models' own consistency: the theorems that compare with and without the cache assume an evaluator that depends only on problem, version and normal form, and a summarizer that depends only on its prompt, whenever they answer.
- Orchestrator, Cache, Judge0Client, AuthServer and TestList are objects; the nodes return values, as in the source.
- Prewarm, CLI harness, model bake-off, shell scripts and the catalogue text of the problem: tooling and presentation.
