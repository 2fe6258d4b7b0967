/** The tutoring session: its state, its nodes and the graph that steps it. */
module Session {
  import opened Text
  import opened Verifier
  import opened Redaction
  import opened Keys
  import opened Llm

  // ---------------------------------------------------------------- state

  datatype Phase = LOGIC | CODE | DONE
  datatype Status = LOGIC_WRITE | LOGIC_CHAT | CODE_WRITE | CODE_CHAT | SUCCESS

  datatype Role = Student | Tutor | System
  datatype Kind = KLogic | KCode | KChat | KHint | KInfo | KResult

  /** What a message says: text someone wrote, or one of the canned notices. */
  datatype Content =
    | Typed(text: string)
    | UnlockNotice
    | InfraNotice
    | SuccessNotice
    | ResultNotice(bucket: Bucket, passed: int, total: int)

  // The timestamp of a message is not modelled.
  datatype Message = Message(role: Role, kind: Kind, content: Content)

  datatype EventType = ELogic | EChat | ECode | EOther(name: string)
  datatype Event = Event(etype: EventType, text: string)

  datatype Verdict = Pass | Fail | Flagged | Missing

  datatype Evaluation = Evaluation(
    verdict: Verdict, matchedApproach: Option<string>, missingSteps: seq<string>,
    violatedInvariants: seq<string>, misconceptionId: Option<string>, confidence: real, cacheHit: bool)

  datatype Summary = Summary(
    approachTaken: string, keySteps: seq<string>, misconceptionsCorrected: seq<string>, finalLogicText: string)

  datatype Attempts = Attempts(logic: nat, code: nat)

  datatype Node =
    | AwaitInput | EvaluateLogic | LogicTutor | VerifyLogic | SummarizeLogic
    | ExecuteCode | CodeTutor | VerifyCode | Finish | End

  datatype State = State(
    problemId: string, userId: string, threadId: string,
    phase: Phase, status: Status,
    pendingEvent: Option<Event>, userLogic: string, userCode: string,
    acceptedLogic: Option<string>, logicSummary: Option<Summary>,
    lastEval: Option<Evaluation>, lastExecution: Option<Execution>,
    attempts: Attempts,
    draft: Option<string>, regenerations: nat, rejections: seq<Reason>, fallbackUsed: bool,
    nodePath: seq<Node>, messages: seq<Message>)

  /** What is checkpointed between two nodes: the node to run next, and the state. */
  datatype Checkpoint = Checkpoint(next: Node, s: State)

  function InitialState(problemId: string, userId: string, threadId: string): State {
    State(problemId, userId, threadId, LOGIC, LOGIC_WRITE, None, "", "", None, None, None, None,
          Attempts(0, 0), None, 0, [], false, [], [])
  }

  function Initial(problemId: string, userId: string, threadId: string): Checkpoint {
    Checkpoint(AwaitInput, InitialState(problemId, userId, threadId))
  }

  // ---------------------------------------------------------------- configuration and services

  datatype Config = Config(maxRegenerations: int, flagThreshold: real)

  datatype Context = Context(title: string, description: string, rubric: Rubric, rubricVersion: int)

  /** The evaluator's parsed reply; the verdict is PASS or FAIL. */
  datatype EvaluatorOutput = EvaluatorOutput(
    pass: bool, matchedApproach: Option<string>, missingSteps: seq<string>,
    violatedInvariants: seq<string>, misconceptionId: Option<string>, confidence: real, rationale: string)

  datatype EvaluatorPrompt = EvaluatorPrompt(title: string, description: string, rubric: Rubric, studentText: string)
  datatype SummaryPrompt = SummaryPrompt(studentLogic: string, earlierAttempts: seq<string>)

  datatype Diagnosis = Diagnosis(
    missingSteps: seq<string>, violatedInvariants: seq<string>, misconceptionId: Option<string>)
  datatype Utterance = Utterance(role: Role, content: Content)

  /** Everything a tutor prompt is rendered from. */
  datatype TutorPrompt =
    | LogicPrompt(title: string, description: string, studentLogic: string, diagnosis: Option<Diagnosis>,
                  counter: Option<string>, recent: seq<Utterance>, complaints: Option<seq<Reason>>)
    | CodePrompt(title: string, bucket: Bucket, results: string, studentCode: string,
                 accepted: Option<(string, seq<string>, string)>, recent: seq<Utterance>,
                 complaints: Option<seq<Reason>>)

  datatype Payload = VerdictPayload(evaluation: Evaluation) | SummaryPayload(summary: Summary)

  datatype Answer = Answered(execution: Execution) | Unreachable(error: string)

  /** One moment of the outside world: how every service would answer just then. None is
    * a call that raises, or a cache that holds nothing or cannot be read. */
  datatype World = World(
    context: string -> Option<Context>,
    tutor: TutorPrompt -> Option<string>,
    evaluator: EvaluatorPrompt -> nat -> Option<string>,
    parseVerdict: string -> Option<EvaluatorOutput>,
    summarizer: SummaryPrompt -> nat -> Option<string>,
    parseSummary: string -> Option<Summary>,
    execute: (string, string) -> Answer,
    cacheGet: string -> Option<Payload>)

  /** What a node returns: the evaluation, the summary and the accepted text, a draft, the
    * verifier's ruling (cleared, refused, or given up with a canned reply), the result. */
  datatype Update =
    | Evaluated(evaluation: Evaluation)
    | Summarized(summary: Summary, accepted: string)
    | Drafted(draft: string)
    | Cleared(text: string)
    | Refused(reasons: seq<Reason>)
    | GaveUp(reasons: seq<Reason>, text: string)
    | Executed(execution: Execution)
    | Finished

  // ---------------------------------------------------------------- await_input

  // The kind of message an event of a known type becomes.
  function KindOf(e: EventType): Kind {
    match e case ELogic => KLogic case ECode => KCode case _ => KChat
  }

  function Receive(s: State, e: Event): State {
    var u := s.(pendingEvent := Some(e), nodePath := [AwaitInput],
                regenerations := 0, rejections := [], fallbackUsed := false, draft := None);
    if e.etype == ELogic then
      u.(userLogic := e.text, status := LOGIC_WRITE, messages := u.messages + [Message(Student, KLogic, Typed(e.text))])
    else if e.etype == ECode then
      u.(userCode := e.text, status := CODE_WRITE, messages := u.messages + [Message(Student, KCode, Typed(e.text))])
    else if e.etype == EChat then
      u.(status := if s.phase == LOGIC then LOGIC_CHAT else CODE_CHAT,
         messages := u.messages + [Message(Student, KChat, Typed(e.text))])
    else u
  }

  function RouteAfterInput(s: State): Node {
    var etype := if s.pendingEvent.Some? then s.pendingEvent.value.etype else EOther("");
    if etype == ELogic && s.phase == LOGIC then EvaluateLogic
    else if etype == EChat && s.phase == LOGIC then LogicTutor
    else if etype == ECode && s.phase == CODE then ExecuteCode
    else if etype == EChat && s.phase == CODE then CodeTutor
    else AwaitInput
  }

  // ---------------------------------------------------------------- evaluate_logic

  predicate Passing(verdict: Verdict) {
    verdict == Pass || verdict == Flagged
  }

  // FLAGGED: no approach matched, nothing was violated, and confidence is low.
  function FlaggedRule(cfg: Config, p: EvaluatorOutput): Verdict {
    if p.matchedApproach.None? && p.violatedInvariants == [] && p.confidence < cfg.flagThreshold
    then Flagged
    else if p.pass then Pass else Fail
  }

  function Grade(cfg: Config, p: EvaluatorOutput): Evaluation {
    Evaluation(FlaggedRule(cfg, p), p.matchedApproach, p.missingSteps, p.violatedInvariants,
               p.misconceptionId, p.confidence, false)
  }

  // A row read as an evaluation; a summary row has none of its fields.
  function AsEvaluation(p: Payload): Evaluation {
    match p
    case VerdictPayload(e) => e
    case SummaryPayload(_) => Evaluation(Missing, None, [], [], None, 0.0, false)
  }

  function AsSummary(p: Payload): Summary {
    match p
    case SummaryPayload(sm) => sm
    case VerdictPayload(_) => Summary("", [], [], "")
  }

  function VerdictKey(s: State, ctx: Context): string {
    CacheKey("verdict", s.problemId, ctx.rubricVersion, s.userLogic)
  }

  // The evaluation the model itself gives of the student's text.
  function FreshEvaluation(cfg: Config, text: string, ctx: Context, w: World): Option<Evaluation> {
    match ParsedReply(w.evaluator(EvaluatorPrompt(ctx.title, ctx.description, ctx.rubric, text)), w.parseVerdict)
    case None => None
    case Some(p) => Some(Grade(cfg, p))
  }

  function EvaluateLogicNode(cfg: Config, s: State, w: World): Option<Update> {
    match w.context(s.problemId)
    case None => None
    case Some(ctx) =>
      match w.cacheGet(VerdictKey(s, ctx))
      case Some(row) => Some(Evaluated(AsEvaluation(row).(cacheHit := true)))
      case None =>
        match FreshEvaluation(cfg, s.userLogic, ctx, w)
        case None => None
        case Some(e) => Some(Evaluated(e))
  }

  // ---------------------------------------------------------------- summarize_logic

  function EarlierAttempts(ms: seq<Message>, current: string): seq<string> {
    if ms == [] then [] else
      EarlierAttempts(ms[..|ms| - 1], current) +
      var m := ms[|ms| - 1];
      if m.role == Student && m.kind == KLogic && m.content.Typed? && m.content.text != current
      then [m.content.text] else []
  }

  // The rubric version the summarizer's key uses: 1 when the problem context cannot be had.
  function VersionOr1(problemId: string, w: World): int {
    match w.context(problemId) case Some(ctx) => ctx.rubricVersion case None => 1
  }

  function SummaryKey(s: State, w: World): string {
    CacheKey("summary", s.problemId, VersionOr1(s.problemId, w), s.userLogic)
  }

  function FreshSummary(s: State, w: World): Option<Summary> {
    var prompt := SummaryPrompt(s.userLogic, EarlierAttempts(s.messages, s.userLogic));
    match ParsedReply(w.summarizer(prompt), w.parseSummary)
    case None => None
    case Some(sm) => Some(if sm.finalLogicText != "" then sm else sm.(finalLogicText := s.userLogic))
  }

  function SummarizeLogicNode(s: State, w: World): Update {
    var summary :=
      match w.cacheGet(SummaryKey(s, w))
      case Some(row) => AsSummary(row)
      case None =>
        match FreshSummary(s, w)
        case Some(sm) => sm
        case None => Summary("", [], [], s.userLogic);
    Summarized(summary, if summary.finalLogicText != "" then summary.finalLogicText else s.userLogic)
  }

  // ---------------------------------------------------------------- the tutor drafts

  function Recent(ms: seq<Message>, n: nat): seq<Utterance> {
    var tail := if |ms| <= n then ms else ms[|ms| - n..];
    seq(|tail|, i requires 0 <= i < |tail| => Utterance(tail[i].role, tail[i].content))
  }

  // After a rejection the prompt names the last three reasons.
  function Complaints(s: State): Option<seq<Reason>> {
    if s.regenerations == 0 then None
    else Some(if |s.rejections| <= 3 then s.rejections else s.rejections[|s.rejections| - 3..])
  }

  function LogicTutorPrompt(s: State, ctx: Context): TutorPrompt {
    var mid := if s.lastEval.Some? then s.lastEval.value.misconceptionId else None;
    LogicPrompt(ctx.title, ctx.description, s.userLogic,
                (match s.lastEval
                 case None => None
                 case Some(e) => Some(Diagnosis(e.missingSteps, e.violatedInvariants, e.misconceptionId))),
                (if mid.Some? && mid.value != "" then Some(LogicFallback(ctx.rubric, mid)) else None),
                Recent(s.messages, 10), Complaints(s))
  }

  function CodeTutorPrompt(s: State, ctx: Context): TutorPrompt {
    CodePrompt(ctx.title,
               (if s.lastExecution.Some? then s.lastExecution.value.bucket else Unknown("UNKNOWN")),
               TutorSummary(s.lastExecution), s.userCode,
               (match s.logicSummary
                case None => None
                case Some(sm) => Some((sm.approachTaken, sm.keySteps, sm.finalLogicText))),
               Recent(s.messages, 8), Complaints(s))
  }

  // The prompt the tutor node at c would send.
  function PromptAt(c: Checkpoint, w: World): Option<TutorPrompt> {
    match w.context(c.s.problemId)
    case None => None
    case Some(ctx) =>
      if c.next == LogicTutor then Some(LogicTutorPrompt(c.s, ctx))
      else if c.next == CodeTutor then Some(CodeTutorPrompt(c.s, ctx))
      else None
  }

  function TutorNode(c: Checkpoint, w: World): Option<Update> {
    match PromptAt(c, w)
    case None => None
    case Some(prompt) =>
      match Complete(w.tutor(prompt))
      case None => None
      case Some(text) => Some(Drafted(text))
  }

  // ---------------------------------------------------------------- the tutor checks

  function Check(node: Node, draft: string, rubric: Rubric): seq<Reason> {
    if node == VerifyLogic then VerifyLogicDraft(draft, rubric) else VerifyCodeDraft(draft, rubric)
  }

  function Fallback(node: Node, s: State, rubric: Rubric): string {
    if node == VerifyLogic then
      LogicFallback(rubric, if s.lastEval.Some? then s.lastEval.value.misconceptionId else None)
    else GENERIC_CODE_FALLBACK
  }

  function VerifierNode(cfg: Config, c: Checkpoint, w: World): Option<Update> {
    match w.context(c.s.problemId)
    case None => None
    case Some(ctx) =>
      var draft := if c.s.draft.Some? then c.s.draft.value else "";
      var reasons := Check(c.next, draft, ctx.rubric);
      Some(if reasons == [] then Cleared(draft)
           else if c.s.regenerations + 1 > cfg.maxRegenerations
           then GaveUp(reasons, Fallback(c.next, c.s, ctx.rubric))
           else Refused(reasons))
  }

  // ---------------------------------------------------------------- execute_code and finish

  function ExecuteCodeNode(s: State, w: World): Update {
    match w.execute(s.problemId, s.userCode)
    case Unreachable(error) => Executed(Execution(InfraError, 0, 0, false, [], error))
    case Answered(e) => Executed(e)
  }

  // ---------------------------------------------------------------- merging an update

  /** The fields a node's update writes, merged over the state: messages are appended,
    * everything else is last-write-wins. */
  function Merge(node: Node, s: State, u: Update): State {
    var t := s.(nodePath := s.nodePath + [node]);
    match u
    case Evaluated(e) =>
      t.(lastEval := Some(e), attempts := s.attempts.(logic := s.attempts.logic + 1))
    case Summarized(summary, accepted) =>
      t.(logicSummary := Some(summary), acceptedLogic := Some(accepted), phase := CODE, status := CODE_WRITE,
         messages := s.messages + [Message(System, KInfo, UnlockNotice)])
    case Drafted(text) => t.(draft := Some(text))
    case Cleared(text) =>
      t.(messages := s.messages + [Message(Tutor, KHint, Typed(text))], draft := None, status := ChatStatus(node))
    case Refused(reasons) =>
      t.(regenerations := s.regenerations + 1, rejections := s.rejections + reasons)
    case GaveUp(reasons, text) =>
      t.(messages := s.messages + [Message(Tutor, KHint, Typed(text))], draft := None, status := ChatStatus(node),
         regenerations := s.regenerations + 1, rejections := s.rejections + reasons, fallbackUsed := true)
    case Executed(e) =>
      if e.bucket == InfraError then
        t.(lastExecution := Some(e), messages := s.messages + [Message(System, KInfo, InfraNotice)])
      else
        t.(lastExecution := Some(e), attempts := s.attempts.(code := s.attempts.code + 1),
           messages := s.messages + [Message(System, KResult, ResultNotice(e.bucket, e.passed, e.total))])
    case Finished =>
      t.(phase := DONE, status := SUCCESS, messages := s.messages + [Message(System, KInfo, SuccessNotice)])
  }

  function ChatStatus(node: Node): Status {
    if node == VerifyLogic then LOGIC_CHAT else CODE_CHAT
  }

  // ---------------------------------------------------------------- the graph

  // The edges declared between the nodes.
  predicate Edge(a: Node, b: Node) {
    match a
    case AwaitInput => b == EvaluateLogic || b == LogicTutor || b == ExecuteCode || b == CodeTutor || b == AwaitInput
    case EvaluateLogic => b == SummarizeLogic || b == LogicTutor
    case LogicTutor => b == VerifyLogic
    case VerifyLogic => b == LogicTutor || b == AwaitInput
    case SummarizeLogic => b == AwaitInput
    case ExecuteCode => b == Finish || b == CodeTutor || b == AwaitInput
    case CodeTutor => b == VerifyCode
    case VerifyCode => b == CodeTutor || b == AwaitInput
    case Finish => b == End
    case End => false
  }

  predicate Suspended(c: Checkpoint) {
    c.next == AwaitInput || c.next == End
  }

  function NodeUpdate(cfg: Config, c: Checkpoint, w: World): Option<Update> {
    match c.next
    case AwaitInput => None
    case End => None
    case EvaluateLogic => EvaluateLogicNode(cfg, c.s, w)
    case LogicTutor => TutorNode(c, w)
    case VerifyLogic => VerifierNode(cfg, c, w)
    case SummarizeLogic => Some(SummarizeLogicNode(c.s, w))
    case ExecuteCode => Some(ExecuteCodeNode(c.s, w))
    case CodeTutor => TutorNode(c, w)
    case VerifyCode => VerifierNode(cfg, c, w)
    case Finish => Some(Finished)
  }

  // Where the graph goes after a node, from the state the node left.
  function Route(node: Node, s: State): Node {
    match node
    case AwaitInput => RouteAfterInput(s)
    case EvaluateLogic =>
      if s.lastEval.Some? && Passing(s.lastEval.value.verdict) then SummarizeLogic else LogicTutor
    case LogicTutor => VerifyLogic
    case VerifyLogic => if DraftPending(s) then LogicTutor else AwaitInput
    case SummarizeLogic => AwaitInput
    case ExecuteCode =>
      var bucket := if s.lastExecution.Some? then s.lastExecution.value.bucket else Unknown("");
      if bucket == Accepted then Finish else if bucket == InfraError then AwaitInput else CodeTutor
    case CodeTutor => VerifyCode
    case VerifyCode => if DraftPending(s) then CodeTutor else AwaitInput
    case Finish => End
    case End => End
  }

  predicate DraftPending(s: State) {
    s.draft.Some? && s.draft.value != ""
  }

  function Commit(c: Checkpoint, u: Update): Checkpoint {
    var t := Merge(c.next, c.s, u);
    Checkpoint(Route(c.next, t), t)
  }

  /** One node run to completion and routed onwards; None if it raises, or if there is
    * nothing to run before the next event. */
  function Advance(cfg: Config, c: Checkpoint, w: World): Option<Checkpoint> {
    match NodeUpdate(cfg, c, w)
    case None => None
    case Some(u) => Some(Commit(c, u))
  }

  function Resume(c: Checkpoint, e: Event): Checkpoint
    requires c.next == AwaitInput
  {
    var u := Receive(c.s, e);
    Checkpoint(Route(AwaitInput, u), u)
  }

  // ---------------------------------------------------------------- runs

  /** What drives a session: a student event, or a turn for whatever node is next. */
  datatype Input = Say(event: Event) | Work(world: World)

  /** A node that raises leaves the checkpoint as it was; an event that finds a node still
    * unfinished is not consumed by it. */
  function Step(cfg: Config, c: Checkpoint, i: Input): Checkpoint {
    match i
    case Say(e) => if c.next == AwaitInput then Resume(c, e) else c
    case Work(w) => (match Advance(cfg, c, w) case None => c case Some(d) => d)
  }

  function Run(cfg: Config, c: Checkpoint, inputs: seq<Input>): Checkpoint {
    if inputs == [] then c else Step(cfg, Run(cfg, c, inputs[..|inputs| - 1]), inputs[|inputs| - 1])
  }

  // ---------------------------------------------------------------- event validation

  datatype Ruling = Allowed | Unprocessable | Conflict

  function ValidateEvent(e: Event, phase: Phase): Ruling {
    if Strip(e.text) == "" then Unprocessable
    else if phase == DONE then Conflict
    else if phase == LOGIC then (if e.etype == ELogic || e.etype == EChat then Allowed else Conflict)
    else (if e.etype == ECode || e.etype == EChat then Allowed else Conflict)
  }

  // Every event of the run was let through by the check on the state it met.
  predicate Validated(cfg: Config, c: Checkpoint, inputs: seq<Input>) {
    inputs == [] || (
      var before := inputs[..|inputs| - 1];
      && Validated(cfg, c, before)
      && match inputs[|inputs| - 1]
         case Say(e) => ValidateEvent(e, Run(cfg, c, before).s.phase) == Allowed
         case Work(_) => true)
  }

  // ---------------------------------------------------------------- the view

  datatype EvaluationView = EvaluationView(
    verdict: Verdict, matchedApproach: Option<string>, missingSteps: seq<string>,
    violatedInvariants: seq<string>, misconceptionId: Option<string>, confidence: real, cacheHit: bool)

  datatype SessionView = SessionView(
    threadId: string, problemId: string, phase: Phase, status: Status, attempts: Attempts,
    acceptedLogic: Option<string>, messages: seq<Message>,
    lastEval: Option<EvaluationView>, lastExecution: Option<ExecutionView>,
    traceId: string, nodePath: seq<Node>, regenerations: nat, rejections: seq<Reason>, fallbackUsed: bool)

  function View(s: State, threadId: string, traceId: string): SessionView {
    SessionView(threadId, s.problemId, s.phase, s.status, s.attempts, s.acceptedLogic, s.messages,
                (match s.lastEval
                 case None => None
                 case Some(e) => Some(EvaluationView(e.verdict, e.matchedApproach, e.missingSteps, e.violatedInvariants,
                                                     e.misconceptionId, e.confidence, e.cacheHit))),
                StrippedView(s.lastExecution),
                traceId, s.nodePath, s.regenerations, s.rejections, s.fallbackUsed)
  }

  // The state a session shows: everything but the texts being worked on and what the redaction
  // takes from the execution.
  predicate ShowsSame(s: State, t: State) {
    && s.problemId == t.problemId && s.phase == t.phase && s.status == t.status && s.attempts == t.attempts
    && s.acceptedLogic == t.acceptedLogic && s.messages == t.messages && s.lastEval == t.lastEval
    && StrippedView(s.lastExecution) == StrippedView(t.lastExecution)
    && s.nodePath == t.nodePath && s.regenerations == t.regenerations
    && s.rejections == t.rejections && s.fallbackUsed == t.fallbackUsed
  }

  /** Two sessions look alike exactly when they agree on that, and each field of the view is the
    * session's own. */
  lemma ViewShows(s: State, t: State, threadId: string, traceId: string)
    ensures View(s, threadId, traceId) == View(t, threadId, traceId) <==> ShowsSame(s, t)
    ensures var v := View(s, threadId, traceId);
            && v.threadId == threadId && v.problemId == s.problemId && v.traceId == traceId
            && v.phase == s.phase && v.status == s.status && v.attempts == s.attempts
            && v.acceptedLogic == s.acceptedLogic && v.messages == s.messages
            && (v.lastEval.Some? <==> s.lastEval.Some?)
            && (v.lastEval.Some? ==> v.lastEval.value.verdict == s.lastEval.value.verdict
                                     && v.lastEval.value.cacheHit == s.lastEval.value.cacheHit)
            && (v.lastExecution.Some? <==> s.lastExecution.Some?)
            && (v.lastExecution.Some? ==> v.lastExecution.value.bucket == s.lastExecution.value.bucket)
            && v.nodePath == s.nodePath && v.regenerations == s.regenerations
            && v.rejections == s.rejections && v.fallbackUsed == s.fallbackUsed
  {
    if View(s, threadId, traceId) == View(t, threadId, traceId) {
      assert s.lastEval.Some? <==> t.lastEval.Some?;
    }
  }
}
