/** What every run of a session keeps, whatever the services answer and whenever they fail. */
module SessionSafety {
  import opened Text
  import opened Verifier
  import opened Redaction
  import opened Llm
  import opened Session

  // ---------------------------------------------------------------- one step, without its causes

  predicate IsTutor(n: Node) {
    n == LogicTutor || n == CodeTutor
  }

  predicate IsVerifier(n: Node) {
    n == VerifyLogic || n == VerifyCode
  }

  // The updates a node can return, whatever the services answer.
  predicate Legal(cfg: Config, c: Checkpoint, u: Update) {
    match u
    case Evaluated(_) => c.next == EvaluateLogic
    case Summarized(_, accepted) => c.next == SummarizeLogic && (accepted == "" ==> c.s.userLogic == "")
    case Drafted(draft) => IsTutor(c.next) && draft != ""
    case Cleared(text) => IsVerifier(c.next) && text == if c.s.draft.Some? then c.s.draft.value else ""
    case Refused(reasons) =>
      IsVerifier(c.next) && reasons != [] && c.s.regenerations + 1 <= cfg.maxRegenerations
    case GaveUp(reasons, _) =>
      IsVerifier(c.next) && reasons != [] && c.s.regenerations + 1 > cfg.maxRegenerations
    case Executed(_) => c.next == ExecuteCode
    case Finished => c.next == Finish
  }

  lemma UpdatesAreLegal(cfg: Config, c: Checkpoint, w: World)
    ensures NodeUpdate(cfg, c, w).Some? ==> Legal(cfg, c, NodeUpdate(cfg, c, w).value)
  {
  }

  /** A step as an observer without the services sees it. */
  datatype Move = Stays | Hears(event: Event) | Does(update: Update)

  predicate Possible(cfg: Config, c: Checkpoint, m: Move) {
    match m
    case Stays => true
    case Hears(_) => c.next == AwaitInput
    case Does(u) => Legal(cfg, c, u)
  }

  function Moved(c: Checkpoint, m: Move): Checkpoint {
    match m
    case Stays => c
    case Hears(e) => if c.next == AwaitInput then Resume(c, e) else c
    case Does(u) => Commit(c, u)
  }

  function MoveOf(cfg: Config, c: Checkpoint, i: Input): Move {
    match i
    case Say(e) => if c.next == AwaitInput then Hears(e) else Stays
    case Work(w) => (match NodeUpdate(cfg, c, w) case None => Stays case Some(u) => Does(u))
  }

  // Every step of the session is a possible move.
  lemma StepIsMove(cfg: Config, c: Checkpoint, i: Input)
    ensures Possible(cfg, c, MoveOf(cfg, c, i)) && Step(cfg, c, i) == Moved(c, MoveOf(cfg, c, i))
  {
    if i.Work? {
      UpdatesAreLegal(cfg, c, i.world);
    }
  }

  // One input more, and one allowed event more.
  lemma OneMore(cfg: Config, c0: Checkpoint, inputs: seq<Input>, i: Input)
    ensures Run(cfg, c0, inputs + [i]) == Step(cfg, Run(cfg, c0, inputs), i)
    ensures Validated(cfg, c0, inputs) && (i.Say? ==> ValidateEvent(i.event, Run(cfg, c0, inputs).s.phase) == Allowed)
            ==> Validated(cfg, c0, inputs + [i])
  {
    assert (inputs + [i])[..|inputs|] == inputs;
  }

  // ---------------------------------------------------------------- the gates

  predicate LogicNode(n: Node) {
    (n == EvaluateLogic || n == LogicTutor || n == VerifyLogic || n == SummarizeLogic)
  }

  predicate CodeNode(n: Node) {
    (n == ExecuteCode || n == CodeTutor || n == VerifyCode || n == Finish)
  }

  predicate LogicPassed(s: State) {
    s.lastEval.Some? && Passing(s.lastEval.value.verdict)
  }

  predicate RunAccepted(s: State) {
    s.lastExecution.Some? && s.lastExecution.value.bucket == Accepted
  }

  // Logic before code, an accepted run before the end.
  predicate Gated(c: Checkpoint) {
    && (LogicNode(c.next) ==> c.s.phase == LOGIC)
    && (CodeNode(c.next) ==> c.s.phase == CODE)
    && (c.next == End <==> c.s.phase == DONE)
    && (c.next == SummarizeLogic || c.s.phase != LOGIC ==> LogicPassed(c.s))
    && (c.s.phase != LOGIC ==> c.s.acceptedLogic.Some?)
    && (c.next == Finish || c.s.phase == DONE ==> RunAccepted(c.s))
  }

  function Progress(p: Phase): nat {
    match p case LOGIC => 0 case CODE => 1 case DONE => 2
  }

  lemma EventKeepsGates(c: Checkpoint, e: Event)
    requires Gated(c) && c.next == AwaitInput
    ensures Gated(Resume(c, e))
    ensures Resume(c, e).s.phase == c.s.phase && c.s.messages <= Resume(c, e).s.messages
  {
  }

  lemma UpdateKeepsGates(cfg: Config, c: Checkpoint, u: Update)
    requires Gated(c) && Legal(cfg, c, u)
    ensures Gated(Commit(c, u))
    ensures Progress(Commit(c, u).s.phase) >= Progress(c.s.phase)
    ensures c.s.messages <= Commit(c, u).s.messages
  {
  }

  lemma StepKeepsGates(cfg: Config, c: Checkpoint, i: Input)
    requires Gated(c)
    ensures Gated(Step(cfg, c, i))
    ensures Progress(Step(cfg, c, i).s.phase) >= Progress(c.s.phase)
    ensures c.s.messages <= Step(cfg, c, i).s.messages
  {
    StepIsMove(cfg, c, i);
    match MoveOf(cfg, c, i)
    case Stays =>
    case Hears(e) => EventKeepsGates(c, e);
    case Does(u) => UpdateKeepsGates(cfg, c, u);
  }

  // For any events, validated or not.
  lemma {:induction false} RunsAreGated(cfg: Config, p: string, u: string, t: string, inputs: seq<Input>)
    ensures Gated(Run(cfg, Initial(p, u, t), inputs))
  {
    if inputs != [] {
      RunsAreGated(cfg, p, u, t, inputs[..|inputs| - 1]);
      StepKeepsGates(cfg, Run(cfg, Initial(p, u, t), inputs[..|inputs| - 1]), inputs[|inputs| - 1]);
    }
  }

  // The phase never goes back and the transcript only grows.
  lemma {:induction false} RunsMoveForward(cfg: Config, p: string, u: string, t: string, inputs: seq<Input>, k: nat)
    requires k <= |inputs|
    ensures var early, late := Run(cfg, Initial(p, u, t), inputs[..k]).s, Run(cfg, Initial(p, u, t), inputs).s;
            Progress(early.phase) <= Progress(late.phase) && early.messages <= late.messages
    decreases |inputs|
  {
    if k < |inputs| {
      var before := inputs[..|inputs| - 1];
      RunsMoveForward(cfg, p, u, t, before, k);
      RunsAreGated(cfg, p, u, t, before);
      StepKeepsGates(cfg, Run(cfg, Initial(p, u, t), before), inputs[|inputs| - 1]);
      assert before[..k] == inputs[..k];
    } else {
      assert inputs[..k] == inputs;
    }
  }

  // Novel, without a fault, and the evaluator unsure.
  predicate Uncertain(cfg: Config, p: EvaluatorOutput) {
    p.matchedApproach.None? && p.violatedInvariants == [] && p.confidence < cfg.flagThreshold
  }

  /** A fresh evaluation leads towards the editor exactly when the evaluator passed the text or
    * was unsure of a novel one without a fault; otherwise to the tutor. A failed text with a
    * matched approach or a violated invariant never unlocks. */
  lemma UnlocksIff(cfg: Config, c: Checkpoint, w: World, ctx: Context, p: EvaluatorOutput)
    requires c.next == EvaluateLogic && w.context(c.s.problemId) == Some(ctx)
    requires w.cacheGet(VerdictKey(c.s, ctx)).None?
    requires ParsedReply(w.evaluator(EvaluatorPrompt(ctx.title, ctx.description, ctx.rubric, c.s.userLogic)),
                         w.parseVerdict) == Some(p)
    ensures var d := Step(cfg, c, Work(w));
            && d.next == (if p.pass || Uncertain(cfg, p) then SummarizeLogic else LogicTutor)
            && d.s.attempts.logic == c.s.attempts.logic + 1
            && d.s.lastEval.Some? && !d.s.lastEval.value.cacheHit
            && d.s.lastEval.value.verdict == (if Uncertain(cfg, p) then Flagged else if p.pass then Pass else Fail)
            && d.s.lastEval.value.misconceptionId == p.misconceptionId
            && d.s.lastEval.value.missingSteps == p.missingSteps
            && d.s.lastEval.value.violatedInvariants == p.violatedInvariants
  {
    assert EvaluateLogicNode(cfg, c.s, w) == Some(Evaluated(Grade(cfg, p)));
  }

  // ---------------------------------------------------------------- validated runs

  predicate AnswersTo(s: State, etype: EventType) {
    s.pendingEvent.Some? && s.pendingEvent.value.etype == etype
  }

  // The pending event is the one the nodes after it are answering.
  predicate InStep(c: Checkpoint) {
    && (LogicNode(c.next) ==> AnswersTo(c.s, ELogic) || AnswersTo(c.s, EChat))
    && (c.next == EvaluateLogic || c.next == SummarizeLogic ==> AnswersTo(c.s, ELogic))
    && (CodeNode(c.next) ==> AnswersTo(c.s, ECode) || AnswersTo(c.s, EChat))
    && (c.next == ExecuteCode || c.next == Finish ==> AnswersTo(c.s, ECode))
  }

  predicate StatusAgrees(s: State) {
    match s.phase
    case LOGIC => s.status == LOGIC_WRITE || s.status == LOGIC_CHAT
    case CODE => s.status == CODE_WRITE || s.status == CODE_CHAT
    case DONE => s.status == SUCCESS
  }

  // Accepted logic is never empty, because empty text is never let through.
  predicate LogicNotEmpty(c: Checkpoint) {
    && ((c.next == EvaluateLogic || c.next == SummarizeLogic) ==> c.s.userLogic != "")
    && (c.s.acceptedLogic.Some? ==> c.s.acceptedLogic.value != "")
  }

  // An allowed event is always routed to a node that answers it.
  lemma AllowedEventIsRouted(c: Checkpoint, e: Event)
    requires c.next == AwaitInput
    requires ValidateEvent(e, c.s.phase) == Allowed
    ensures Resume(c, e).next != AwaitInput
    ensures Resume(c, e).s.messages == c.s.messages + [Message(Student, KindOf(e.etype), Typed(e.text))]
  {
  }

  // Chat belongs to both phases before the end, an attempt at the logic or the code to its own.
  predicate Belongs(phase: Phase, etype: EventType) {
    match phase
    case LOGIC => etype == ELogic || etype == EChat
    case CODE => etype == ECode || etype == EChat
    case DONE => false
  }

  /** What is let through, and which refusal is given otherwise; and what is let through is exactly
    * what a waiting session has a node for. */
  lemma EventRuling(c: Checkpoint, e: Event)
    ensures var ruling := ValidateEvent(e, c.s.phase);
            && (ruling == Unprocessable <==> !SaysSomething(e.text))
            && (ruling == Conflict <==> SaysSomething(e.text) && !Belongs(c.s.phase, e.etype))
            && (ruling == Allowed <==> SaysSomething(e.text) && Belongs(c.s.phase, e.etype))
    ensures c.next == AwaitInput ==>
              (ValidateEvent(e, c.s.phase) == Allowed <==> SaysSomething(e.text) && Resume(c, e).next != AwaitInput)
  {
    StripIsBlank(e.text);
  }

  lemma {:induction false} ValidatedRuns(cfg: Config, p: string, u: string, t: string, inputs: seq<Input>)
    requires Validated(cfg, Initial(p, u, t), inputs)
    ensures var c := Run(cfg, Initial(p, u, t), inputs);
            Gated(c) && InStep(c) && StatusAgrees(c.s) && LogicNotEmpty(c)
  {
    RunsAreGated(cfg, p, u, t, inputs);
    if inputs != [] {
      var before := inputs[..|inputs| - 1];
      RunsAreGated(cfg, p, u, t, before);
      ValidatedRuns(cfg, p, u, t, before);
      ValidatedStep(cfg, Run(cfg, Initial(p, u, t), before), inputs[|inputs| - 1]);
    }
  }

  lemma AllowedEventKeepsStep(c: Checkpoint, e: Event)
    requires Gated(c) && StatusAgrees(c.s) && LogicNotEmpty(c) && c.next == AwaitInput
    requires ValidateEvent(e, c.s.phase) == Allowed
    ensures var d := Resume(c, e); InStep(d) && StatusAgrees(d.s) && LogicNotEmpty(d)
  {
    StripShape(e.text);
  }

  lemma UpdateKeepsStep(cfg: Config, c: Checkpoint, u: Update)
    requires Gated(c) && InStep(c) && StatusAgrees(c.s) && LogicNotEmpty(c) && Legal(cfg, c, u)
    ensures var d := Commit(c, u); InStep(d) && StatusAgrees(d.s) && LogicNotEmpty(d)
  {
  }

  lemma ValidatedStep(cfg: Config, c: Checkpoint, i: Input)
    requires Gated(c) && InStep(c) && StatusAgrees(c.s) && LogicNotEmpty(c)
    requires i.Say? ==> ValidateEvent(i.event, c.s.phase) == Allowed
    ensures var d := Step(cfg, c, i); InStep(d) && StatusAgrees(d.s) && LogicNotEmpty(d)
  {
    StepIsMove(cfg, c, i);
    match MoveOf(cfg, c, i)
    case Stays =>
    case Hears(e) => AllowedEventKeepsStep(c, e);
    case Does(u) => UpdateKeepsStep(cfg, c, u);
  }

  // ---------------------------------------------------------------- the drafting budget

  // Drafts made this turn: the tutor nodes on the path since the last event.
  function Drafts(path: seq<Node>): nat {
    if path == [] then 0 else Drafts(path[..|path| - 1]) + if IsTutor(path[|path| - 1]) then 1 else 0
  }

  function Limit(cfg: Config): nat {
    if cfg.maxRegenerations < 0 then 0 else cfg.maxRegenerations
  }

  ghost predicate Budgeted(cfg: Config, c: Checkpoint) {
    var s := c.s;
    var drafts := Drafts(s.nodePath);
    && |s.rejections| >= s.regenerations
    && if IsTutor(c.next) then
         !s.fallbackUsed && s.regenerations <= Limit(cfg) && drafts == s.regenerations
       else if IsVerifier(c.next) then
         !s.fallbackUsed && s.regenerations <= Limit(cfg) && drafts == s.regenerations + 1
         && s.draft.Some? && s.draft.value != ""
       else
         && s.draft.None?
         && (drafts == 0 ==> s.regenerations == 0 && !s.fallbackUsed)
         && (drafts > 0 ==> c.next == AwaitInput)
         && (drafts > 0 ==> drafts == s.regenerations + (if s.fallbackUsed then 0 else 1))
         && (s.fallbackUsed <==> s.regenerations > Limit(cfg))
         && drafts <= Limit(cfg) + 1
  }

  lemma DraftsAppend(path: seq<Node>, n: Node)
    ensures Drafts(path + [n]) == Drafts(path) + if IsTutor(n) then 1 else 0
  {
    assert (path + [n])[..|path|] == path;
  }

  lemma EventKeepsBudget(cfg: Config, c: Checkpoint, e: Event)
    requires c.next == AwaitInput
    ensures Budgeted(cfg, Resume(c, e))
  {
    assert Drafts([AwaitInput]) == 0;
  }

  lemma RulingKeepsBudget(cfg: Config, c: Checkpoint, u: Update)
    requires Budgeted(cfg, c) && Legal(cfg, c, u) && IsVerifier(c.next)
    ensures Budgeted(cfg, Commit(c, u))
  {
    DraftsAppend(c.s.nodePath, c.next);
    var d := Commit(c, u);
    assert Drafts(d.s.nodePath) == Drafts(c.s.nodePath);
    assert u.Refused? ==> IsTutor(d.next);
    assert !u.Refused? ==> d.next == AwaitInput;
  }

  lemma DraftKeepsBudget(cfg: Config, c: Checkpoint, u: Update)
    requires Budgeted(cfg, c) && Legal(cfg, c, u) && u.Drafted?
    ensures Budgeted(cfg, Commit(c, u))
  {
    DraftsAppend(c.s.nodePath, c.next);
    assert IsVerifier(Commit(c, u).next);
  }

  // A node that neither drafts nor checks leaves the drafting alone and is followed by no check.
  lemma OtherNodesKeepDrafting(cfg: Config, c: Checkpoint, u: Update)
    requires Legal(cfg, c, u) && !IsVerifier(c.next) && !u.Drafted?
    ensures !IsTutor(c.next) && c.next != AwaitInput
    ensures var d := Commit(c, u);
            && d.s.draft == c.s.draft && d.s.regenerations == c.s.regenerations
            && d.s.rejections == c.s.rejections && d.s.fallbackUsed == c.s.fallbackUsed
            && d.s.nodePath == c.s.nodePath + [c.next] && !IsVerifier(d.next)
  {
  }

  lemma UpdateKeepsBudget(cfg: Config, c: Checkpoint, u: Update)
    requires Budgeted(cfg, c) && Legal(cfg, c, u) && !IsVerifier(c.next) && !u.Drafted?
    ensures Budgeted(cfg, Commit(c, u))
  {
    hide Merge, Route, Commit, Legal, Drafts;
    OtherNodesKeepDrafting(cfg, c, u);
    DraftsAppend(c.s.nodePath, c.next);
  }

  lemma StepKeepsBudget(cfg: Config, c: Checkpoint, i: Input)
    requires Budgeted(cfg, c)
    ensures Budgeted(cfg, Step(cfg, c, i))
  {
    StepIsMove(cfg, c, i);
    match MoveOf(cfg, c, i)
    case Stays =>
    case Hears(e) => EventKeepsBudget(cfg, c, e);
    case Does(u) =>
      if IsVerifier(c.next) {
        RulingKeepsBudget(cfg, c, u);
      } else if u.Drafted? {
        DraftKeepsBudget(cfg, c, u);
      } else {
        UpdateKeepsBudget(cfg, c, u);
      }
  }

  // For every limit, every event sequence and every behaviour of the model.
  lemma {:induction false} RunsStayInBudget(cfg: Config, p: string, u: string, t: string, inputs: seq<Input>)
    ensures Budgeted(cfg, Run(cfg, Initial(p, u, t), inputs))
  {
    if inputs != [] {
      RunsStayInBudget(cfg, p, u, t, inputs[..|inputs| - 1]);
      StepKeepsBudget(cfg, Run(cfg, Initial(p, u, t), inputs[..|inputs| - 1]), inputs[|inputs| - 1]);
    }
  }

  // The last messages of the transcript, at most n of them, in order.
  ghost predicate ShowsEnd(recent: seq<Utterance>, ms: seq<Message>, n: nat) {
    && |recent| == (if |ms| < n then |ms| else n)
    && forall k :: 0 <= k < |recent| ==>
         var m := ms[|ms| - |recent| + k]; recent[k].role == m.role && recent[k].content == m.content
  }

  // What the model is told of its earlier drafts: nothing on the first, later the last three reasons.
  ghost predicate ShowsRefusals(complaints: Option<seq<Reason>>, s: State) {
    if Drafts(s.nodePath) == 0 then complaints.None?
    else
      && complaints.Some? && complaints.value != []
      && |complaints.value| == (if |s.rejections| < 3 then |s.rejections| else 3)
      && complaints.value == s.rejections[|s.rejections| - |complaints.value|..]
  }

  // The logic tutor is told the problem, the student's description and what the evaluation found.
  ghost predicate TellsLogic(prompt: TutorPrompt, s: State, ctx: Context) {
    && prompt.LogicPrompt? && ShowsEnd(prompt.recent, s.messages, 10)
    && prompt.title == ctx.title && prompt.description == ctx.description && prompt.studentLogic == s.userLogic
    && (prompt.diagnosis.Some? <==> s.lastEval.Some?)
    && (prompt.counter.Some? ==> s.lastEval.Some?)
    && (s.lastEval.Some? ==>
          var e, d := s.lastEval.value, prompt.diagnosis.value;
          && d.missingSteps == e.missingSteps && d.violatedInvariants == e.violatedInvariants
          && d.misconceptionId == e.misconceptionId
          && (prompt.counter.Some? <==> e.misconceptionId.Some? && e.misconceptionId.value != "")
          && (prompt.counter.Some? ==> prompt.counter.value == LogicFallback(ctx.rubric, e.misconceptionId)))
  }

  // The code tutor is told the code, its verdict, the redacted results and the accepted logic.
  ghost predicate TellsCode(prompt: TutorPrompt, s: State, ctx: Context) {
    && prompt.CodePrompt? && ShowsEnd(prompt.recent, s.messages, 8)
    && prompt.title == ctx.title && prompt.studentCode == s.userCode
    && prompt.results == TutorSummary(s.lastExecution)
    && (s.lastExecution.Some? ==> prompt.bucket == s.lastExecution.value.bucket)
    && (prompt.accepted.Some? <==> s.logicSummary.Some?)
    && (prompt.accepted.Some? ==>
          var (sm, told) := (s.logicSummary.value, prompt.accepted.value);
          told.0 == sm.approachTaken && told.1 == sm.keySteps && told.2 == sm.finalLogicText)
  }

  lemma PromptTold(c: Checkpoint, w: World, ctx: Context)
    requires IsTutor(c.next) && w.context(c.s.problemId) == Some(ctx)
    requires Drafts(c.s.nodePath) == c.s.regenerations <= |c.s.rejections|
    ensures PromptAt(c, w).Some? && ShowsRefusals(PromptAt(c, w).value.complaints, c.s)
    ensures c.next == LogicTutor ==> TellsLogic(PromptAt(c, w).value, c.s, ctx)
    ensures c.next == CodeTutor ==> TellsCode(PromptAt(c, w).value, c.s, ctx)
  {
    hide TutorSummary, LogicFallback, Drafts;
  }

  /** The prompt of every draft of every run shows the end of the transcript and, from the second
    * draft of a turn on, why the earlier ones were refused. */
  lemma PromptTells(cfg: Config, p: string, u: string, t: string, inputs: seq<Input>, w: World, ctx: Context)
    requires IsTutor(Run(cfg, Initial(p, u, t), inputs).next)
    requires w.context(Run(cfg, Initial(p, u, t), inputs).s.problemId) == Some(ctx)
    ensures var c := Run(cfg, Initial(p, u, t), inputs);
            && PromptAt(c, w).Some?
            && var prompt := PromptAt(c, w).value;
            && ShowsRefusals(prompt.complaints, c.s)
            && if c.next == LogicTutor then TellsLogic(prompt, c.s, ctx) else TellsCode(prompt, c.s, ctx)
  {
    hide Run, PromptAt, ShowsRefusals, TellsLogic, TellsCode;
    RunsStayInBudget(cfg, p, u, t, inputs);
    PromptTold(Run(cfg, Initial(p, u, t), inputs), w, ctx);
  }

  // ---------------------------------------------------------------- the path walked

  // The nodes that ran to completion since the last event was taken up, from the run alone.
  function Walked(cfg: Config, c: Checkpoint, inputs: seq<Input>): seq<Node> {
    if inputs == [] then [] else
      var before := inputs[..|inputs| - 1];
      var at := Run(cfg, c, before);
      match inputs[|inputs| - 1]
      case Say(_) => if at.next == AwaitInput then [AwaitInput] else Walked(cfg, c, before)
      case Work(w) => if Advance(cfg, at, w).Some? then Walked(cfg, c, before) + [at.next] else Walked(cfg, c, before)
  }

  ghost predicate FollowsGraph(path: seq<Node>, next: Node) {
    && (forall k :: 0 <= k < |path| - 1 ==> Edge(path[k], path[k + 1]))
    && (path != [] ==> path[0] == AwaitInput && Edge(path[|path| - 1], next))
  }

  // Every declared edge is taken from some state, and no other is.
  lemma EdgesAreRoutes(a: Node, b: Node)
    ensures Edge(a, b) <==> a != End && exists s: State :: Route(a, s) == b
  {
    var s := InitialState("", "", "");
    if Edge(a, b) {
      var event := if b == EvaluateLogic then ELogic else if b == ExecuteCode then ECode
                   else if b == AwaitInput then EOther("") else EChat;
      var bucket := if b == Finish then Accepted else if b == AwaitInput then InfraError else Tle;
      var t := s.(pendingEvent := Some(Event(event, "")),
                  phase := if b == ExecuteCode || b == CodeTutor then CODE else LOGIC,
                  draft := if IsTutor(b) then Some("d") else None,
                  lastExecution := Some(Execution(bucket, 0, 0, false, [], "")),
                  lastEval := Some(Evaluation(if b == SummarizeLogic then Pass else Fail,
                                              None, [], [], None, 0.0, false)));
      assert Route(a, t) == b;
    }
  }

  // The path shown to the browser is the path walked, and it follows the declared edges.
  lemma {:induction false} NodePathIsWalked(cfg: Config, p: string, u: string, t: string, inputs: seq<Input>)
    ensures var c := Run(cfg, Initial(p, u, t), inputs);
            c.s.nodePath == Walked(cfg, Initial(p, u, t), inputs) && FollowsGraph(c.s.nodePath, c.next)
            && (c.s.nodePath == [] ==> c.next == AwaitInput)
  {
    if inputs != [] {
      var before := inputs[..|inputs| - 1];
      NodePathIsWalked(cfg, p, u, t, before);
      StepExtendsPath(cfg, Run(cfg, Initial(p, u, t), before), inputs[|inputs| - 1]);
    }
  }

  lemma StepExtendsPath(cfg: Config, c: Checkpoint, i: Input)
    ensures var d := Step(cfg, c, i);
            match i
            case Say(_) => d == c || (c.next == AwaitInput && d.s.nodePath == [AwaitInput] && Edge(AwaitInput, d.next))
            case Work(w) =>
              if Advance(cfg, c, w).None? then d == c
              else d.s.nodePath == c.s.nodePath + [c.next] && Edge(c.next, d.next)
  {
    StepIsMove(cfg, c, i);
    match MoveOf(cfg, c, i)
    case Stays =>
    case Hears(e) => EventStartsPath(c, e);
    case Does(u) => UpdateExtendsPath(cfg, c, u);
  }

  lemma EventStartsPath(c: Checkpoint, e: Event)
    requires c.next == AwaitInput
    ensures Resume(c, e).s.nodePath == [AwaitInput] && Edge(AwaitInput, Resume(c, e).next)
  {
  }

  lemma UpdateExtendsPath(cfg: Config, c: Checkpoint, u: Update)
    requires Legal(cfg, c, u)
    ensures Commit(c, u).s.nodePath == c.s.nodePath + [c.next] && Edge(c.next, Commit(c, u).next)
  {
  }

  // ---------------------------------------------------------------- nothing unverified is delivered

  // The text passed the phase's check, or is the phase's own canned reply.
  predicate Vetted(node: Node, s: State, rubric: Rubric, text: string) {
    IsVerifier(node) && (Check(node, text, rubric) == [] || text == Fallback(node, s, rubric))
  }

  // The step from c to d on input i appended message k from a verifier node that vetted it.
  ghost predicate Delivers(c: Checkpoint, i: Input, d: Checkpoint, k: nat) {
    && |c.s.messages| == k < |d.s.messages|
    && i.Work? && d.s.messages[k].content.Typed?
    && i.world.context(c.s.problemId).Some?
    && (c.next == VerifyLogic <==> c.s.phase == LOGIC)
    && Vetted(c.next, c.s, i.world.context(c.s.problemId).value.rubric, d.s.messages[k].content.text)
  }

  // Message k of the run was appended by step j, from a verifier node that vetted it.
  ghost predicate DeliveredBy(cfg: Config, c0: Checkpoint, inputs: seq<Input>, j: int, k: nat) {
    0 <= j < |inputs| && Delivers(Run(cfg, c0, inputs[..j]), inputs[j], Run(cfg, c0, inputs[..j + 1]), k)
  }

  lemma {:induction false} OnlyVettedTextIsDelivered(
    cfg: Config, p: string, u: string, t: string, inputs: seq<Input>, k: nat)
    requires k < |Run(cfg, Initial(p, u, t), inputs).s.messages|
    requires Run(cfg, Initial(p, u, t), inputs).s.messages[k].role == Tutor
    ensures exists j :: DeliveredBy(cfg, Initial(p, u, t), inputs, j, k)
    decreases |inputs|
  {
    var c0 := Initial(p, u, t);
    var n := |inputs| - 1;
    var before := inputs[..n];
    var c := Run(cfg, c0, before);
    RunsAreGated(cfg, p, u, t, before);
    StepKeepsGates(cfg, c, inputs[n]);
    if k < |c.s.messages| {
      OnlyVettedTextIsDelivered(cfg, p, u, t, before, k);
      var j :| DeliveredBy(cfg, c0, before, j, k);
      StaysDelivered(cfg, c0, inputs, n, j, k);
    } else {
      StepDelivers(cfg, c, inputs[n], k);
      assert inputs[..n + 1] == inputs;
      assert DeliveredBy(cfg, c0, inputs, n, k);
    }
  }

  lemma StaysDelivered(cfg: Config, c0: Checkpoint, inputs: seq<Input>, n: nat, j: int, k: nat)
    requires n <= |inputs| && DeliveredBy(cfg, c0, inputs[..n], j, k)
    ensures DeliveredBy(cfg, c0, inputs, j, k)
  {
    assert inputs[..n][..j] == inputs[..j] && inputs[..n][..j + 1] == inputs[..j + 1];
  }

  lemma StepDelivers(cfg: Config, c: Checkpoint, i: Input, k: nat)
    requires Gated(c) && |c.s.messages| <= k < |Step(cfg, c, i).s.messages|
    requires Step(cfg, c, i).s.messages[k].role == Tutor
    ensures Delivers(c, i, Step(cfg, c, i), k)
  {
    TutorMessageIsVetted(cfg, c, i);
  }

  // What a step says: at most one message, and a tutor message only when a verifier node
  // cleared a draft or gave up.
  lemma EventSays(c: Checkpoint, e: Event)
    requires c.next == AwaitInput
    ensures var ms := Resume(c, e).s.messages;
            ms == c.s.messages || exists k :: ms == c.s.messages + [Message(Student, k, Typed(e.text))]
  {
    var ms := Resume(c, e).s.messages;
    if ms != c.s.messages {
      assert ms == c.s.messages + [Message(Student, ms[|ms| - 1].kind, Typed(e.text))];
    }
  }

  lemma UpdateSays(c: Checkpoint, u: Update)
    ensures var ms := Commit(c, u).s.messages;
            || ms == c.s.messages
            || exists m :: ms == c.s.messages + [m]
                           && (m.role == Tutor ==> (u.Cleared? || u.GaveUp?) && m.content == Typed(u.text))
  {
    var ms := Commit(c, u).s.messages;
    if ms != c.s.messages {
      assert ms == c.s.messages + [ms[|ms| - 1]];
    }
  }

  lemma RulingIsVetted(cfg: Config, c: Checkpoint, w: World)
    requires NodeUpdate(cfg, c, w).Some?
    ensures var u := NodeUpdate(cfg, c, w).value;
            u.Cleared? || u.GaveUp? ==>
              && w.context(c.s.problemId).Some?
              && Vetted(c.next, c.s, w.context(c.s.problemId).value.rubric, u.text)
  {
  }

  lemma TutorMessageIsVetted(cfg: Config, c: Checkpoint, i: Input)
    ensures var d := Step(cfg, c, i);
            var k := |c.s.messages|;
            && k <= |d.s.messages| <= k + 1
            && (|d.s.messages| == k + 1 && d.s.messages[k].role == Tutor ==>
                  && i.Work? && d.s.messages[k].content.Typed? && i.world.context(c.s.problemId).Some?
                  && Vetted(c.next, c.s, i.world.context(c.s.problemId).value.rubric, d.s.messages[k].content.text))
  {
    StepIsMove(cfg, c, i);
    match MoveOf(cfg, c, i)
    case Stays =>
    case Hears(e) => EventSays(c, e);
    case Does(u) =>
      UpdateSays(c, u);
      RulingIsVetted(cfg, c, i.world);
  }

  // A rubric that forbids no word of the generic logic reply and whose own counters pass.
  ghost predicate SelfConsistent(rubric: Rubric) {
    && (forall t :: t in rubric.forbiddenTerms ==> !NamesTerm(GENERIC_LOGIC_FALLBACK, t))
    && forall m :: m in rubric.misconceptions && m.socraticCounter != "" ==>
                     VerifyLogicDraft(m.socraticCounter, rubric) == []
  }

  lemma FallbackPasses(node: Node, s: State, rubric: Rubric)
    requires IsVerifier(node) && SelfConsistent(rubric)
    ensures Check(node, Fallback(node, s, rubric), rubric) == []
  {
    hide VerifyLogicDraft, VerifyCodeDraft;
    GenericLogicReply(rubric);
    GenericCodeReply(rubric);
    var mid := if s.lastEval.Some? then s.lastEval.value.misconceptionId else None;
    if node == VerifyLogic && mid.Some? {
      CounterIsListed(rubric.misconceptions, mid.value);
    }
  }

  // Every problem context the run meets has this rubric.
  predicate OneRubric(inputs: seq<Input>, problemId: string, rubric: Rubric) {
    forall j :: 0 <= j < |inputs| && inputs[j].Work? && inputs[j].world.context(problemId).Some? ==>
                  inputs[j].world.context(problemId).value.rubric == rubric
  }

  // Message k was delivered by step j and passes the check of the phase it was delivered in.
  ghost predicate PassedAt(cfg: Config, c0: Checkpoint, inputs: seq<Input>, j: int, k: nat, rubric: Rubric) {
    && DeliveredBy(cfg, c0, inputs, j, k)
    && var c, d := Run(cfg, c0, inputs[..j]), Run(cfg, c0, inputs[..j + 1]);
    && (c.next == VerifyLogic <==> c.s.phase == LOGIC)
    && Check(c.next, d.s.messages[k].content.text, rubric) == []
  }

  /** With such a rubric throughout, every tutor message of every run passes the check of the
    * phase it was delivered in, the canned replies included. */
  lemma EveryTutorMessagePasses(
    cfg: Config, p: string, u: string, t: string, inputs: seq<Input>, rubric: Rubric, k: nat) returns (j: int)
    requires SelfConsistent(rubric) && OneRubric(inputs, p, rubric)
    requires k < |Run(cfg, Initial(p, u, t), inputs).s.messages|
    requires Run(cfg, Initial(p, u, t), inputs).s.messages[k].role == Tutor
    ensures PassedAt(cfg, Initial(p, u, t), inputs, j, k, rubric)
    ensures Run(cfg, Initial(p, u, t), inputs).s.messages[k]
            == Run(cfg, Initial(p, u, t), inputs[..j + 1]).s.messages[k]
  {
    hide Check, Fallback, SelfConsistent;
    OnlyVettedTextIsDelivered(cfg, p, u, t, inputs, k);
    j :| DeliveredBy(cfg, Initial(p, u, t), inputs, j, k);
    var c := Run(cfg, Initial(p, u, t), inputs[..j]);
    ProblemIsFixed(cfg, p, u, t, inputs[..j]);
    RunsMoveForward(cfg, p, u, t, inputs, j + 1);
    FallbackPasses(c.next, c.s, rubric);
  }

  // No rubric term made of word characters is a token of the text.
  predicate NamesNoToken(text: string, rubric: Rubric) {
    forall t :: t in rubric.forbiddenTerms && WordOnly(Strip(t)) ==> Lower(Strip(t)) !in Tokens(Lower(text))
  }

  /** What the tutor may say. In LOGIC of any run: no code, at most 120 words, no rubric term, as
    * a token or otherwise. In CODE: at most 160 words, no definition of the entrypoint, and
    * nowhere more than three lines of code in one segment. */
  lemma TutorNeverGivesItAway(
    cfg: Config, p: string, u: string, t: string, inputs: seq<Input>, rubric: Rubric, k: nat) returns (j: int)
    requires SelfConsistent(rubric) && OneRubric(inputs, p, rubric)
    requires k < |Run(cfg, Initial(p, u, t), inputs).s.messages|
    requires Run(cfg, Initial(p, u, t), inputs).s.messages[k].role == Tutor
    ensures DeliveredBy(cfg, Initial(p, u, t), inputs, j, k)
    ensures Run(cfg, Initial(p, u, t), inputs).s.messages[k].content.Typed?
    ensures var text := Run(cfg, Initial(p, u, t), inputs).s.messages[k].content.text;
            var phase := Run(cfg, Initial(p, u, t), inputs[..j]).s.phase;
            if phase == LOGIC then FitsLogic(text, rubric) && NamesNoToken(text, rubric)
            else phase == CODE && FitsCode(text, rubric) && !HandsOverCode(text)
  {
    hide SelfConsistent, FitsLogic, FitsCode, HandsOverCode, VerifyLogicDraft, VerifyCodeDraft, Vetted, Fallback;
    j := EveryTutorMessagePasses(cfg, p, u, t, inputs, rubric, k);
    var text := Run(cfg, Initial(p, u, t), inputs).s.messages[k].content.text;
    RunsAreGated(cfg, p, u, t, inputs[..j]);
    VerifierDelivers(cfg, Initial(p, u, t), inputs, j, k);
    AcceptedLogicDraft(text, rubric);
    AcceptedCodeDraft(text, rubric);
    HandedOverIsRefused(text, rubric);
  }

  lemma VerifierDelivers(cfg: Config, c0: Checkpoint, inputs: seq<Input>, j: int, k: nat)
    requires DeliveredBy(cfg, c0, inputs, j, k)
    ensures IsVerifier(Run(cfg, c0, inputs[..j]).next)
  {
    hide Check, Fallback;
  }

  lemma MoveKeepsProblem(c: Checkpoint, m: Move)
    ensures var s := Moved(c, m).s;
            s.problemId == c.s.problemId && s.userId == c.s.userId && s.threadId == c.s.threadId
  {
  }

  lemma {:induction false} ProblemIsFixed(cfg: Config, p: string, u: string, t: string, inputs: seq<Input>)
    ensures var s := Run(cfg, Initial(p, u, t), inputs).s; s.problemId == p && s.userId == u && s.threadId == t
  {
    if inputs != [] {
      var before := inputs[..|inputs| - 1];
      ProblemIsFixed(cfg, p, u, t, before);
      var c := Run(cfg, Initial(p, u, t), before);
      StepIsMove(cfg, c, inputs[|inputs| - 1]);
      MoveKeepsProblem(c, MoveOf(cfg, c, inputs[|inputs| - 1]));
    }
  }
}
