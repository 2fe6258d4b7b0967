/** The transcript alone tells where a session stands: a fold over the messages recovers
  * the phase and both attempt counters, and accepts only whole turns. */
module Transcript {
  import opened Text
  import opened Redaction
  import opened Session
  import opened SessionSafety
  import opened Verifier

  /** Between turns; a student message awaits its answer; code was run and graded, and the
    * outcome is still to be discussed or celebrated; or no session reads like this. */
  datatype Mode = Ready | Asked(kind: Kind) | Graded(bucket: Bucket) | Broken

  datatype Recovered = Recovered(mode: Mode, phase: Phase, logicAsked: nat, codeAsked: nat, infra: nat)

  function Observe(r: Recovered, m: Message): Recovered {
    match r.mode
    case Ready =>
      if m.role != Student || !m.content.Typed? || r.phase == DONE then r.(mode := Broken)
      else if m.kind == KLogic && r.phase == LOGIC then r.(mode := Asked(KLogic), logicAsked := r.logicAsked + 1)
      else if m.kind == KCode && r.phase == CODE then r.(mode := Asked(KCode), codeAsked := r.codeAsked + 1)
      else if m.kind == KChat then r.(mode := Asked(KChat))
      else r.(mode := Broken)
    case Asked(kind) =>
      if kind == KCode then
        if m.role == System && m.kind == KInfo && m.content == InfraNotice then r.(mode := Ready, infra := r.infra + 1)
        else if m.role == System && m.kind == KResult && m.content.ResultNotice? && m.content.bucket != InfraError
        then r.(mode := Graded(m.content.bucket))
        else r.(mode := Broken)
      else if IsHint(m) then r.(mode := Ready)
      else if kind == KLogic && m == Message(System, KInfo, UnlockNotice) then r.(mode := Ready, phase := CODE)
      else r.(mode := Broken)
    case Graded(bucket) =>
      if bucket == Accepted && m == Message(System, KInfo, SuccessNotice) then r.(mode := Ready, phase := DONE)
      else if bucket != Accepted && IsHint(m) then r.(mode := Ready)
      else r.(mode := Broken)
    case Broken => r
  }

  predicate IsHint(m: Message) {
    m.role == Tutor && m.kind == KHint && m.content.Typed?
  }

  function Recover(ms: seq<Message>): Recovered {
    if ms == [] then Recovered(Ready, LOGIC, 0, 0, 0) else Observe(Recover(ms[..|ms| - 1]), ms[|ms| - 1])
  }

  lemma RecoverAppend(ms: seq<Message>, m: Message)
    ensures Recover(ms + [m]) == Observe(Recover(ms), m)
  {
    assert (ms + [m])[..|ms|] == ms;
  }

  // What the fold must have reached when the session is about to run c.next.
  function ExpectedMode(c: Checkpoint): Mode {
    var asked := if c.s.pendingEvent.Some? then c.s.pendingEvent.value.etype else EChat;
    var graded := if c.s.lastExecution.Some? then Graded(c.s.lastExecution.value.bucket) else Broken;
    match c.next
    case AwaitInput => Ready
    case End => Ready
    case EvaluateLogic => Asked(KLogic)
    case SummarizeLogic => Asked(KLogic)
    case LogicTutor => Asked(if asked == ELogic then KLogic else KChat)
    case VerifyLogic => Asked(if asked == ELogic then KLogic else KChat)
    case ExecuteCode => Asked(KCode)
    case CodeTutor => if asked == ECode then graded else Asked(KChat)
    case VerifyCode => if asked == ECode then graded else Asked(KChat)
    case Finish => graded
  }

  // The fold agrees with the state; an attempt still being judged is not counted yet.
  predicate Told(c: Checkpoint) {
    var r := Recover(c.s.messages);
    && r.mode == ExpectedMode(c) && r.mode != Broken
    && r.phase == c.s.phase
    && r.logicAsked == c.s.attempts.logic + (if c.next == EvaluateLogic then 1 else 0)
    && r.codeAsked == c.s.attempts.code + r.infra + (if c.next == ExecuteCode then 1 else 0)
    && (c.next == CodeTutor && r.mode.Graded? ==> r.mode.bucket != Accepted)
    && (c.next == VerifyCode && r.mode.Graded? ==> r.mode.bucket != Accepted)
  }

  lemma EventIsTold(c: Checkpoint, e: Event)
    requires Gated(c) && Told(c) && c.next == AwaitInput
    requires ValidateEvent(e, c.s.phase) == Allowed
    ensures Told(Resume(c, e))
  {
    hide Resume, Observe, Recover, ValidateEvent, Gated;
    EventCommits(c, e);
    var m := Message(Student, KindOf(e.etype), Typed(e.text));
    ObserveQuestion(Recover(c.s.messages), m);
    RecoverAppend(c.s.messages, m);
  }

  lemma ObserveQuestion(r: Recovered, m: Message)
    requires r.mode == Ready && m.role == Student && m.content.Typed?
    requires (m.kind == KLogic && r.phase == LOGIC) || (m.kind == KCode && r.phase == CODE)
             || (m.kind == KChat && r.phase != DONE)
    ensures Observe(r, m) == r.(mode := Asked(m.kind),
                                logicAsked := r.logicAsked + (if m.kind == KLogic then 1 else 0),
                                codeAsked := r.codeAsked + (if m.kind == KCode then 1 else 0))
  {
  }

  lemma EventCommits(c: Checkpoint, e: Event)
    requires c.next == AwaitInput && ValidateEvent(e, c.s.phase) == Allowed
    ensures var d := Resume(c, e);
            && d.s.messages == c.s.messages + [Message(Student, KindOf(e.etype), Typed(e.text))]
            && d.s.pendingEvent == Some(e) && d.s.phase == c.s.phase && d.s.attempts == c.s.attempts
            && d.s.lastExecution == c.s.lastExecution
            && match e.etype
               case ELogic => c.s.phase == LOGIC && d.next == EvaluateLogic
               case ECode => c.s.phase == CODE && d.next == ExecuteCode
               case EChat => (c.s.phase == LOGIC && d.next == LogicTutor) || (c.s.phase == CODE && d.next == CodeTutor)
               case EOther(_) => false
  {
  }

  // An update that says nothing.
  lemma SilentIsTold(cfg: Config, c: Checkpoint, u: Update)
    requires Gated(c) && InStep(c) && Told(c) && Legal(cfg, c, u)
    requires u.Evaluated? || u.Drafted? || (u.Refused? && DraftPending(c.s))
    ensures Told(Commit(c, u))
  {
    var d := Commit(c, u);
    assert d.s.messages == c.s.messages && d.s.phase == c.s.phase;
    assert d.s.pendingEvent == c.s.pendingEvent && d.s.lastExecution == c.s.lastExecution;
    assert u.Refused? ==> d.next == if c.next == VerifyLogic then LogicTutor else CodeTutor;
  }

  // A hint closes a turn that asked for logic or a chat, or whose code was graded but not accepted.
  lemma ObserveHint(r: Recovered, m: Message)
    requires IsHint(m)
    requires r.mode == Asked(KLogic) || r.mode == Asked(KChat) || (r.mode.Graded? && r.mode.bucket != Accepted)
    ensures Observe(r, m) == r.(mode := Ready)
  {
  }

  lemma HintCommits(cfg: Config, c: Checkpoint, u: Update)
    requires Legal(cfg, c, u) && (u.Cleared? || u.GaveUp?)
    ensures c.next == VerifyLogic || c.next == VerifyCode
    ensures var d := Commit(c, u);
            && d.s.messages == c.s.messages + [Message(Tutor, KHint, Typed(u.text))] && d.next == AwaitInput
            && d.s.phase == c.s.phase && d.s.attempts == c.s.attempts
  {
  }

  // A tutor message closes the turn.
  lemma HintIsTold(cfg: Config, c: Checkpoint, u: Update)
    requires Gated(c) && InStep(c) && Told(c) && Legal(cfg, c, u)
    requires u.Cleared? || u.GaveUp?
    ensures Told(Commit(c, u))
  {
    hide Commit, Observe, Recover, Legal, Gated;
    HintCommits(cfg, c, u);
    var m := Message(Tutor, KHint, Typed(u.text));
    ObserveHint(Recover(c.s.messages), m);
    RecoverAppend(c.s.messages, m);
  }

  // A notice unlocks the editor, reports a run or ends the session.
  lemma UnlockIsTold(cfg: Config, c: Checkpoint, u: Update)
    requires Gated(c) && InStep(c) && Told(c) && Legal(cfg, c, u) && u.Summarized?
    ensures Told(Commit(c, u))
  {
    var d := Commit(c, u);
    var m := Message(System, KInfo, UnlockNotice);
    assert d.s.messages == c.s.messages + [m] && d.next == AwaitInput;
    RecoverAppend(c.s.messages, m);
  }

  function ResultMessage(e: Execution): Message {
    if e.bucket == InfraError then Message(System, KInfo, InfraNotice)
    else Message(System, KResult, ResultNotice(e.bucket, e.passed, e.total))
  }

  lemma ObserveResult(r: Recovered, e: Execution)
    requires r.mode == Asked(KCode)
    ensures Observe(r, ResultMessage(e)) == if e.bucket == InfraError then r.(mode := Ready, infra := r.infra + 1)
                                            else r.(mode := Graded(e.bucket))
  {
  }

  lemma ResultCommits(cfg: Config, c: Checkpoint, u: Update)
    requires Legal(cfg, c, u) && u.Executed?
    ensures c.next == ExecuteCode
    ensures var d, e := Commit(c, u), u.execution;
            && d.s.messages == c.s.messages + [ResultMessage(e)] && d.s.lastExecution == Some(e)
            && d.next == (if e.bucket == Accepted then Finish
                          else if e.bucket == InfraError then AwaitInput else CodeTutor)
            && d.s.attempts.code == c.s.attempts.code + (if e.bucket == InfraError then 0 else 1)
            && d.s.phase == c.s.phase && d.s.attempts.logic == c.s.attempts.logic
            && d.s.pendingEvent == c.s.pendingEvent
  {
  }

  lemma ResultIsTold(cfg: Config, c: Checkpoint, u: Update)
    requires Gated(c) && InStep(c) && Told(c) && Legal(cfg, c, u) && u.Executed?
    ensures Told(Commit(c, u))
  {
    hide Commit, Observe, Recover, Legal, Gated, ResultMessage;
    ResultCommits(cfg, c, u);
    ObserveResult(Recover(c.s.messages), u.execution);
    RecoverAppend(c.s.messages, ResultMessage(u.execution));
  }

  lemma SuccessIsTold(cfg: Config, c: Checkpoint, u: Update)
    requires Gated(c) && InStep(c) && Told(c) && Legal(cfg, c, u) && u.Finished?
    ensures Told(Commit(c, u))
  {
    var d := Commit(c, u);
    var m := Message(System, KInfo, SuccessNotice);
    assert d.s.messages == c.s.messages + [m] && d.next == End;
    RecoverAppend(c.s.messages, m);
  }

  lemma StepIsTold(cfg: Config, c: Checkpoint, i: Input)
    requires Gated(c) && InStep(c) && Told(c) && Budgeted(cfg, c)
    requires i.Say? ==> ValidateEvent(i.event, c.s.phase) == Allowed
    ensures Told(Step(cfg, c, i))
  {
    StepIsMove(cfg, c, i);
    match MoveOf(cfg, c, i)
    case Stays =>
    case Hears(e) => EventIsTold(c, e);
    case Does(u) =>
      match u
      case Cleared(_) => HintIsTold(cfg, c, u);
      case GaveUp(_, _) => HintIsTold(cfg, c, u);
      case Summarized(_, _) => UnlockIsTold(cfg, c, u);
      case Executed(_) => ResultIsTold(cfg, c, u);
      case Finished => SuccessIsTold(cfg, c, u);
      case Evaluated(_) => SilentIsTold(cfg, c, u);
      case Drafted(_) => SilentIsTold(cfg, c, u);
      case Refused(_) => SilentIsTold(cfg, c, u);
  }

  lemma {:induction false} RunsAreTold(cfg: Config, p: string, u: string, t: string, inputs: seq<Input>)
    requires Validated(cfg, Initial(p, u, t), inputs)
    ensures Told(Run(cfg, Initial(p, u, t), inputs))
  {
    if inputs != [] {
      var before := inputs[..|inputs| - 1];
      RunsAreTold(cfg, p, u, t, before);
      ValidatedRuns(cfg, p, u, t, before);
      RunsStayInBudget(cfg, p, u, t, before);
      StepIsTold(cfg, Run(cfg, Initial(p, u, t), before), inputs[|inputs| - 1]);
    }
  }

  // ---------------------------------------------------------------- counted by hand

  function Count(ms: seq<Message>, role: Role, kind: Kind): nat {
    if ms == [] then 0 else
      Count(ms[..|ms| - 1], role, kind)
      + if ms[|ms| - 1].role == role && ms[|ms| - 1].kind == kind then 1 else 0
  }

  function CountNotice(ms: seq<Message>, notice: Content): nat {
    if ms == [] then 0 else
      CountNotice(ms[..|ms| - 1], notice)
      + if ms[|ms| - 1] == Message(System, KInfo, notice) then 1 else 0
  }

  lemma {:induction false} FoldCounts(ms: seq<Message>)
    requires Recover(ms).mode != Broken
    ensures var r := Recover(ms);
            && r.logicAsked == Count(ms, Student, KLogic)
            && r.codeAsked == Count(ms, Student, KCode)
            && r.infra == CountNotice(ms, InfraNotice)
            && CountNotice(ms, UnlockNotice) == (if r.phase == LOGIC then 0 else 1)
            && CountNotice(ms, SuccessNotice) == (if r.phase == DONE then 1 else 0)
            && (r.mode.Asked? && r.mode.kind == KLogic ==> r.phase == LOGIC)
            && (r.mode.Asked? && r.mode.kind == KCode ==> r.phase == CODE)
            && (r.mode.Graded? ==> r.phase == CODE)
  {
    if ms != [] {
      FoldCounts(ms[..|ms| - 1]);
    }
  }

  /** In every validated run, whenever the session waits: each logic message was charged,
    * each code message was charged or answered by the infrastructure notice, the editor was
    * unlocked once if the phase is past LOGIC and never otherwise. */
  lemma TranscriptTellsTheSession(cfg: Config, p: string, u: string, t: string, inputs: seq<Input>)
    requires Validated(cfg, Initial(p, u, t), inputs)
    requires Suspended(Run(cfg, Initial(p, u, t), inputs))
    ensures var s := Run(cfg, Initial(p, u, t), inputs).s;
            && Recover(s.messages).mode == Ready && Recover(s.messages).phase == s.phase
            && Count(s.messages, Student, KLogic) == s.attempts.logic
            && Count(s.messages, Student, KCode) == s.attempts.code + CountNotice(s.messages, InfraNotice)
            && CountNotice(s.messages, UnlockNotice) == (if s.phase == LOGIC then 0 else 1)
            && CountNotice(s.messages, SuccessNotice) == (if s.phase == DONE then 1 else 0)
  {
    hide Run, Validated;
    RunsAreTold(cfg, p, u, t, inputs);
    FoldCounts(Run(cfg, Initial(p, u, t), inputs).s.messages);
  }

  // Two waiting sessions with the same transcript stand at the same point, however they
  // were configured and whatever the services answered them.
  lemma SameTranscriptSameStanding(
    cfg1: Config, p1: string, u1: string, t1: string, inputs1: seq<Input>,
    cfg2: Config, p2: string, u2: string, t2: string, inputs2: seq<Input>)
    requires Validated(cfg1, Initial(p1, u1, t1), inputs1) && Suspended(Run(cfg1, Initial(p1, u1, t1), inputs1))
    requires Validated(cfg2, Initial(p2, u2, t2), inputs2) && Suspended(Run(cfg2, Initial(p2, u2, t2), inputs2))
    requires Run(cfg1, Initial(p1, u1, t1), inputs1).s.messages == Run(cfg2, Initial(p2, u2, t2), inputs2).s.messages
    ensures var c1, c2 := Run(cfg1, Initial(p1, u1, t1), inputs1), Run(cfg2, Initial(p2, u2, t2), inputs2);
            c1.s.phase == c2.s.phase && c1.s.attempts == c2.s.attempts && c1.next == c2.next
  {
    TranscriptTellsTheSession(cfg1, p1, u1, t1, inputs1);
    TranscriptTellsTheSession(cfg2, p2, u2, t2, inputs2);
    RunsAreGated(cfg1, p1, u1, t1, inputs1);
    RunsAreGated(cfg2, p2, u2, t2, inputs2);
  }

  // ---------------------------------------------------------------- whole turns

  predicate IsResult(m: Message) {
    m.role == System && m.kind == KResult && m.content.ResultNotice? && m.content.bucket != InfraError
  }

  predicate IsNotice(m: Message, notice: Content) {
    m.role == System && m.kind == KInfo && m.content == notice
  }

  // The one reply that can close a turn asked by q.
  predicate Answers(q: Message, m: Message) {
    match q.kind
    case KLogic => IsHint(m) || IsNotice(m, UnlockNotice)
    case KChat => IsHint(m)
    case KCode => IsNotice(m, InfraNotice)
    case _ => false
  }

  // A result and what follows it: success, or exactly one hint.
  predicate Discusses(result: Message, m: Message) {
    IsResult(result) && if result.content.bucket == Accepted then IsNotice(m, SuccessNotice) else IsHint(m)
  }

  /** Messages i up to j: a logic or chat message and one hint, a logic message and the unlock
    * notice, a code message and the infrastructure notice, or a code message, its result, and
    * then the success notice or one hint. */
  predicate IsTurn(ms: seq<Message>, i: nat, j: nat) {
    && i + 2 <= j <= i + 3 && j <= |ms| && ms[i].role == Student && ms[i].content.Typed?
    && if j == i + 2 then Answers(ms[i], ms[i + 1])
       else ms[i].kind == KCode && Discusses(ms[i + 1], ms[i + 2])
  }

  // In a turn the tutor speaks at most once, and last; the student not again.
  lemma TutorSpeaksOnce(ms: seq<Message>, i: nat, j: nat, k: nat)
    requires IsTurn(ms, i, j) && i < k < j
    ensures ms[k].role != Student && (ms[k].role == Tutor ==> k == j - 1 && IsHint(ms[k]))
    ensures ms[j - 1].role == Tutor <==>
              if ms[i].kind == KCode then j == i + 3 && ms[i + 1].content.bucket != Accepted
              else !IsNotice(ms[j - 1], UnlockNotice)
  {
  }

  // The first n messages are whole turns.
  predicate Turns(ms: seq<Message>, n: nat) {
    n == 0
    || (n >= 2 && IsTurn(ms, n - 2, n) && Turns(ms, n - 2))
    || (n >= 3 && IsTurn(ms, n - 3, n) && Turns(ms, n - 3))
  }

  // A student message that awaits its answer.
  predicate IsQuestion(m: Message, kind: Kind) {
    m.role == Student && m.content.Typed? && m.kind == kind && (kind == KLogic || kind == KChat || kind == KCode)
  }

  // Which messages open, continue and close a turn.
  lemma ObserveShape(r: Recovered, m: Message, q: Message)
    ensures var mode := Observe(r, m).mode;
            && (mode.Asked? ==> r.mode == Ready && IsQuestion(m, mode.kind))
            && (mode.Graded? ==> r.mode == Asked(KCode) && IsResult(m) && m.content.bucket == mode.bucket)
            && (mode == Ready ==> r.mode.Asked? || r.mode.Graded?)
            && (mode == Ready && r.mode.Asked? && IsQuestion(q, r.mode.kind) ==> Answers(q, m))
            && (mode == Ready && r.mode.Graded? && IsResult(q) && q.content.bucket == r.mode.bucket ==> Discusses(q, m))
  {
  }

  // A transcript the fold accepts is whole turns, and at most two messages of an open one.
  lemma {:induction false} AcceptedIsTurns(ms: seq<Message>, n: nat)
    requires n <= |ms|
    ensures var mode := Recover(ms[..n]).mode;
            && (mode == Ready ==> Turns(ms, n))
            && (mode.Asked? ==> n >= 1 && IsQuestion(ms[n - 1], mode.kind) && Turns(ms, n - 1))
            && (mode.Graded? ==> n >= 2 && IsQuestion(ms[n - 2], KCode) && Turns(ms, n - 2)
                                 && IsResult(ms[n - 1]) && ms[n - 1].content.bucket == mode.bucket)
  {
    hide Observe;
    if n > 0 {
      AcceptedIsTurns(ms, n - 1);
      var r, m := Recover(ms[..n - 1]), ms[n - 1];
      RecoverAppend(ms[..n - 1], m);
      assert ms[..n] == ms[..n - 1] + [m];
      ObserveShape(r, m, if n > 1 then ms[n - 2] else m);
    }
  }

  // In every validated run, a waiting session's transcript is a sequence of whole turns.
  lemma TranscriptIsTurns(cfg: Config, p: string, u: string, t: string, inputs: seq<Input>)
    requires Validated(cfg, Initial(p, u, t), inputs)
    requires Suspended(Run(cfg, Initial(p, u, t), inputs))
    ensures var ms := Run(cfg, Initial(p, u, t), inputs).s.messages; Turns(ms, |ms|)
  {
    RunsAreTold(cfg, p, u, t, inputs);
    var ms := Run(cfg, Initial(p, u, t), inputs).s.messages;
    AcceptedIsTurns(ms, |ms|);
    assert ms[..|ms|] == ms;
  }

  // ---------------------------------------------------------------- what the student reads

  lemma {:induction false} ValidatedPrefix(cfg: Config, c: Checkpoint, inputs: seq<Input>, j: nat)
    requires j <= |inputs| && Validated(cfg, c, inputs)
    ensures Validated(cfg, c, inputs[..j])
    decreases |inputs|
  {
    if j < |inputs| {
      var before := inputs[..|inputs| - 1];
      assert before[..j] == inputs[..j];
      ValidatedPrefix(cfg, c, before, j);
    } else {
      assert inputs[..j] == inputs;
    }
  }

  /** The transcript alone, in every validated run under a self-consistent rubric: until the editor
    * is unlocked no tutor message shows code, names a rubric term or runs over 120 words; after
    * that none defines the entrypoint, shows four lines of code in a segment or runs over 160. */
  lemma TutorKeepsTheSecret(
    cfg: Config, p: string, u: string, t: string, inputs: seq<Input>, rubric: Rubric, k: nat)
    requires Validated(cfg, Initial(p, u, t), inputs)
    requires SelfConsistent(rubric) && OneRubric(inputs, p, rubric)
    requires k < |Run(cfg, Initial(p, u, t), inputs).s.messages|
    requires Run(cfg, Initial(p, u, t), inputs).s.messages[k].role == Tutor
    ensures var ms := Run(cfg, Initial(p, u, t), inputs).s.messages;
            && ms[k].content.Typed?
            && if CountNotice(ms[..k], UnlockNotice) == 0
               then FitsLogic(ms[k].content.text, rubric) && NamesNoToken(ms[k].content.text, rubric)
               else FitsCode(ms[k].content.text, rubric) && !HandsOverCode(ms[k].content.text)
  {
    hide SelfConsistent, FitsLogic, FitsCode, HandsOverCode, NamesNoToken, Vetted, Validated, Step;
    var c0 := Initial(p, u, t);
    var j := TutorNeverGivesItAway(cfg, p, u, t, inputs, rubric, k);
    var c := Run(cfg, c0, inputs[..j]);
    RunsMoveForward(cfg, p, u, t, inputs, j);
    assert c.s.messages == Run(cfg, c0, inputs).s.messages[..k];
    ValidatedPrefix(cfg, c0, inputs, j);
    RunsAreTold(cfg, p, u, t, inputs[..j]);
    FoldCounts(c.s.messages);
  }
}
