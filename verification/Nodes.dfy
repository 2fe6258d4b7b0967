/** The nodes as the source runs them, statement by statement over a cache object, each proved to
  * leave what the session graph says. */
module Nodes {
  import opened Text
  import opened Verifier
  import opened Redaction
  import opened Keys
  import opened Llm
  import opened Session
  import opened SessionSafety
  import opened VerdictCache

  // The state with a node's update merged; None if the node raised.
  function Left(c: Checkpoint, update: Option<Update>): Option<State> {
    match update
    case None => None
    case Some(u) => Some(Merge(c.next, c.s, u))
  }

  // The event starts a turn with a clean slate, says what the student said, and decides nothing.
  method AwaitEvent(s: State, e: Event) returns (t: State)
    ensures t == Receive(s, e)
    ensures t.pendingEvent == Some(e) && t.draft.None? && t.nodePath == [AwaitInput]
    ensures t.regenerations == 0 && t.rejections == [] && !t.fallbackUsed
    ensures t.messages == s.messages +
              if e.etype.EOther? then [] else [Message(Student, KindOf(e.etype), Typed(e.text))]
    ensures t.userLogic == (if e.etype == ELogic then e.text else s.userLogic)
    ensures t.userCode == (if e.etype == ECode then e.text else s.userCode)
    ensures t.phase == s.phase && t.attempts == s.attempts && t.acceptedLogic == s.acceptedLogic
    ensures t.lastEval == s.lastEval && t.lastExecution == s.lastExecution
  {
    t := s.(pendingEvent := Some(e), nodePath := [AwaitInput]);
    t := t.(regenerations := 0, rejections := [], fallbackUsed := false, draft := None);
    if e.etype == ELogic {
      t := t.(userLogic := e.text, status := LOGIC_WRITE);
      t := t.(messages := s.messages + [Message(Student, KLogic, Typed(e.text))]);
    } else if e.etype == ECode {
      t := t.(userCode := e.text, status := CODE_WRITE);
      t := t.(messages := s.messages + [Message(Student, KCode, Typed(e.text))]);
    } else if e.etype == EChat {
      t := t.(status := if s.phase == LOGIC then LOGIC_CHAT else CODE_CHAT);
      t := t.(messages := s.messages + [Message(Student, KChat, Typed(e.text))]);
    }
  }

  method EvaluateText(cfg: Config, c: Checkpoint, w: World, cache: Cache, readable: bool, writable: bool)
    returns (t: Option<State>)
    requires c.next == EvaluateLogic
    modifies cache
    ensures var met := Through(w, old(cache.rows), readable);
            && t == Left(c, EvaluateLogicNode(cfg, c.s, met))
            && cache.rows == Kept(old(cache.rows), Stored(cfg, c, met), writable)
    ensures w.context(c.s.problemId).None? ==> t.None? && cache.rows == old(cache.rows)
    ensures w.context(c.s.problemId).Some? ==>
              var ctx, rows := w.context(c.s.problemId).value, old(cache.rows);
              var key := CacheKey("verdict", c.s.problemId, ctx.rubricVersion, c.s.userLogic);
              if readable && key in rows then
                && cache.rows == rows && t.Some? && t.value.lastEval.Some? && t.value.lastEval.value.cacheHit
                && (rows[key].VerdictPayload? ==>
                      t.value.lastEval.value.(cacheHit := false) == rows[key].evaluation.(cacheHit := false))
              else
                var reply := ParsedReply(w.evaluator(EvaluatorPrompt(ctx.title, ctx.description, ctx.rubric,
                                                                     c.s.userLogic)), w.parseVerdict);
                if reply.None? then t.None? && cache.rows == rows
                else
                  && t.Some? && t.value.lastEval.Some?
                  && var e, p := t.value.lastEval.value, reply.value;
                  && e.verdict == (if Uncertain(cfg, p) then Flagged else if p.pass then Pass else Fail)
                  && e == Evaluation(e.verdict, p.matchedApproach, p.missingSteps, p.violatedInvariants,
                                     p.misconceptionId, p.confidence, false)
                  && cache.rows == if writable && key !in rows then rows[key := VerdictPayload(e)] else rows
    ensures t.Some? ==>
              t.value == c.s.(lastEval := t.value.lastEval, nodePath := c.s.nodePath + [EvaluateLogic],
                              attempts := Attempts(c.s.attempts.logic + 1, c.s.attempts.code))
  {
    var s := c.s;
    var context := w.context(s.problemId);
    if context.None? { return None; }
    var ctx := context.value;
    var attempts := s.attempts.(logic := s.attempts.logic + 1);
    var key := CacheKey("verdict", s.problemId, ctx.rubricVersion, s.userLogic);
    var cached := cache.Get(key, readable);
    var evaluation;
    if cached.Some? {
      evaluation := AsEvaluation(cached.value).(cacheHit := true);
    } else {
      var prompt := EvaluatorPrompt(ctx.title, ctx.description, ctx.rubric, s.userLogic);
      var parsed, _ := CompleteJson(w.evaluator(prompt), w.parseVerdict);
      if parsed.None? { return None; }
      var p := parsed.value;
      var verdict := FlaggedRule(cfg, p);
      evaluation := Evaluation(verdict, p.matchedApproach, p.missingSteps, p.violatedInvariants,
                               p.misconceptionId, p.confidence, false);
      cache.Put(key, VerdictPayload(evaluation), writable);
    }
    t := Some(s.(lastEval := Some(evaluation), attempts := attempts, nodePath := s.nodePath + [EvaluateLogic]));
  }

  method Summarize(cfg: Config, c: Checkpoint, w: World, cache: Cache, readable: bool, writable: bool)
    returns (t: Option<State>)
    requires c.next == SummarizeLogic
    modifies cache
    ensures var met := Through(w, old(cache.rows), readable);
            && t == Left(c, Some(SummarizeLogicNode(c.s, met)))
            && cache.rows == Kept(old(cache.rows), Stored(cfg, c, met), writable)
  {
    var s := c.s;
    var summary, accepted := WriteSummary(s, w, cache, readable, writable);
    t := Some(s.(logicSummary := Some(summary), acceptedLogic := Some(accepted), phase := CODE, status := CODE_WRITE,
                 messages := s.messages + [Message(System, KInfo, UnlockNotice)],
                 nodePath := s.nodePath + [SummarizeLogic]));
  }

  // The row a summary computed for s is stored as.
  function SummaryRow(s: State, w: World): Option<(string, Payload)> {
    match (w.cacheGet(SummaryKey(s, w)), FreshSummary(s, w))
    case (None, Some(sm)) => Some((SummaryKey(s, w), SummaryPayload(sm)))
    case _ => None
  }

  method WriteSummary(s: State, w: World, cache: Cache, readable: bool, writable: bool)
    returns (summary: Summary, accepted: string)
    modifies cache
    ensures var met := Through(w, old(cache.rows), readable);
            && Summarized(summary, accepted) == SummarizeLogicNode(s, met)
            && cache.rows == Kept(old(cache.rows), SummaryRow(s, met), writable)
    ensures accepted == if summary.finalLogicText != "" then summary.finalLogicText else s.userLogic
    ensures var version := if w.context(s.problemId).Some? then w.context(s.problemId).value.rubricVersion else 1;
            var key, rows := CacheKey("summary", s.problemId, version, s.userLogic), old(cache.rows);
            var prompt := SummaryPrompt(s.userLogic, EarlierAttempts(s.messages, s.userLogic));
            var reply := ParsedReply(w.summarizer(prompt), w.parseSummary);
            if readable && key in rows then
              cache.rows == rows && (rows[key].SummaryPayload? ==> summary == rows[key].summary)
            else if reply.Some? then
              && summary.(finalLogicText := "") == reply.value.(finalLogicText := "")
              && summary.finalLogicText == (if reply.value.finalLogicText != "" then reply.value.finalLogicText
                                            else s.userLogic)
              && cache.rows == if writable && key !in rows then rows[key := SummaryPayload(summary)] else rows
            else
              cache.rows == rows && summary == Summary("", [], [], s.userLogic)
  {
    var earlier := CollectAttempts(s.messages, s.userLogic);
    var version := 1;
    var context := w.context(s.problemId);
    if context.Some? { version := context.value.rubricVersion; }

    var key := CacheKey("summary", s.problemId, version, s.userLogic);
    var cached := cache.Get(key, readable);
    if cached.Some? {
      summary := AsSummary(cached.value);
      accepted := if summary.finalLogicText != "" then summary.finalLogicText else s.userLogic;
      return;
    }
    var parsed, _ := CompleteJson(w.summarizer(SummaryPrompt(s.userLogic, earlier)), w.parseSummary);
    if parsed.Some? {
      summary := parsed.value;
      if summary.finalLogicText == "" {
        summary := summary.(finalLogicText := s.userLogic);
      }
      cache.Put(key, SummaryPayload(summary), writable);
    } else {
      summary := Summary("", [], [], s.userLogic);
    }
    accepted := summary.finalLogicText;
  }

  method CollectAttempts(messages: seq<Message>, current: string) returns (earlier: seq<string>)
    ensures earlier == EarlierAttempts(messages, current)
    ensures forall text :: text in earlier <==> text != current && Message(Student, KLogic, Typed(text)) in messages
  {
    earlier := [];
    for n := 0 to |messages|
      invariant earlier == EarlierAttempts(messages[..n], current)
      invariant forall text ::
                  text in earlier <==> text != current && Message(Student, KLogic, Typed(text)) in messages[..n]
    {
      var m := messages[n];
      assert messages[..n + 1] == messages[..n] + [m];
      if m.role == Student && m.kind == KLogic && m.content.Typed? && m.content.text != current {
        earlier := earlier + [m.content.text];
      }
    }
    assert messages[..|messages|] == messages;
  }

  // The attempts are in the order of the transcript, each as often as it was made: a further message
  // adds its text if it is one, and changes nothing else.
  lemma EarlierInOrder(ms: seq<Message>, m: Message, current: string)
    ensures EarlierAttempts([], current) == []
    ensures EarlierAttempts(ms + [m], current) == EarlierAttempts(ms, current) +
              if m.content.Typed? && m == Message(Student, KLogic, Typed(m.content.text)) && m.content.text != current
              then [m.content.text] else []
  {
    assert (ms + [m])[..|ms|] == ms;
  }

  // A draft that is there is not empty, and nothing of it is said yet.
  method DraftReply(c: Checkpoint, w: World) returns (t: Option<State>)
    requires c.next == LogicTutor || c.next == CodeTutor
    ensures t == Left(c, TutorNode(c, w))
    ensures t.None? <==> PromptAt(c, w).None? || Complete(w.tutor(PromptAt(c, w).value)).None?
    ensures t.Some? ==>
              && t.value.draft.Some? && t.value.draft.value != ""
              && t.value == c.s.(draft := Complete(w.tutor(PromptAt(c, w).value)), nodePath := c.s.nodePath + [c.next])
  {
    var prompt := PromptAt(c, w);
    if prompt.None? { return None; }
    var draft := Complete(w.tutor(prompt.value));
    if draft.None? { return None; }
    t := Some(c.s.(draft := draft, nodePath := c.s.nodePath + [c.next]));
  }

  // What is said is vetted by the check of the phase; what is not vetted is not said.
  method VerifyDraft(cfg: Config, c: Checkpoint, w: World) returns (t: Option<State>)
    requires c.next == VerifyLogic || c.next == VerifyCode
    ensures t == Left(c, VerifierNode(cfg, c, w))
    ensures t.None? <==> w.context(c.s.problemId).None?
    ensures t.Some? && t.value.messages != c.s.messages ==>
              exists text :: t.value.messages == c.s.messages + [Message(Tutor, KHint, Typed(text))]
                             && Vetted(c.next, c.s, w.context(c.s.problemId).value.rubric, text)
  {
    hide Check, Fallback;
    var context := w.context(c.s.problemId);
    if context.None? { return None; }
    var rubric := context.value.rubric;
    var draft := if c.s.draft.Some? then c.s.draft.value else "";
    var found := CheckDraft(c.next, draft, rubric);
    var left := Rule(cfg, c, rubric, draft, found);
    t := Some(left);
  }

  method CheckDraft(node: Node, draft: string, rubric: Rubric) returns (found: seq<Reason>)
    ensures found == Check(node, draft, rubric)
    ensures found == [] <==> if node == VerifyLogic then FitsLogic(draft, rubric) else FitsCode(draft, rubric)
  {
    if node == VerifyLogic {
      found := CheckLogicDraft(draft, rubric);
    } else {
      found := CheckCodeDraft(draft, rubric);
    }
  }

  /** Deliver the draft, deliver the canned reply, or leave the draft to be written again. The draft
    * survives only if it was refused with a try left, and then nothing is said. */
  method Rule(cfg: Config, c: Checkpoint, rubric: Rubric, draft: string, found: seq<Reason>) returns (t: State)
    ensures t == Merge(c.next, c.s,
                       if found == [] then Cleared(draft)
                       else if c.s.regenerations + 1 > cfg.maxRegenerations
                       then GaveUp(found, Fallback(c.next, c.s, rubric))
                       else Refused(found))
    ensures t.messages == c.s.messages <==> found != [] && t.regenerations <= cfg.maxRegenerations
    ensures t.messages != c.s.messages ==>
              var text := if found == [] then draft else Fallback(c.next, c.s, rubric);
              t.draft.None? && t.messages == c.s.messages + [Message(Tutor, KHint, Typed(text))]
    ensures t.messages == c.s.messages ==> t.draft == c.s.draft && t.status == c.s.status
    ensures t.fallbackUsed <==> c.s.fallbackUsed || (found != [] && t.regenerations > cfg.maxRegenerations)
    ensures t.rejections == c.s.rejections + found
    ensures t.regenerations == c.s.regenerations + if found == [] then 0 else 1
    ensures t.phase == c.s.phase && t.attempts == c.s.attempts
  {
    var s := c.s;
    t := s.(nodePath := s.nodePath + [c.next]);
    if found == [] {
      t := t.(messages := s.messages + [Message(Tutor, KHint, Typed(draft))], draft := None,
              status := ChatStatus(c.next));
      return;
    }
    t := t.(regenerations := s.regenerations + 1, rejections := s.rejections + found);
    if t.regenerations > cfg.maxRegenerations {
      var fallback := Fallback(c.next, s, rubric);
      t := t.(messages := s.messages + [Message(Tutor, KHint, Typed(fallback))], draft := None,
              fallbackUsed := true, status := ChatStatus(c.next));
    }
  }

  /** Whatever the service answers, an execution is recorded and one message says what became of it.
    * The attempt is charged exactly when the sandbox gave a verdict; an unreachable service counts
    * as a sandbox failure over no tests. */
  method RunCode(c: Checkpoint, w: World) returns (t: State)
    requires c.next == ExecuteCode
    ensures t == Merge(ExecuteCode, c.s, ExecuteCodeNode(c.s, w))
    ensures t.lastExecution.Some?
    ensures w.execute(c.s.problemId, c.s.userCode).Answered? ==>
              t.lastExecution.value == w.execute(c.s.problemId, c.s.userCode).execution
    ensures w.execute(c.s.problemId, c.s.userCode).Unreachable? ==>
              var e := t.lastExecution.value; e.bucket == InfraError && e.passed == e.total == 0
    ensures var e := t.lastExecution.value;
            && t.attempts.code == c.s.attempts.code + (if e.bucket == InfraError then 0 else 1)
            && t.attempts.logic == c.s.attempts.logic
            && t.messages == c.s.messages + [if e.bucket == InfraError then Message(System, KInfo, InfraNotice)
                                             else Message(System, KResult, ResultNotice(e.bucket, e.passed, e.total))]
    ensures t.phase == c.s.phase && t.userCode == c.s.userCode && t.acceptedLogic == c.s.acceptedLogic
  {
    var s := c.s;
    var attempts := s.attempts;
    t := s.(nodePath := s.nodePath + [ExecuteCode]);
    match w.execute(s.problemId, s.userCode) {
      case Unreachable(error) =>
        t := t.(lastExecution := Some(Execution(InfraError, 0, 0, false, [], error)),
                messages := s.messages + [Message(System, KInfo, InfraNotice)]);
      case Answered(e) =>
        if e.bucket != InfraError {
          attempts := attempts.(code := attempts.code + 1);
        }
        t := t.(lastExecution := Some(e), attempts := attempts);
        if e.bucket == InfraError {
          t := t.(messages := s.messages + [Message(System, KInfo, InfraNotice)]);
        } else {
          t := t.(messages := s.messages + [Message(System, KResult, ResultNotice(e.bucket, e.passed, e.total))]);
        }
    }
  }

  // The session is over, and its execution is the one that was accepted.
  method Conclude(s: State) returns (t: State)
    ensures t == Merge(Finish, s, Finished)
    ensures t.messages == s.messages + [Message(System, KInfo, SuccessNotice)]
    ensures t.phase == DONE && t.status == SUCCESS && t.lastExecution == s.lastExecution && t.userCode == s.userCode
  {
    t := s.(phase := DONE, status := SUCCESS, nodePath := s.nodePath + [Finish],
            messages := s.messages + [Message(System, KInfo, SuccessNotice)]);
  }

  // The other nodes neither read the table nor store a row.
  lemma OnlyTwoRead(cfg: Config, c: Checkpoint, w: World, rows: map<string, Payload>, readable: bool)
    ensures c.next != EvaluateLogic && c.next != SummarizeLogic ==>
              && NodeUpdate(cfg, c, Through(w, rows, readable)) == NodeUpdate(cfg, c, w)
              && Stored(cfg, c, Through(w, rows, readable)).None?
  {
  }
}
