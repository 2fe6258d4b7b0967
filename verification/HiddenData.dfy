/** Hidden data never influences anything a student or a tutor model sees: two sessions that
  * differ only in the data of hidden tests, in transport error texts and in the evaluator's
  * private rationale look the same forever. */
module HiddenData {
  import opened Text
  import opened Redaction
  import opened Llm
  import opened Session

  function EraseAnswer(a: Answer): Answer {
    match a
    case Answered(e) => Answered(Erase(Some(e)).value)
    case Unreachable(_) => Unreachable("")
  }

  // Answers that are alike may differ in the data of hidden tests, the retry flag and the text of a
  // failure, and in nothing else.
  lemma AnswersAlikeIff(a1: Answer, a2: Answer)
    ensures EraseAnswer(a1) == EraseAnswer(a2) <==>
            if a1.Answered? && a2.Answered? then
              var e1, e2 := a1.execution, a2.execution;
              && e1.bucket == e2.bucket && e1.passed == e2.passed && e1.total == e2.total && |e1.tests| == |e2.tests|
              && forall k :: 0 <= k < |e1.tests| ==> AlikeButHidden(e1.tests[k], e2.tests[k])
            else a1.Unreachable? && a2.Unreachable?
  {
    if a1.Answered? && a2.Answered? {
      ErasedAlikeIff(a1.execution, a2.execution);
    }
  }

  function SansRationale(p: Option<EvaluatorOutput>): Option<EvaluatorOutput> {
    match p case None => None case Some(o) => Some(o.(rationale := ""))
  }

  // Two moments of the outside world that differ only in what must stay hidden.
  ghost predicate TwinWorlds(w1: World, w2: World) {
    && w2 == w1.(execute := w2.execute, parseVerdict := w2.parseVerdict)
    && (forall p, src :: EraseAnswer(w1.execute(p, src)) == EraseAnswer(w2.execute(p, src)))
    && (forall raw :: SansRationale(w1.parseVerdict(raw)) == SansRationale(w2.parseVerdict(raw)))
  }

  ghost predicate TwinInputs(a: Input, b: Input) {
    match a
    case Say(e) => b == a
    case Work(w) => b.Work? && TwinWorlds(w, b.world)
  }

  function Blind(s: State): State {
    s.(lastExecution := Erase(s.lastExecution))
  }

  function BlindUpdate(u: Update): Update {
    if u.Executed? then Executed(Erase(Some(u.execution)).value) else u
  }

  ghost predicate Twins(c1: Checkpoint, c2: Checkpoint) {
    c1.next == c2.next && Blind(c1.s) == Blind(c2.s)
  }

  // Outside the last execution, twins agree on every field.
  lemma TwinsAgree(c1: Checkpoint, c2: Checkpoint)
    requires Twins(c1, c2)
    ensures c2.s == c1.s.(lastExecution := c2.s.lastExecution)
    ensures c1.s.lastExecution.Some? <==> c2.s.lastExecution.Some?
    ensures c1.s.lastExecution.Some? ==> c1.s.lastExecution.value.bucket == c2.s.lastExecution.value.bucket
    ensures TutorSummary(c1.s.lastExecution) == TutorSummary(c2.s.lastExecution)
    ensures StrippedView(c1.s.lastExecution) == StrippedView(c2.s.lastExecution)
  {
    ConsumersSeeErasedOnly(c1.s.lastExecution);
    ConsumersSeeErasedOnly(c2.s.lastExecution);
    var b1, b2 := Blind(c1.s), Blind(c2.s);
    assert b1.lastExecution == Erase(c1.s.lastExecution) && b2.lastExecution == Erase(c2.s.lastExecution);
    assert c1.s == b1.(lastExecution := c1.s.lastExecution);
    assert c2.s == b2.(lastExecution := c2.s.lastExecution);
  }

  lemma TwinPrompts(c1: Checkpoint, c2: Checkpoint, w1: World, w2: World)
    requires Twins(c1, c2) && TwinWorlds(w1, w2)
    ensures PromptAt(c1, w1) == PromptAt(c2, w2)
  {
    TwinsAgree(c1, c2);
    assert w1.context == w2.context;
  }

  lemma TwinEvaluations(cfg: Config, text: string, ctx: Context, w1: World, w2: World)
    requires TwinWorlds(w1, w2)
    ensures FreshEvaluation(cfg, text, ctx, w1) == FreshEvaluation(cfg, text, ctx, w2)
  {
    var ask := w1.evaluator(EvaluatorPrompt(ctx.title, ctx.description, ctx.rubric, text));
    assert w1.evaluator == w2.evaluator;
    var p1, p2 := ParsedReply(ask, w1.parseVerdict), ParsedReply(ask, w2.parseVerdict);
    assert SansRationale(p1) == SansRationale(p2) by {
      forall raw ensures SansRationale(w1.parseVerdict(raw)) == SansRationale(w2.parseVerdict(raw)) {}
    }
    if p1.Some? {
      assert Grade(cfg, p1.value) == Grade(cfg, SansRationale(p1).value);
      assert Grade(cfg, p2.value) == Grade(cfg, SansRationale(p2).value);
    }
  }

  // A node returns the same update to both twins, up to what is hidden.
  lemma TwinUpdates(cfg: Config, c1: Checkpoint, c2: Checkpoint, w1: World, w2: World)
    requires Twins(c1, c2) && TwinWorlds(w1, w2)
    ensures var u1, u2 := NodeUpdate(cfg, c1, w1), NodeUpdate(cfg, c2, w2);
            && (u1.Some? <==> u2.Some?)
            && (u1.Some? ==> BlindUpdate(u1.value) == BlindUpdate(u2.value))
  {
    TwinsAgree(c1, c2);
    match c1.next
    case AwaitInput =>
    case End =>
    case EvaluateLogic => TwinEvaluationNodes(cfg, c1.s, c2.s, w1, w2);
    case LogicTutor => TwinDrafts(c1, c2, w1, w2);
    case CodeTutor => TwinDrafts(c1, c2, w1, w2);
    case VerifyLogic => TwinRulings(cfg, c1, c2, w1, w2);
    case VerifyCode => TwinRulings(cfg, c1, c2, w1, w2);
    case SummarizeLogic => TwinSummaries(c1.s, c2.s, w1, w2);
    case ExecuteCode => TwinExecutions(c1.s, c2.s, w1, w2);
    case Finish =>
  }

  lemma TwinEvaluationNodes(cfg: Config, s1: State, s2: State, w1: World, w2: World)
    requires s2 == s1.(lastExecution := s2.lastExecution) && TwinWorlds(w1, w2)
    ensures EvaluateLogicNode(cfg, s1, w1) == EvaluateLogicNode(cfg, s2, w2)
  {
    if w1.context(s1.problemId).Some? {
      var ctx := w1.context(s1.problemId).value;
      TwinEvaluations(cfg, s1.userLogic, ctx, w1, w2);
    }
  }

  lemma TwinDrafts(c1: Checkpoint, c2: Checkpoint, w1: World, w2: World)
    requires Twins(c1, c2) && TwinWorlds(w1, w2)
    ensures TutorNode(c1, w1) == TutorNode(c2, w2)
  {
    TwinPrompts(c1, c2, w1, w2);
  }

  lemma TwinRulings(cfg: Config, c1: Checkpoint, c2: Checkpoint, w1: World, w2: World)
    requires Twins(c1, c2) && TwinWorlds(w1, w2)
    ensures VerifierNode(cfg, c1, w1) == VerifierNode(cfg, c2, w2)
  {
    hide Check;
    TwinsAgree(c1, c2);
  }

  lemma TwinSummaries(s1: State, s2: State, w1: World, w2: World)
    requires s2 == s1.(lastExecution := s2.lastExecution) && TwinWorlds(w1, w2)
    ensures SummarizeLogicNode(s1, w1) == SummarizeLogicNode(s2, w2)
  {
    assert SummaryKey(s1, w1) == SummaryKey(s2, w2);
    assert FreshSummary(s1, w1) == FreshSummary(s2, w2);
  }

  lemma TwinExecutions(s1: State, s2: State, w1: World, w2: World)
    requires s2 == s1.(lastExecution := s2.lastExecution) && TwinWorlds(w1, w2)
    ensures BlindUpdate(ExecuteCodeNode(s1, w1)) == BlindUpdate(ExecuteCodeNode(s2, w2))
  {
    var a1, a2 := w1.execute(s1.problemId, s1.userCode), w2.execute(s1.problemId, s1.userCode);
    assert EraseAnswer(a1) == EraseAnswer(a2);
  }

  // Merging and routing never look at an execution beyond its bucket.
  lemma MergeIgnoresExecution(n: Node, s: State, x: Option<Execution>, u: Update)
    requires !u.Executed?
    ensures Merge(n, s.(lastExecution := x), u) == Merge(n, s, u).(lastExecution := x)
    ensures Merge(n, s, u).lastExecution == s.lastExecution
  {
  }

  lemma RouteSeesBucketOnly(n: Node, s: State, x: Option<Execution>)
    requires s.lastExecution.Some? <==> x.Some?
    requires x.Some? ==> s.lastExecution.value.bucket == x.value.bucket
    ensures Route(n, s.(lastExecution := x)) == Route(n, s)
  {
  }

  lemma TwinMerges(n: Node, s: State, x: Option<Execution>, u: Update)
    requires !u.Executed?
    requires Erase(s.lastExecution) == Erase(x)
    ensures Twins(Commit(Checkpoint(n, s), u), Commit(Checkpoint(n, s.(lastExecution := x)), u))
  {
    MergeIgnoresExecution(n, s, x, u);
    var t := Merge(n, s, u);
    RouteSeesBucketOnly(n, t, x);
    assert Blind(t.(lastExecution := x)) == Blind(t);
  }

  lemma TwinResults(n: Node, s: State, x: Option<Execution>, e1: Execution, e2: Execution)
    requires Erase(Some(e1)) == Erase(Some(e2))
    ensures Twins(Commit(Checkpoint(n, s), Executed(e1)), Commit(Checkpoint(n, s.(lastExecution := x)), Executed(e2)))
  {
    var t1, t2 := Merge(n, s, Executed(e1)), Merge(n, s.(lastExecution := x), Executed(e2));
    assert e1.bucket == e2.bucket && e1.passed == e2.passed && e1.total == e2.total;
    assert t2 == t1.(lastExecution := Some(e2));
    RouteSeesBucketOnly(n, t1, Some(e2));
  }

  lemma TwinCommits(c1: Checkpoint, c2: Checkpoint, u1: Update, u2: Update)
    requires Twins(c1, c2) && BlindUpdate(u1) == BlindUpdate(u2)
    ensures Twins(Commit(c1, u1), Commit(c2, u2))
  {
    TwinsAgree(c1, c2);
    assert c2 == Checkpoint(c1.next, c1.s.(lastExecution := c2.s.lastExecution));
    if u1.Executed? {
      TwinResults(c1.next, c1.s, c2.s.lastExecution, u1.execution, u2.execution);
    } else {
      TwinMerges(c1.next, c1.s, c2.s.lastExecution, u1);
    }
  }

  lemma TwinEvents(s: State, x: Option<Execution>, e: Event)
    requires Erase(s.lastExecution) == Erase(x)
    ensures Twins(Resume(Checkpoint(AwaitInput, s), e), Resume(Checkpoint(AwaitInput, s.(lastExecution := x)), e))
  {
    var t := Receive(s, e);
    assert Receive(s.(lastExecution := x), e) == t.(lastExecution := x);
    RouteSeesBucketOnly(AwaitInput, t, x);
  }

  lemma TwinSteps(cfg: Config, c1: Checkpoint, c2: Checkpoint, i1: Input, i2: Input)
    requires Twins(c1, c2) && TwinInputs(i1, i2)
    ensures Twins(Step(cfg, c1, i1), Step(cfg, c2, i2))
  {
    TwinsAgree(c1, c2);
    assert c2 == Checkpoint(c1.next, c1.s.(lastExecution := c2.s.lastExecution));
    match i1
    case Say(e) =>
      if c1.next == AwaitInput {
        assert Erase(c1.s.lastExecution) == Blind(c1.s).lastExecution;
        TwinEvents(c1.s, c2.s.lastExecution, e);
      }
    case Work(w) =>
      TwinUpdates(cfg, c1, c2, w, i2.world);
      if NodeUpdate(cfg, c1, w).Some? {
        TwinCommits(c1, c2, NodeUpdate(cfg, c1, w).value, NodeUpdate(cfg, c2, i2.world).value);
      }
  }

  ghost predicate TwinRuns(a: seq<Input>, b: seq<Input>) {
    |a| == |b| && forall j :: 0 <= j < |a| ==> TwinInputs(a[j], b[j])
  }

  lemma {:induction false} RunsStayTwins(cfg: Config, c: Checkpoint, a: seq<Input>, b: seq<Input>)
    requires TwinRuns(a, b)
    ensures Twins(Run(cfg, c, a), Run(cfg, c, b))
    decreases |a|
  {
    if a != [] {
      var n := |a| - 1;
      RunsStayTwins(cfg, c, a[..n], b[..n]);
      TwinSteps(cfg, Run(cfg, c, a[..n]), Run(cfg, c, b[..n]), a[n], b[n]);
    }
  }

  /** After any two such runs from the same start, the browser's view, the transcript, the
    * node to run next and any tutor prompt it would send are the same. */
  lemma HiddenDataNeverShows(cfg: Config, c: Checkpoint, a: seq<Input>, b: seq<Input>,
                             threadId: string, traceId: string, w1: World, w2: World)
    requires TwinRuns(a, b) && TwinWorlds(w1, w2)
    ensures var c1, c2 := Run(cfg, c, a), Run(cfg, c, b);
            && View(c1.s, threadId, traceId) == View(c2.s, threadId, traceId)
            && c1.s.messages == c2.s.messages
            && c1.next == c2.next
            && PromptAt(c1, w1) == PromptAt(c2, w2)
  {
    RunsStayTwins(cfg, c, a, b);
    var c1, c2 := Run(cfg, c, a), Run(cfg, c, b);
    TwinsAgree(c1, c2);
    TwinPrompts(c1, c2, w1, w2);
  }
}
