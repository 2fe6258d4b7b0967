/** A history against its twin in which no cache read ever succeeds: the two go together exactly as
  * far as no hit replaces a call that would have ended differently. */
module Cacheless {
  import opened Text
  import opened Keys
  import opened Llm
  import opened Verifier
  import opened Session
  import opened SessionSafety
  import opened VerdictCache
  import opened Histories

  // The same action while the table cannot be read.
  function Uncached(a: Action): Action {
    if a.Act? then a.(readable := false) else a
  }

  function AllUncached(actions: seq<Action>): (b: seq<Action>)
    ensures |b| == |actions|
    ensures forall k :: 0 <= k < |actions| ==> b[k] == Uncached(actions[k])
  {
    seq(|actions|, k requires 0 <= k < |actions| => Uncached(actions[k]))
  }

  lemma UncachedSteps(cfg: Config, actions: seq<Action>)
    requires actions != []
    ensures var n := |actions| - 1;
            SystemRun(cfg, AllUncached(actions))
            == SystemStep(cfg, SystemRun(cfg, AllUncached(actions[..n])), Uncached(actions[n]))
  {
    var n := |actions| - 1;
    assert AllUncached(actions)[..n] == AllUncached(actions[..n]);
  }

  // ---------------------------------------------------------------- what a hit replaces

  // A hit on this session's verdict stands for an evaluation that would have been answered.
  predicate EvaluatorCovers(cfg: Config, c: Checkpoint, w: World, rows: map<string, Payload>, readable: bool) {
    c.next == EvaluateLogic && w.context(c.s.problemId).Some? ==>
      var ctx := w.context(c.s.problemId).value;
      ReadRow(rows, VerdictKey(c.s, ctx), readable).Some? ==> FreshEvaluation(cfg, c.s.userLogic, ctx, w).Some?
  }

  // What the summarizer node writes without the cache: the student's own words if the model fails.
  function WrittenSummary(s: State, w: World): Summary {
    match FreshSummary(s, w) case Some(sm) => sm case None => Summary("", [], [], s.userLogic)
  }

  // A hit on this session's summary is the summary that would have been written.
  predicate SummaryCovers(c: Checkpoint, w: World, rows: map<string, Payload>, readable: bool) {
    c.next == SummarizeLogic ==>
      var hit := ReadRow(rows, SummaryKey(c.s, w), readable);
      hit.Some? ==> AsSummary(hit.value) == WrittenSummary(c.s, w)
  }

  // ---------------------------------------------------------------- one step, marks aside

  // The checkpoint without the mark that says whether its evaluation was a hit.
  function Unmarked(c: Checkpoint): Checkpoint {
    c.(s := c.s.(lastEval := Plain(c.s.lastEval)))
  }

  function Remarked(c: Checkpoint, x: Option<Evaluation>): Checkpoint {
    c.(s := c.s.(lastEval := x))
  }

  lemma UnmarkedAgree(c1: Checkpoint, c2: Checkpoint)
    requires Unmarked(c1) == Unmarked(c2)
    ensures c2 == Remarked(c1, c2.s.lastEval) && Plain(c1.s.lastEval) == Plain(c2.s.lastEval)
  {
    var b1, b2 := Unmarked(c1), Unmarked(c2);
    assert c1.s == b1.s.(lastEval := c1.s.lastEval) && c2.s == b2.s.(lastEval := c2.s.lastEval);
    assert b1.s.lastEval == Plain(c1.s.lastEval) && b2.s.lastEval == Plain(c2.s.lastEval);
  }

  lemma CommitKeepsMark(c: Checkpoint, x: Option<Evaluation>, u: Update)
    requires !u.Evaluated? && Plain(c.s.lastEval) == Plain(x) && c.next != EvaluateLogic
    ensures Unmarked(Commit(Remarked(c, x), u)) == Unmarked(Commit(c, u))
  {
    hide Merge, Route;
    var t := Merge(c.next, c.s, u);
    MergeKeepsMark(c.next, c.s, x, u);
    RouteIgnoresMark(c.next, t, x);
  }

  lemma MergeKeepsMark(n: Node, s: State, x: Option<Evaluation>, u: Update)
    requires !u.Evaluated?
    ensures Merge(n, s.(lastEval := x), u) == Merge(n, s, u).(lastEval := x)
    ensures Merge(n, s, u).lastEval == s.lastEval
  {
  }

  lemma RouteIgnoresMark(n: Node, s: State, x: Option<Evaluation>)
    requires n != EvaluateLogic
    ensures Route(n, s.(lastEval := x)) == Route(n, s)
  {
  }

  lemma CommitMarks(c: Checkpoint, x: Option<Evaluation>, e1: Evaluation, e2: Evaluation)
    requires Plain(Some(e1)) == Plain(Some(e2)) && c.next == EvaluateLogic
    ensures Unmarked(Commit(Remarked(c, x), Evaluated(e2))) == Unmarked(Commit(c, Evaluated(e1)))
  {
    var t := Merge(c.next, c.s, Evaluated(e1));
    assert Merge(c.next, c.s.(lastEval := x), Evaluated(e2)) == t.(lastEval := Some(e2));
    assert Plain(Some(e1)).value.verdict == e1.verdict && Plain(Some(e2)).value.verdict == e2.verdict;
  }

  lemma ResumeKeepsMark(c: Checkpoint, x: Option<Evaluation>, e: Event)
    requires c.next == AwaitInput && Plain(c.s.lastEval) == Plain(x)
    ensures Unmarked(Resume(Remarked(c, x), e)) == Unmarked(Resume(c, e))
  {
    assert Receive(c.s.(lastEval := x), e) == Receive(c.s, e).(lastEval := x);
  }

  // The prompts and the canned replies do not show the mark.
  lemma NodesIgnoreMark(cfg: Config, c: Checkpoint, x: Option<Evaluation>, w1: World, w2: World)
    requires Plain(c.s.lastEval) == Plain(x) && w2 == w1.(cacheGet := w2.cacheGet)
    requires c.next != EvaluateLogic && c.next != SummarizeLogic
    ensures NodeUpdate(cfg, c, w1) == NodeUpdate(cfg, Remarked(c, x), w2)
    ensures NodeUpdate(cfg, c, w1).Some? ==> !NodeUpdate(cfg, c, w1).value.Evaluated?
  {
    hide Check, Fallback, LogicTutorPrompt, CodeTutorPrompt;
    if w1.context(c.s.problemId).Some? {
      var ctx := w1.context(c.s.problemId).value;
      PromptsIgnoreMark(c.s, x, ctx);
      FallbacksIgnoreMark(c.next, c.s, x, ctx.rubric);
    }
  }

  lemma PlainKeeps(e: Option<Evaluation>)
    requires e.Some?
    ensures Plain(e).Some? && Plain(e).value.misconceptionId == e.value.misconceptionId
    ensures Plain(e).value.missingSteps == e.value.missingSteps
    ensures Plain(e).value.violatedInvariants == e.value.violatedInvariants
  {
  }

  lemma PromptsIgnoreMark(s: State, x: Option<Evaluation>, ctx: Context)
    requires Plain(s.lastEval) == Plain(x)
    ensures LogicTutorPrompt(s, ctx) == LogicTutorPrompt(s.(lastEval := x), ctx)
    ensures CodeTutorPrompt(s, ctx) == CodeTutorPrompt(s.(lastEval := x), ctx)
  {
    if x.Some? {
      PlainKeeps(x);
      PlainKeeps(s.lastEval);
    }
  }

  lemma FallbacksIgnoreMark(n: Node, s: State, x: Option<Evaluation>, rubric: Rubric)
    requires Plain(s.lastEval) == Plain(x)
    ensures Fallback(n, s, rubric) == Fallback(n, s.(lastEval := x), rubric)
  {
    if x.Some? {
      PlainKeeps(x);
      PlainKeeps(s.lastEval);
    }
  }

  // The summarizer node's update is the written summary or the hit.
  lemma SummaryNode(s: State, w: World, rows: map<string, Payload>, readable: bool)
    ensures var hit := ReadRow(rows, SummaryKey(s, w), readable);
            var sm := if hit.Some? then AsSummary(hit.value) else WrittenSummary(s, w);
            SummarizeLogicNode(s, Through(w, rows, readable))
            == Summarized(sm, if sm.finalLogicText != "" then sm.finalLogicText else s.userLogic)
  {
    var met := Through(w, rows, readable);
    assert met.cacheGet(SummaryKey(s, w)) == ReadRow(rows, SummaryKey(s, w), readable);
    SameSummary(s, w, met);
  }

  // The evaluator node with and without the cache: the same verdict, or a rescue.
  lemma EvaluationNode(cfg: Config, c: Checkpoint, w: World, rows: map<string, Payload>, readable: bool,
                       others: map<string, Payload>, g: Examiner)
    requires c.next == EvaluateLogic && ':' !in c.s.problemId
    requires GradesBy(cfg, w, g) && SoundReads(Through(w, rows, readable), g)
    ensures var with, without := EvaluateLogicNode(cfg, c.s, Through(w, rows, readable)),
                                 EvaluateLogicNode(cfg, c.s, Through(w, others, false));
            && (EvaluatorCovers(cfg, c, w, rows, readable) ==> (with.Some? <==> without.Some?))
            && (!EvaluatorCovers(cfg, c, w, rows, readable) ==> with.Some? && without.None?)
            && (with.Some? ==> with.value.Evaluated?) && (without.Some? ==> without.value.Evaluated?)
            && (with.Some? && without.Some? ==>
                  Plain(Some(with.value.evaluation)) == Plain(Some(without.value.evaluation)))
  {
    var met, plain := Through(w, rows, readable), Through(w, others, false);
    GradesThrough(cfg, w, rows, readable, g);
    GradesThrough(cfg, w, others, false, g);
    if EvaluateLogicNode(cfg, c.s, met).Some? { EvaluationIsExaminers(cfg, c.s, met, g); }
    if EvaluateLogicNode(cfg, c.s, plain).Some? { EvaluationIsExaminers(cfg, c.s, plain, g); }
    if w.context(c.s.problemId).Some? {
      var ctx := w.context(c.s.problemId).value;
      SameFresh(cfg, c.s.userLogic, ctx, w, met);
      SameFresh(cfg, c.s.userLogic, ctx, w, plain);
      assert met.cacheGet(VerdictKey(c.s, ctx)) == ReadRow(rows, VerdictKey(c.s, ctx), readable);
      assert plain.cacheGet(VerdictKey(c.s, ctx)).None?;
    }
  }

  // One node, with the cache in one session and without it in the other.
  predicate Covers(cfg: Config, c: Checkpoint, w: World, rows: map<string, Payload>, readable: bool) {
    EvaluatorCovers(cfg, c, w, rows, readable) && SummaryCovers(c, w, rows, readable)
  }

  lemma WorkTogether(cfg: Config, c1: Checkpoint, c2: Checkpoint, w: World, rows: map<string, Payload>,
                     readable: bool, others: map<string, Payload>, g: Examiner)
    requires Unmarked(c1) == Unmarked(c2) && ':' !in c1.s.problemId
    requires GradesBy(cfg, w, g) && SoundReads(Through(w, rows, readable), g)
    ensures Unmarked(Step(cfg, c1, Work(Through(w, rows, readable))))
            == Unmarked(Step(cfg, c2, Work(Through(w, others, false))))
            <==> Covers(cfg, c1, w, rows, readable)
  {
    hide GradesBy, SoundReads;
    UnmarkedAgree(c1, c2);
    if c1.next == EvaluateLogic {
      EvaluationTogether(cfg, c1, c2.s.lastEval, w, rows, readable, others, g);
    } else if c1.next == SummarizeLogic {
      SummaryTogether(cfg, c1, c2.s.lastEval, w, rows, readable, others);
    } else {
      var met, plain := Through(w, rows, readable), Through(w, others, false);
      NodesIgnoreMark(cfg, c1, c2.s.lastEval, met, plain);
      if NodeUpdate(cfg, c1, met).Some? {
        CommitKeepsMark(c1, c2.s.lastEval, NodeUpdate(cfg, c1, met).value);
      }
    }
  }

  lemma EvaluationTogether(cfg: Config, c: Checkpoint, x: Option<Evaluation>, w: World, rows: map<string, Payload>,
                           readable: bool, others: map<string, Payload>, g: Examiner)
    requires c.next == EvaluateLogic && Plain(c.s.lastEval) == Plain(x) && ':' !in c.s.problemId
    requires GradesBy(cfg, w, g) && SoundReads(Through(w, rows, readable), g)
    ensures var d1, d2 := Step(cfg, c, Work(Through(w, rows, readable))),
                          Step(cfg, Remarked(c, x), Work(Through(w, others, false)));
            && (EvaluatorCovers(cfg, c, w, rows, readable) ==> Unmarked(d1) == Unmarked(d2))
            && (!EvaluatorCovers(cfg, c, w, rows, readable) ==> d1.next != EvaluateLogic && d2.next == EvaluateLogic)
  {
    hide EvaluatorCovers, GradesBy, SoundReads;
    EvaluationNode(cfg, c, w, rows, readable, others, g);
    var with := EvaluateLogicNode(cfg, c.s, Through(w, rows, readable));
    var without := EvaluateLogicNode(cfg, c.s, Through(w, others, false));
    assert EvaluateLogicNode(cfg, Remarked(c, x).s, Through(w, others, false)) == without;
    if with.Some? && without.Some? {
      CommitMarks(c, x, with.value.evaluation, without.value.evaluation);
    }
  }

  lemma SummaryTogether(cfg: Config, c: Checkpoint, x: Option<Evaluation>, w: World, rows: map<string, Payload>,
                        readable: bool, others: map<string, Payload>)
    requires c.next == SummarizeLogic && Plain(c.s.lastEval) == Plain(x)
    ensures Unmarked(Step(cfg, c, Work(Through(w, rows, readable))))
            == Unmarked(Step(cfg, Remarked(c, x), Work(Through(w, others, false))))
            <==> SummaryCovers(c, w, rows, readable)
  {
    hide Merge, Route;
    SummaryNode(c.s, w, rows, readable);
    SummaryNode(c.s, w, others, false);
    var u1 := SummarizeLogicNode(c.s, Through(w, rows, readable));
    var u2 := SummarizeLogicNode(c.s, Through(w, others, false));
    assert SummarizeLogicNode(Remarked(c, x).s, Through(w, others, false)) == u2;
    CommitKeepsMark(c, x, u2);
    SummariesShow(c, u1, u2);
  }

  // The summary a node writes can be read back from the state it leaves.
  lemma SummariesShow(c: Checkpoint, u1: Update, u2: Update)
    requires u1.Summarized? && u2.Summarized?
    ensures Unmarked(Commit(c, u1)) == Unmarked(Commit(c, u2)) ==> u1.summary == u2.summary
  {
    assert Unmarked(Commit(c, u1)).s.logicSummary == Some(u1.summary);
    assert Unmarked(Commit(c, u2)).s.logicSummary == Some(u2.summary);
  }

  // ---------------------------------------------------------------- whole histories

  // The same sessions in the same states, hit marks aside.
  ghost predicate Together(y1: SystemState, y2: SystemState) {
    && y1.sessions.Keys == y2.sessions.Keys
    && forall t :: t in y1.sessions ==> Unmarked(y1.sessions[t]) == Unmarked(y2.sessions[t])
  }

  predicate CoversAction(cfg: Config, y: SystemState, a: Action) {
    a.Act? && a.input.Work? && a.thread in y.sessions ==>
      Covers(cfg, y.sessions[a.thread], a.input.world, y.rows, a.readable)
  }

  lemma ActTogether(cfg: Config, c1: Checkpoint, c2: Checkpoint, y1: SystemState, y2: SystemState,
                    a: Action, g: Examiner)
    requires a.Act? && a.thread in y1.sessions && y1.sessions[a.thread] == c1
    requires Unmarked(c1) == Unmarked(c2) && ':' !in c1.s.problemId
    requires a.input.Work? ==>
               GradesBy(cfg, a.input.world, g) && SoundReads(Through(a.input.world, y1.rows, a.readable), g)
    ensures Unmarked(Step(cfg, c1, MetInput(y1, a))) == Unmarked(Step(cfg, c2, MetInput(y2, Uncached(a))))
            <==> CoversAction(cfg, y1, a)
  {
    match a.input
    case Say(e) =>
      UnmarkedAgree(c1, c2);
      if c1.next == AwaitInput { ResumeKeepsMark(c1, c2.s.lastEval, e); }
    case Work(w) =>
      hide Step, Covers, GradesBy, SoundReads;
      WorkTogether(cfg, c1, c2, w, y1.rows, a.readable, y2.rows, g);
  }

  lemma StepTogether(cfg: Config, actions: seq<Action>, g: Examiner)
    requires actions != [] && PlainProblemIds(actions) && AllGradeBy(cfg, actions, g)
    requires var before := actions[..|actions| - 1];
             Together(SystemRun(cfg, before), SystemRun(cfg, AllUncached(before)))
    ensures Together(SystemRun(cfg, actions), SystemRun(cfg, AllUncached(actions)))
            <==> CoversAction(cfg, SystemRun(cfg, actions[..|actions| - 1]), actions[|actions| - 1])
  {
    hide Step, Covers, GradesBy, SoundReads, StoredBy, Kept, Unmarked;
    var before, a := actions[..|actions| - 1], actions[|actions| - 1];
    var y1, y2 := SystemRun(cfg, before), SystemRun(cfg, AllUncached(before));
    var z1, z2 := SystemRun(cfg, actions), SystemRun(cfg, AllUncached(actions));
    UncachedSteps(cfg, actions);
    if a.Act? && a.thread in y1.sessions {
      SessionsHavePlainIds(cfg, before, a.thread);
      if a.input.Work? { TableReadsAreSound(cfg, before, g, a.input.world, a.readable); }
      ActTogether(cfg, y1.sessions[a.thread], y2.sessions[a.thread], y1, y2, a, g);
      assert z1.sessions == y1.sessions[a.thread := Step(cfg, y1.sessions[a.thread], MetInput(y1, a))];
      assert z2.sessions == y2.sessions[a.thread := Step(cfg, y2.sessions[a.thread], MetInput(y2, Uncached(a)))];
      assert a.thread in z1.sessions;
    }
  }

  ghost predicate TogetherAt(cfg: Config, actions: seq<Action>, n: nat) {
    n <= |actions| && Together(SystemRun(cfg, actions[..n]), SystemRun(cfg, AllUncached(actions[..n])))
  }

  ghost predicate CoveredAt(cfg: Config, actions: seq<Action>, n: nat) {
    n < |actions| && CoversAction(cfg, SystemRun(cfg, actions[..n]), actions[n])
  }

  /** For every interleaving of sessions and every failure of reads, writes, models and sandboxes,
    * with an evaluator that depends only on problem, version and normal form: each session of the
    * history goes through the same states as without the cache, hit marks aside, if and only if no
    * verdict hit replaces an evaluation that would have failed and no summary hit replaces another
    * summary. */
  lemma {:induction false} CacheIsInvisible(cfg: Config, actions: seq<Action>, g: Examiner)
    requires PlainProblemIds(actions) && AllGradeBy(cfg, actions, g)
    ensures (forall n: nat :: n <= |actions| ==> TogetherAt(cfg, actions, n))
            <==> (forall n: nat :: n < |actions| ==> CoveredAt(cfg, actions, n))
  {
    hide Together, CoversAction, GradesBy, SystemStep, SystemRun, AllUncached;
    var n := |actions| - 1;
    if actions == [] {
      NothingIsTogether(cfg);
      assert actions[..0] == [] && AllUncached([]) == [];
    } else {
      var before := actions[..n];
      CacheIsInvisible(cfg, before, g);
      forall m: nat | m <= n ensures TogetherAt(cfg, before, m) <==> TogetherAt(cfg, actions, m) {
        assert before[..m] == actions[..m];
      }
      forall m: nat | m < n ensures CoveredAt(cfg, before, m) <==> CoveredAt(cfg, actions, m) {
        assert before[..m] == actions[..m];
      }
      assert actions[..n + 1] == actions;
      if TogetherAt(cfg, actions, n) {
        StepTogether(cfg, actions, g);
        assert TogetherAt(cfg, actions, n + 1) <==> CoveredAt(cfg, actions, n);
      }
    }
  }

  lemma NothingIsTogether(cfg: Config)
    ensures Together(SystemRun(cfg, []), SystemRun(cfg, []))
  {
  }

  // ---------------------------------------------------------------- verdicts and unlocking alone

  // Equal in LOGIC, hit marks aside; past it, the same evaluation, whatever the summaries say.
  predicate Alike(c1: Checkpoint, c2: Checkpoint) {
    && c1.s.problemId == c2.s.problemId && Plain(c1.s.lastEval) == Plain(c2.s.lastEval)
    && (c1.s.phase == LOGIC <==> c2.s.phase == LOGIC)
    && (c1.s.phase == LOGIC ==> Unmarked(c1) == Unmarked(c2))
  }

  lemma UnmarkedAlike(c1: Checkpoint, c2: Checkpoint)
    requires Unmarked(c1) == Unmarked(c2)
    ensures Alike(c1, c2)
  {
    UnmarkedAgree(c1, c2);
  }

  lemma EvaluationKeepsPhase(cfg: Config, c: Checkpoint, w: World)
    requires c.next == EvaluateLogic
    ensures Step(cfg, c, Work(w)).s.phase == c.s.phase
  {
  }

  lemma SummaryUnlocks(cfg: Config, c: Checkpoint, w: World)
    requires c.next == SummarizeLogic
    ensures var d := Step(cfg, c, Work(w)).s;
            d.phase == CODE && d.lastEval == c.s.lastEval && d.problemId == c.s.problemId
  {
  }

  lemma PastLogicStays(cfg: Config, c: Checkpoint, i: Input)
    requires Gated(c) && c.s.phase != LOGIC
    ensures var d := Step(cfg, c, i).s;
            d.phase != LOGIC && d.lastEval == c.s.lastEval && d.problemId == c.s.problemId
  {
    StepKeepsGates(cfg, c, i);
    EvaluationOrSame(cfg, c, i);
    StepIsMove(cfg, c, i);
    MoveKeepsProblem(c, MoveOf(cfg, c, i));
  }

  lemma WorkAlike(cfg: Config, c1: Checkpoint, c2: Checkpoint, w: World, rows: map<string, Payload>,
                  readable: bool, others: map<string, Payload>, g: Examiner)
    requires Gated(c1) && c1.s.phase == LOGIC && Unmarked(c1) == Unmarked(c2) && ':' !in c1.s.problemId
    requires GradesBy(cfg, w, g) && SoundReads(Through(w, rows, readable), g)
    ensures Alike(Step(cfg, c1, Work(Through(w, rows, readable))), Step(cfg, c2, Work(Through(w, others, false))))
            <==> EvaluatorCovers(cfg, c1, w, rows, readable)
  {
    hide Step, Gated, GradesBy, SoundReads;
    UnmarkedAgree(c1, c2);
    var met, plain := Through(w, rows, readable), Through(w, others, false);
    var d1, d2 := Step(cfg, c1, Work(met)), Step(cfg, c2, Work(plain));
    if c1.next == EvaluateLogic {
      EvaluationTogether(cfg, c1, c2.s.lastEval, w, rows, readable, others, g);
      EvaluationKeepsPhase(cfg, c1, met);
      if EvaluatorCovers(cfg, c1, w, rows, readable) { UnmarkedAlike(d1, d2); }
    } else if c1.next == SummarizeLogic {
      SummaryUnlocks(cfg, c1, met);
      SummaryUnlocks(cfg, c2, plain);
    } else {
      WorkTogether(cfg, c1, c2, w, rows, readable, others, g);
      UnmarkedAlike(d1, d2);
    }
  }

  predicate EvaluatorCoversAction(cfg: Config, y: SystemState, a: Action) {
    a.Act? && a.input.Work? && a.thread in y.sessions ==>
      EvaluatorCovers(cfg, y.sessions[a.thread], a.input.world, y.rows, a.readable)
  }

  lemma ActAlike(cfg: Config, c1: Checkpoint, c2: Checkpoint, y1: SystemState, y2: SystemState, a: Action, g: Examiner)
    requires a.Act? && a.thread in y1.sessions && y1.sessions[a.thread] == c1
    requires Gated(c1) && Gated(c2) && Alike(c1, c2) && ':' !in c1.s.problemId
    requires a.input.Work? ==>
               GradesBy(cfg, a.input.world, g) && SoundReads(Through(a.input.world, y1.rows, a.readable), g)
    ensures Alike(Step(cfg, c1, MetInput(y1, a)), Step(cfg, c2, MetInput(y2, Uncached(a))))
            <==> EvaluatorCoversAction(cfg, y1, a)
  {
    hide GradesBy, SoundReads;
    if c1.s.phase != LOGIC {
      PastLogicStays(cfg, c1, MetInput(y1, a));
      PastLogicStays(cfg, c2, MetInput(y2, Uncached(a)));
    } else if a.input.Work? {
      WorkAlike(cfg, c1, c2, a.input.world, y1.rows, a.readable, y2.rows, g);
    } else {
      ActTogether(cfg, c1, c2, y1, y2, a, g);
      UnmarkedAlike(Step(cfg, c1, MetInput(y1, a)), Step(cfg, c2, MetInput(y2, Uncached(a))));
    }
  }

  ghost predicate AlikeSystems(y1: SystemState, y2: SystemState) {
    && y1.sessions.Keys == y2.sessions.Keys
    && forall t :: t in y1.sessions ==> Alike(y1.sessions[t], y2.sessions[t])
  }

  lemma OneChange(y1: SystemState, z1: SystemState, y2: SystemState, z2: SystemState,
                  t: string, d1: Checkpoint, d2: Checkpoint)
    requires AlikeSystems(y1, y2) && t in y1.sessions
    requires z1.sessions == y1.sessions[t := d1] && z2.sessions == y2.sessions[t := d2]
    ensures AlikeSystems(z1, z2) <==> Alike(d1, d2)
  {
    hide Alike;
    assert t in z1.sessions;
  }

  lemma StepAlike(cfg: Config, actions: seq<Action>, g: Examiner)
    requires actions != [] && PlainProblemIds(actions) && AllGradeBy(cfg, actions, g)
    requires var before := actions[..|actions| - 1];
             AlikeSystems(SystemRun(cfg, before), SystemRun(cfg, AllUncached(before)))
    ensures AlikeSystems(SystemRun(cfg, actions), SystemRun(cfg, AllUncached(actions)))
            <==> EvaluatorCoversAction(cfg, SystemRun(cfg, actions[..|actions| - 1]), actions[|actions| - 1])
  {
    hide Step, Alike, EvaluatorCovers, GradesBy, SoundReads, StoredBy, Kept, Gated, Budgeted;
    var before, a := actions[..|actions| - 1], actions[|actions| - 1];
    var y1, y2 := SystemRun(cfg, before), SystemRun(cfg, AllUncached(before));
    var z1, z2 := SystemRun(cfg, actions), SystemRun(cfg, AllUncached(actions));
    UncachedSteps(cfg, actions);
    if a.Act? && a.thread in y1.sessions {
      SessionsHavePlainIds(cfg, before, a.thread);
      EverySessionKeeps(cfg, before, a.thread);
      EverySessionKeeps(cfg, AllUncached(before), a.thread);
      if a.input.Work? { TableReadsAreSound(cfg, before, g, a.input.world, a.readable); }
      ActAlike(cfg, y1.sessions[a.thread], y2.sessions[a.thread], y1, y2, a, g);
      OneChange(y1, z1, y2, z2, a.thread, Step(cfg, y1.sessions[a.thread], MetInput(y1, a)),
                Step(cfg, y2.sessions[a.thread], MetInput(y2, Uncached(a))));
    } else if a.Open? && a.thread !in y1.sessions {
      UnmarkedAlike(z1.sessions[a.thread], z2.sessions[a.thread]);
    }
  }

  ghost predicate AlikeAt(cfg: Config, actions: seq<Action>, n: nat) {
    n <= |actions| && AlikeSystems(SystemRun(cfg, actions[..n]), SystemRun(cfg, AllUncached(actions[..n])))
  }

  ghost predicate AnsweredAt(cfg: Config, actions: seq<Action>, n: nat) {
    n < |actions| && EvaluatorCoversAction(cfg, SystemRun(cfg, actions[..n]), actions[n])
  }

  /** Every verdict, every move before the unlocking and the unlocking itself are the same with the
    * cache as without it, whatever the summaries and tutors then say, if and only if no verdict hit
    * replaces an evaluation that would have failed. */
  lemma {:induction false} VerdictsNeedNoCache(cfg: Config, actions: seq<Action>, g: Examiner)
    requires PlainProblemIds(actions) && AllGradeBy(cfg, actions, g)
    ensures (forall n: nat :: n <= |actions| ==> AlikeAt(cfg, actions, n))
            <==> (forall n: nat :: n < |actions| ==> AnsweredAt(cfg, actions, n))
  {
    hide AlikeSystems, EvaluatorCoversAction, GradesBy, SystemStep, SystemRun, AllUncached;
    var n := |actions| - 1;
    if actions == [] {
      NothingIsAlike(cfg);
      assert actions[..0] == [] && AllUncached([]) == [];
    } else {
      var before := actions[..n];
      VerdictsNeedNoCache(cfg, before, g);
      forall m: nat | m <= n ensures AlikeAt(cfg, before, m) <==> AlikeAt(cfg, actions, m) {
        assert before[..m] == actions[..m];
      }
      forall m: nat | m < n ensures AnsweredAt(cfg, before, m) <==> AnsweredAt(cfg, actions, m) {
        assert before[..m] == actions[..m];
      }
      assert actions[..n + 1] == actions;
      if AlikeAt(cfg, actions, n) {
        StepAlike(cfg, actions, g);
        assert AlikeAt(cfg, actions, n + 1) <==> AnsweredAt(cfg, actions, n);
      }
    }
  }

  lemma NothingIsAlike(cfg: Config)
    ensures AlikeSystems(SystemRun(cfg, []), SystemRun(cfg, []))
  {
  }

  // ---------------------------------------------------------------- summaries

  /** The summary the summarizer gives to a problem, a rubric version and a normal form. */
  type Summarizer = (string, int, string) -> Summary

  // The summarizer looks at nothing else: whenever it answers, it answers by h.
  ghost predicate SummarizesBy(w: World, h: Summarizer) {
    forall s: State :: FreshSummary(s, w).Some? ==>
                         FreshSummary(s, w).value == h(s.problemId, VersionOr1(s.problemId, w), Normalize(s.userLogic))
  }

  ghost predicate AllSummarizeBy(actions: seq<Action>, h: Summarizer) {
    forall j :: 0 <= j < |actions| && actions[j].Act? && actions[j].input.Work? ==>
                  SummarizesBy(actions[j].input.world, h)
  }

  // Then a summary hit covers as soon as the summarizer would have answered.
  lemma SummaryIsCovered(cfg: Config, actions: seq<Action>, t: string, w: World, readable: bool, h: Summarizer)
    requires PlainProblemIds(actions) && AllSummarizeBy(actions, h) && SummarizesBy(w, h)
    requires t in SystemRun(cfg, actions).sessions
    requires FreshSummary(SystemRun(cfg, actions).sessions[t].s, w).Some?
    ensures SummaryCovers(SystemRun(cfg, actions).sessions[t], w, SystemRun(cfg, actions).rows, readable)
  {
    var y := SystemRun(cfg, actions);
    var s := y.sessions[t].s;
    SessionsHavePlainIds(cfg, actions, t);
    if ReadRow(y.rows, SummaryKey(s, w), readable).Some? {
      var j := SummaryHitHasOrigin(cfg, actions, s.problemId, VersionOr1(s.problemId, w), s.userLogic);
      var c := SystemRun(cfg, actions[..j]).sessions[actions[j].thread];
      SameNormalForm(c.s.userLogic, s.userLogic);
      assert SummarizesBy(actions[j].input.world, h);
    }
  }

  // ---------------------------------------------------------------- a rescue

  function Knows(ctx: Context, reply: Option<string>, out: EvaluatorOutput): World {
    World(_ => Some(ctx), _ => None, _ => _ => reply, _ => Some(out), _ => _ => None, _ => None,
          (_, _) => Unreachable(""), _ => None)
  }

  // A first session's verdict, stored while the model answers.
  function FirstSession(ctx: Context, out: EvaluatorOutput): seq<Action> {
    [Open("a", "p", "u")] + [Act("a", Say(Event(ELogic, "x")), true, true)]
    + [Act("a", Work(Knows(ctx, Some("ok"), out)), true, true)]
  }

  lemma FirstSessionStores(cfg: Config, ctx: Context, out: EvaluatorOutput)
    ensures CacheKey("verdict", "p", ctx.rubricVersion, "x") in SystemRun(cfg, FirstSession(ctx, out)).rows
    ensures "b" !in SystemRun(cfg, FirstSession(ctx, out)).sessions
  {
    var w := Knows(ctx, Some("ok"), out);
    var a1, a2, a3 := Open("a", "p", "u"), Act("a", Say(Event(ELogic, "x")), true, true), Act("a", Work(w), true, true);
    OneMoreAction(cfg, [], a1);
    OneMoreAction(cfg, [a1], a2);
    OneMoreAction(cfg, [a1] + [a2], a3);
    var y := SystemRun(cfg, [a1] + [a2]);
    assert y.sessions["a"] == Resume(Initial("p", "u", "a"), Event(ELogic, "x"));
    var met := Through(w, y.rows, true);
    assert Complete(Some("ok")) == Some("ok");
    assert FreshEvaluation(cfg, "x", ctx, met) == Some(Grade(cfg, out));
    assert [] + [a1] == [a1];
  }

  // The same text again, in another session, while the model does not answer.
  function SecondSession(ctx: Context, out: EvaluatorOutput): seq<Action> {
    FirstSession(ctx, out) + [Open("b", "p", "u")] + [Act("b", Say(Event(ELogic, "x")), true, true)]
    + [Act("b", Work(Knows(ctx, None, out)), true, true)]
  }

  lemma AllAnswerAlike(cfg: Config, ctx: Context, out: EvaluatorOutput, reply: Option<string>)
    ensures GradesBy(cfg, Knows(ctx, reply, out), (_, _, _) => Grade(cfg, out))
  {
  }

  lemma RescueIsFair(cfg: Config, ctx: Context, out: EvaluatorOutput)
    ensures PlainProblemIds(SecondSession(ctx, out))
    ensures AllGradeBy(cfg, SecondSession(ctx, out), (_, _, _) => Grade(cfg, out))
  {
    hide GradesBy;
    AllAnswerAlike(cfg, ctx, out, Some("ok"));
    AllAnswerAlike(cfg, ctx, out, None);
  }

  /** The condition is needed: a hit carries a session on where without the cache it would still
    * stand before the evaluation. */
  lemma RescueHappens(cfg: Config, ctx: Context, out: EvaluatorOutput)
    ensures var actions := SecondSession(ctx, out);
            && PlainProblemIds(actions) && AllGradeBy(cfg, actions, (_, _, _) => Grade(cfg, out))
            && !AnsweredAt(cfg, actions, 5)
            && exists n: nat :: n <= |actions| && !AlikeAt(cfg, actions, n)
  {
    hide SystemStep, EvaluatorCoversAction, AllGradeBy, PlainProblemIds, Knows;
    var first := FirstSession(ctx, out);
    var a4, a5 := Open("b", "p", "u"), Act("b", Say(Event(ELogic, "x")), true, true);
    var actions := SecondSession(ctx, out);
    RescueIsFair(cfg, ctx, out);
    FirstSessionStores(cfg, ctx, out);
    OneMoreAction(cfg, first, a4);
    OneMoreAction(cfg, first + [a4], a5);
    SecondIsRescued(cfg, SystemRun(cfg, first), ctx, out);
    assert actions[..5] == first + [a4] + [a5];
    VerdictsNeedNoCache(cfg, actions, (_, _, _) => Grade(cfg, out));
  }

  lemma SecondIsRescued(cfg: Config, y: SystemState, ctx: Context, out: EvaluatorOutput)
    requires CacheKey("verdict", "p", ctx.rubricVersion, "x") in y.rows && "b" !in y.sessions
    ensures var y4 := SystemStep(cfg, y, Open("b", "p", "u"));
            var y5 := SystemStep(cfg, y4, Act("b", Say(Event(ELogic, "x")), true, true));
            !EvaluatorCoversAction(cfg, y5, Act("b", Work(Knows(ctx, None, out)), true, true))
  {
  }
}
