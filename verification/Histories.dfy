/** Whole histories of the system: every session of an interleaved history is a run of its own, and
  * the verdict it holds is the evaluator's, whether it was a hit or not. */
module Histories {
  import opened Text
  import opened Keys
  import opened Session
  import opened SessionSafety
  import opened Transcript
  import opened VerdictCache

  // ---------------------------------------------------------------- sessions are runs

  // What thread t met since it was last opened.
  function Met(cfg: Config, actions: seq<Action>, t: string): seq<Input> {
    if actions == [] then [] else
      var before, a := actions[..|actions| - 1], actions[|actions| - 1];
      var y := SystemRun(cfg, before);
      if a.thread != t then Met(cfg, before, t)
      else if t !in y.sessions || a.Drop? then []
      else if a.Act? then Met(cfg, before, t) + [MetInput(y, a)]
      else Met(cfg, before, t)
  }

  // Every event of the history that reached a session was allowed by the check on its phase.
  ghost predicate AllowedActions(cfg: Config, actions: seq<Action>) {
    forall j :: 0 <= j < |actions| ==> AllowedAt(SystemRun(cfg, actions[..j]), actions[j])
  }

  predicate AllowedAt(y: SystemState, a: Action) {
    a.Act? && a.input.Say? && a.thread in y.sessions ==>
      ValidateEvent(a.input.event, y.sessions[a.thread].s.phase) == Allowed
  }

  lemma AllowedBefore(cfg: Config, actions: seq<Action>)
    requires actions != [] && AllowedActions(cfg, actions)
    ensures AllowedActions(cfg, actions[..|actions| - 1])
    ensures AllowedAt(SystemRun(cfg, actions[..|actions| - 1]), actions[|actions| - 1])
  {
    var before := actions[..|actions| - 1];
    forall j | 0 <= j < |before| ensures AllowedAt(SystemRun(cfg, before[..j]), before[j]) {
      assert before[..j] == actions[..j];
    }
  }

  lemma AllowedAfter(cfg: Config, actions: seq<Action>, a: Action)
    requires AllowedActions(cfg, actions) && AllowedAt(SystemRun(cfg, actions), a)
    ensures AllowedActions(cfg, actions + [a])
  {
    hide AllowedAt;
    var longer := actions + [a];
    forall j | 0 <= j < |longer| ensures AllowedAt(SystemRun(cfg, longer[..j]), longer[j]) {
      assert longer[..j] == if j < |actions| then actions[..j] else actions;
    }
  }

  /** However sessions, failures and the shared table interleave, each session is a run of its own
    * over the worlds it met; if every event was allowed, a validated one. */
  lemma {:induction false} SessionIsRun(cfg: Config, actions: seq<Action>, t: string) returns (p: string, u: string)
    requires t in SystemRun(cfg, actions).sessions
    ensures SystemRun(cfg, actions).sessions[t] == Run(cfg, Initial(p, u, t), Met(cfg, actions, t))
    ensures AllowedActions(cfg, actions) ==> Validated(cfg, Initial(p, u, t), Met(cfg, actions, t))
  {
    hide Step, ValidateEvent;
    var before, a := actions[..|actions| - 1], actions[|actions| - 1];
    var y := SystemRun(cfg, before);
    if AllowedActions(cfg, actions) { AllowedBefore(cfg, actions); }
    if t in y.sessions {
      p, u := SessionIsRun(cfg, before, t);
      if a.Act? && a.thread == t {
        OneMore(cfg, Initial(p, u, t), Met(cfg, before, t), MetInput(y, a));
      }
    } else {
      p, u := a.problemId, a.userId;
    }
  }

  /** So what every run keeps, every session of every history keeps. */
  lemma EverySessionKeeps(cfg: Config, actions: seq<Action>, t: string)
    requires t in SystemRun(cfg, actions).sessions
    ensures var c := SystemRun(cfg, actions).sessions[t];
            && Gated(c) && Budgeted(cfg, c)
            && (AllowedActions(cfg, actions) ==> Told(c) && InStep(c) && StatusAgrees(c.s))
  {
    hide Run, Validated, Gated, Budgeted, Told, InStep, StatusAgrees;
    var p, u := SessionIsRun(cfg, actions, t);
    RunsAreGated(cfg, p, u, t, Met(cfg, actions, t));
    RunsStayInBudget(cfg, p, u, t, Met(cfg, actions, t));
    if AllowedActions(cfg, actions) {
      RunsAreTold(cfg, p, u, t, Met(cfg, actions, t));
      ValidatedRuns(cfg, p, u, t, Met(cfg, actions, t));
    }
  }

  // ---------------------------------------------------------------- verdicts

  // An evaluation, leaving out whether it was a hit.
  function Plain(e: Option<Evaluation>): Option<Evaluation> {
    match e case None => None case Some(v) => Some(v.(cacheHit := false))
  }

  // With sound reads or none, the evaluation is the examiner's, up to the hit flag.
  lemma EvaluationIsExaminers(cfg: Config, s: State, w: World, g: Examiner)
    requires ':' !in s.problemId && GradesBy(cfg, w, g) && SoundReads(w, g)
    requires EvaluateLogicNode(cfg, s, w).Some?
    ensures w.context(s.problemId).Some?
    ensures EvaluateLogicNode(cfg, s, w).value.Evaluated?
    ensures Plain(Some(EvaluateLogicNode(cfg, s, w).value.evaluation))
            == Plain(Some(g(s.problemId, w.context(s.problemId).value.rubricVersion, Normalize(s.userLogic))))
  {
    var ctx := w.context(s.problemId).value;
    assert VerdictKey(s, ctx) == CacheKey("verdict", s.problemId, ctx.rubricVersion, s.userLogic);
  }

  lemma GradesThrough(cfg: Config, w: World, rows: map<string, Payload>, readable: bool, g: Examiner)
    requires GradesBy(cfg, w, g)
    ensures GradesBy(cfg, Through(w, rows, readable), g)
  {
    var met := Through(w, rows, readable);
    forall p, text | met.context(p).Some? && FreshEvaluation(cfg, text, met.context(p).value, met).Some?
      ensures FreshEvaluation(cfg, text, met.context(p).value, met).value
              == g(p, met.context(p).value.rubricVersion, Normalize(text))
    {
      SameFresh(cfg, text, w.context(p).value, w, met);
    }
  }

  // The action runs the evaluator node of thread t to its end.
  predicate Evaluates(cfg: Config, y: SystemState, a: Action, t: string) {
    && a.Act? && a.thread == t && a.input.Work? && t in y.sessions && y.sessions[t].next == EvaluateLogic
    && EvaluateLogicNode(cfg, y.sessions[t].s, Through(a.input.world, y.rows, a.readable)).Some?
  }

  ghost predicate EvaluatesAt(cfg: Config, actions: seq<Action>, m: int, t: string) {
    0 <= m < |actions| && Evaluates(cfg, SystemRun(cfg, actions[..m]), actions[m], t)
  }

  // Action j is the last evaluation of thread t, and the thread was not dropped since.
  ghost predicate LastEvaluation(cfg: Config, actions: seq<Action>, j: int, t: string) {
    && EvaluatesAt(cfg, actions, j, t)
    && (forall m :: j < m < |actions| ==> !EvaluatesAt(cfg, actions, m, t))
    && forall m :: j < m <= |actions| ==> IsOpen(cfg, actions, m, t)
  }

  ghost predicate IsOpen(cfg: Config, actions: seq<Action>, m: int, t: string) {
    0 <= m <= |actions| && t in SystemRun(cfg, actions[..m]).sessions
  }

  // The examiner gives e to the text that thread t had when action j evaluated it.
  ghost predicate ExaminedAt(cfg: Config, actions: seq<Action>, j: int, t: string, g: Examiner, e: Option<Evaluation>) {
    && EvaluatesAt(cfg, actions, j, t)
    && var s, w := SystemRun(cfg, actions[..j]).sessions[t].s, actions[j].input.world;
    && w.context(s.problemId).Some?
    && e == Plain(Some(g(s.problemId, w.context(s.problemId).value.rubricVersion, Normalize(s.userLogic))))
  }

  lemma LaterPrefix(cfg: Config, actions: seq<Action>, j: int, t: string)
    requires actions != [] && t in SystemRun(cfg, actions).sessions
    requires LastEvaluation(cfg, actions[..|actions| - 1], j, t)
    requires !EvaluatesAt(cfg, actions, |actions| - 1, t)
    ensures LastEvaluation(cfg, actions, j, t)
  {
    hide SystemRun, Evaluates;
    var n := |actions| - 1;
    var before := actions[..n];
    assert forall m :: 0 <= m <= n ==> before[..m] == actions[..m];
    assert forall m :: 0 <= m < n ==> before[m] == actions[m];
    assert forall m :: 0 <= m < n ==> EvaluatesAt(cfg, before, m, t) == EvaluatesAt(cfg, actions, m, t);
    forall m | j < m <= |actions| ensures IsOpen(cfg, actions, m, t) {
      if m <= n { assert IsOpen(cfg, before, m, t); } else { assert actions[..m] == actions; }
    }
  }

  /** Over all interleavings and all failures of reads, writes, models and sandboxes: the verdict a
    * session holds is what the examiner gives to the text, problem and version of the session's own
    * last evaluation, whether it was a hit or not. */
  lemma {:induction false} VerdictsAreExaminers(cfg: Config, actions: seq<Action>, t: string, g: Examiner)
    returns (j: int)
    requires PlainProblemIds(actions) && AllGradeBy(cfg, actions, g)
    requires t in SystemRun(cfg, actions).sessions && SystemRun(cfg, actions).sessions[t].s.lastEval.Some?
    ensures LastEvaluation(cfg, actions, j, t)
    ensures ExaminedAt(cfg, actions, j, t, g, Plain(SystemRun(cfg, actions).sessions[t].s.lastEval))
  {
    hide Step, GradesBy, SoundReads, LastEvaluation, EvaluateLogicNode;
    var n := |actions| - 1;
    var before, a := actions[..n], actions[n];
    var y := SystemRun(cfg, before);
    if Evaluates(cfg, y, a, t) {
      j := n;
      EvaluatedNow(cfg, actions, t, g);
    } else {
      if a.Act? && a.thread == t { EvaluationOrSame(cfg, y.sessions[t], MetInput(y, a)); }
      j := VerdictsAreExaminers(cfg, before, t, g);
      LaterPrefix(cfg, actions, j, t);
      assert before[..j] == actions[..j] && before[j] == actions[j];
    }
  }

  lemma EvaluatedNow(cfg: Config, actions: seq<Action>, t: string, g: Examiner)
    requires actions != [] && PlainProblemIds(actions) && AllGradeBy(cfg, actions, g)
    requires EvaluatesAt(cfg, actions, |actions| - 1, t)
    ensures t in SystemRun(cfg, actions).sessions && LastEvaluation(cfg, actions, |actions| - 1, t)
    ensures ExaminedAt(cfg, actions, |actions| - 1, t, g, Plain(SystemRun(cfg, actions).sessions[t].s.lastEval))
  {
    hide Step, GradesBy, SoundReads, EvaluateLogicNode, StoredBy, Kept, Plain, Normalize;
    var n := |actions| - 1;
    var before, a := actions[..n], actions[n];
    var y := SystemRun(cfg, before);
    assert actions[..n + 1] == actions;
    EvaluationOrSame(cfg, y.sessions[t], MetInput(y, a));
    SessionsHavePlainIds(cfg, before, t);
    TableReadsAreSound(cfg, before, g, a.input.world, a.readable);
    GradesThrough(cfg, a.input.world, y.rows, a.readable, g);
    EvaluationIsExaminers(cfg, y.sessions[t].s, Through(a.input.world, y.rows, a.readable), g);
  }

  // An evaluation step that ends writes what it found; no other step changes the evaluation held.
  lemma EvaluationOrSame(cfg: Config, c: Checkpoint, i: Input)
    ensures var d := Step(cfg, c, i);
            if i.Work? && c.next == EvaluateLogic && EvaluateLogicNode(cfg, c.s, i.world).Some?
            then EvaluateLogicNode(cfg, c.s, i.world).value.Evaluated?
                 && d.s.lastEval == Some(EvaluateLogicNode(cfg, c.s, i.world).value.evaluation)
                 && d.next != EvaluateLogic
            else d.s.lastEval == c.s.lastEval
  {
    if i.Work? && NodeUpdate(cfg, c, i.world).Some? {
      UpdatesAreLegal(cfg, c, i.world);
      EvaluatedOrSame(c, NodeUpdate(cfg, c, i.world).value);
    }
  }

  lemma EvaluatedOrSame(c: Checkpoint, u: Update)
    ensures Commit(c, u).s.lastEval == if u.Evaluated? then Some(u.evaluation) else c.s.lastEval
  {
  }

  // ---------------------------------------------------------------- the gate, by the examiner

  // The evaluation held is the examiner's of the very text held, under some rubric version.
  ghost predicate GradedAs(s: State, g: Examiner, version: int) {
    Plain(s.lastEval) == Plain(Some(g(s.problemId, version, Normalize(s.userLogic))))
  }

  // No other step replaces the text under an evaluation without sending it to be evaluated.
  lemma TextStays(cfg: Config, c: Checkpoint, i: Input)
    requires i.Say? ==> ValidateEvent(i.event, c.s.phase) == Allowed
    ensures var d := Step(cfg, c, i);
            && d.s.problemId == c.s.problemId
            && (d.next != EvaluateLogic ==> d.s.userLogic == c.s.userLogic)
  {
    StepIsMove(cfg, c, i);
    MoveKeepsProblem(c, MoveOf(cfg, c, i));
    match MoveOf(cfg, c, i)
    case Stays =>
    case Hears(e) =>
    case Does(u) => UpdateKeepsText(c, u);
  }

  lemma UpdateKeepsText(c: Checkpoint, u: Update)
    ensures Commit(c, u).s.userLogic == c.s.userLogic
  {
  }

  /** In every history of allowed events: outside the evaluator node, the evaluation a session holds is
    * the examiner's of the text it holds. */
  lemma {:induction false} GradeIsOfTheText(cfg: Config, actions: seq<Action>, t: string, g: Examiner)
    requires PlainProblemIds(actions) && AllGradeBy(cfg, actions, g) && AllowedActions(cfg, actions)
    requires t in SystemRun(cfg, actions).sessions
    requires var c := SystemRun(cfg, actions).sessions[t]; c.next != EvaluateLogic && c.s.lastEval.Some?
    ensures exists v :: GradedAs(SystemRun(cfg, actions).sessions[t].s, g, v)
  {
    hide Step, GradesBy, SoundReads, EvaluateLogicNode, ValidateEvent, GradedAs;
    var n := |actions| - 1;
    var before, a := actions[..n], actions[n];
    var y := SystemRun(cfg, before);
    AllowedBefore(cfg, actions);
    if t in y.sessions && a.Act? && a.thread == t {
      var c := y.sessions[t];
      EvaluationOrSame(cfg, c, MetInput(y, a));
      TextStays(cfg, c, MetInput(y, a));
      if Evaluates(cfg, y, a, t) {
        EvaluatedNow(cfg, actions, t, g);
        assert GradedAs(SystemRun(cfg, actions).sessions[t].s, g, VersionOr1(c.s.problemId, a.input.world)) by {
          NowIsGraded(cfg, actions, t, g);
        }
      } else {
        StaysAtEvaluation(cfg, c, MetInput(y, a));
        GradeIsOfTheText(cfg, before, t, g);
        var v :| GradedAs(c.s, g, v);
        SameGrade(c.s, SystemRun(cfg, actions).sessions[t].s, g, v);
      }
    } else {
      GradeIsOfTheText(cfg, before, t, g);
    }
  }

  lemma SameGrade(s1: State, s2: State, g: Examiner, v: int)
    requires GradedAs(s1, g, v) && s2.lastEval == s1.lastEval
    requires s2.problemId == s1.problemId && s2.userLogic == s1.userLogic
    ensures GradedAs(s2, g, v)
  {
  }

  lemma NowIsGraded(cfg: Config, actions: seq<Action>, t: string, g: Examiner)
    requires actions != [] && t in SystemRun(cfg, actions).sessions
    requires ExaminedAt(cfg, actions, |actions| - 1, t, g, Plain(SystemRun(cfg, actions).sessions[t].s.lastEval))
    requires var c := SystemRun(cfg, actions[..|actions| - 1]).sessions[t];
             var d := SystemRun(cfg, actions).sessions[t];
             d.s.problemId == c.s.problemId && d.s.userLogic == c.s.userLogic
    ensures var c := SystemRun(cfg, actions[..|actions| - 1]).sessions[t];
            GradedAs(SystemRun(cfg, actions).sessions[t].s, g,
                     VersionOr1(c.s.problemId, actions[|actions| - 1].input.world))
  {
    hide SystemRun, Evaluates;
  }

  // A session leaves the evaluator node only by an evaluation that ends.
  lemma StaysAtEvaluation(cfg: Config, c: Checkpoint, i: Input)
    requires i.Work? ==> EvaluateLogicNode(cfg, c.s, i.world).None? || c.next != EvaluateLogic
    ensures c.next == EvaluateLogic ==> Step(cfg, c, i) == c
  {
  }

  /** The gate itself: whoever is past LOGIC holds a text the examiner passes. */
  lemma PastLogicIsPassing(cfg: Config, actions: seq<Action>, t: string, g: Examiner) returns (v: int)
    requires PlainProblemIds(actions) && AllGradeBy(cfg, actions, g) && AllowedActions(cfg, actions)
    requires t in SystemRun(cfg, actions).sessions && SystemRun(cfg, actions).sessions[t].s.phase != LOGIC
    ensures var s := SystemRun(cfg, actions).sessions[t].s;
            && GradedAs(s, g, v) && Passing(g(s.problemId, v, Normalize(s.userLogic)).verdict)
            && s.acceptedLogic.Some?
  {
    hide SystemRun, AllGradeBy, PlainProblemIds, AllowedActions, Budgeted, Told;
    EverySessionKeeps(cfg, actions, t);
    GradeIsOfTheText(cfg, actions, t, g);
    v :| GradedAs(SystemRun(cfg, actions).sessions[t].s, g, v);
  }
}
