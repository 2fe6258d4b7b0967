/** Whole turns over the shared table against a reference that only asks the examiner and reads the
  * bucket: whatever the tutors and summaries say, and wherever a service fails. */
module CachedTurns {
  import opened Text
  import opened Keys
  import opened Redaction
  import opened Session
  import opened SessionSafety
  import opened TurnEnds
  import opened VerdictCache
  import opened Histories

  /** Where a session stands, leaving out what the models worded freely. */
  datatype Standing = Standing(next: Node, problemId: string, phase: Phase, lastEval: Option<Evaluation>)

  function StandingOf(c: Checkpoint): Standing {
    Standing(c.next, c.s.problemId, c.s.phase, Plain(c.s.lastEval))
  }

  // The turn as a cacheless reference takes it: the examiner and the bucket decide.
  function ReferenceTurn(st: Standing, e: Event, version: int, bucket: Bucket, g: Examiner): Standing {
    if e.etype == ELogic then
      var evaluation := g(st.problemId, version, Normalize(e.text)).(cacheHit := false);
      st.(lastEval := Some(evaluation), phase := if Passing(evaluation.verdict) then CODE else LOGIC)
    else if e.etype == ECode && bucket == Accepted then st.(phase := DONE, next := End)
    else st
  }

  function BucketOf(a: Answer): Bucket {
    match a case Answered(e) => e.bucket case Unreachable(_) => InfraError
  }

  // The reference, or short of it: before the evaluation if it raised, or while a tutor's turn is
  // unfinished.
  predicate Reached(before: Standing, after: Standing, reference: Standing) {
    || after == reference
    || after == before.(next := EvaluateLogic)
    || (after == reference.(next := after.next) && (IsTutor(after.next) || IsVerifier(after.next)))
  }

  // ---------------------------------------------------------------- node by node

  lemma TutoringUpdate(cfg: Config, c: Checkpoint, u: Update)
    requires (IsTutor(c.next) || IsVerifier(c.next)) && Legal(cfg, c, u)
    ensures var d := Commit(c, u);
            && StandingOf(d) == StandingOf(c).(next := d.next)
            && (d.next == AwaitInput || IsTutor(d.next) || IsVerifier(d.next))
  {
  }

  lemma {:induction false} TutoringKeepsStanding(cfg: Config, c: Checkpoint, worlds: nat -> World, k: nat)
    requires IsTutor(c.next) || IsVerifier(c.next)
    ensures var d := Drive(cfg, c, worlds, k);
            && StandingOf(d) == StandingOf(c).(next := d.next)
            && (d.next == AwaitInput || IsTutor(d.next) || IsVerifier(d.next))
    decreases Rank(cfg, c)
  {
    hide Drive, NodeUpdate, Legal, Commit, Rank;
    DriveStep(cfg, c, worlds, k);
    var u := NodeUpdate(cfg, c, worlds(k));
    if u.Some? {
      var d := Commit(c, u.value);
      TutoringUpdate(cfg, c, u.value);
      if d.next == AwaitInput {
        DriveWaits(cfg, d, worlds, k + 1);
      } else {
        TutoringKeepsStanding(cfg, d, worlds, k + 1);
      }
    }
  }

  // The evaluation, as any turn takes it, unless it raises: the examiner's, and the way on.
  lemma EvaluationStep(cfg: Config, c: Checkpoint, worlds: nat -> World, g: Examiner) returns (d: Checkpoint)
    requires c.next == EvaluateLogic && ':' !in c.s.problemId
    requires GradesBy(cfg, worlds(0), g) && SoundReads(worlds(0), g)
    ensures Drive(cfg, c, worlds, 0) == if d == c then c else Drive(cfg, d, worlds, 1)
    ensures var e := g(c.s.problemId, VersionOr1(c.s.problemId, worlds(0)), Normalize(c.s.userLogic));
            d == c || (StandingOf(d) == StandingOf(c).(next := d.next, lastEval := Plain(Some(e)))
                       && d.next == if Passing(e.verdict) then SummarizeLogic else LogicTutor)
  {
    DriveStep(cfg, c, worlds, 0);
    var u := NodeUpdate(cfg, c, worlds(0));
    if u.None? {
      d := c;
    } else {
      EvaluationIsExaminers(cfg, c.s, worlds(0), g);
      d := Commit(c, u.value);
      assert Plain(Some(u.value.evaluation)).value.verdict == u.value.evaluation.verdict;
    }
  }

  lemma UnlockStep(cfg: Config, c: Checkpoint, worlds: nat -> World, k: nat)
    requires c.next == SummarizeLogic
    ensures StandingOf(Drive(cfg, c, worlds, k)) == StandingOf(c).(next := AwaitInput, phase := CODE)
  {
    hide Drive;
    DriveStep(cfg, c, worlds, k);
    var d := Commit(c, NodeUpdate(cfg, c, worlds(k)).value);
    assert StandingOf(d) == StandingOf(c).(next := AwaitInput, phase := CODE);
    DriveWaits(cfg, d, worlds, k + 1);
  }

  lemma ExecutionStep(cfg: Config, c: Checkpoint, worlds: nat -> World) returns (d: Checkpoint)
    requires c.next == ExecuteCode
    ensures Drive(cfg, c, worlds, 0) == Drive(cfg, d, worlds, 1)
    ensures StandingOf(d) == StandingOf(c).(next := d.next)
    ensures var bucket := BucketOf(worlds(0).execute(c.s.problemId, c.s.userCode));
            d.next == if bucket == Accepted then Finish else if bucket == InfraError then AwaitInput else CodeTutor
  {
    hide Drive;
    DriveStep(cfg, c, worlds, 0);
    d := Commit(c, NodeUpdate(cfg, c, worlds(0)).value);
  }

  lemma FinishStep(cfg: Config, c: Checkpoint, worlds: nat -> World, k: nat)
    requires c.next == Finish
    ensures StandingOf(Drive(cfg, c, worlds, k)) == StandingOf(c).(next := End, phase := DONE)
  {
    hide Drive;
    DriveStep(cfg, c, worlds, k);
    DriveWaits(cfg, Commit(c, Finished), worlds, k + 1);
  }

  // ---------------------------------------------------------------- one turn

  lemma LogicTurn(cfg: Config, c: Checkpoint, e: Event, worlds: nat -> World, g: Examiner)
    requires c.next == AwaitInput && c.s.phase == LOGIC && e.etype == ELogic
    requires ':' !in c.s.problemId && GradesBy(cfg, worlds(0), g) && SoundReads(worlds(0), g)
    ensures Reached(StandingOf(c), StandingOf(HandleEvent(cfg, c, e, worlds)),
                    ReferenceTurn(StandingOf(c), e, VersionOr1(c.s.problemId, worlds(0)), InfraError, g))
  {
    hide Drive, NodeUpdate, GradesBy, SoundReads;
    var c1 := Resume(c, e);
    assert c1.next == EvaluateLogic && c1.s.userLogic == e.text;
    assert StandingOf(c1) == StandingOf(c).(next := EvaluateLogic);
    var c2 := EvaluationStep(cfg, c1, worlds, g);
    if c2 != c1 {
      if c2.next == LogicTutor {
        TutoringKeepsStanding(cfg, c2, worlds, 1);
      } else {
        UnlockStep(cfg, c2, worlds, 1);
      }
    }
  }

  lemma ChatTurn(cfg: Config, c: Checkpoint, e: Event, worlds: nat -> World)
    requires c.next == AwaitInput && c.s.phase != DONE && e.etype == EChat
    ensures Reached(StandingOf(c), StandingOf(HandleEvent(cfg, c, e, worlds)), StandingOf(c))
  {
    hide Drive;
    var c1 := Resume(c, e);
    assert IsTutor(c1.next) && StandingOf(c1) == StandingOf(c).(next := c1.next);
    TutoringKeepsStanding(cfg, c1, worlds, 0);
  }

  lemma CodeTurn(cfg: Config, c: Checkpoint, e: Event, worlds: nat -> World, version: int, g: Examiner)
    requires c.next == AwaitInput && c.s.phase == CODE && e.etype == ECode
    ensures Reached(StandingOf(c), StandingOf(HandleEvent(cfg, c, e, worlds)),
                    ReferenceTurn(StandingOf(c), e, version, BucketOf(worlds(0).execute(c.s.problemId, e.text)), g))
  {
    hide Drive, NodeUpdate;
    var c1 := Resume(c, e);
    assert c1.next == ExecuteCode && c1.s.userCode == e.text;
    assert StandingOf(c1) == StandingOf(c).(next := ExecuteCode);
    var c2 := ExecutionStep(cfg, c1, worlds);
    if c2.next == CodeTutor {
      TutoringKeepsStanding(cfg, c2, worlds, 1);
    } else if c2.next == Finish {
      FinishStep(cfg, c2, worlds, 1);
    } else {
      DriveWaits(cfg, c2, worlds, 1);
    }
  }

  datatype Turn = Turn(event: Event, worlds: nat -> World)

  // The world's cache reads go to the table some history has left, or fail.
  ghost predicate ReadsTable(cfg: Config, w: World, g: Examiner) {
    exists actions, raw, readable :: ReadsHistory(cfg, w, g, actions, raw, readable)
  }

  ghost predicate ReadsHistory(cfg: Config, w: World, g: Examiner, actions: seq<Action>, raw: World, readable: bool) {
    && PlainProblemIds(actions) && AllGradeBy(cfg, actions, g) && GradesBy(cfg, raw, g)
    && w == Through(raw, SystemRun(cfg, actions).rows, readable)
  }

  lemma TableIsSound(cfg: Config, w: World, g: Examiner)
    requires ReadsTable(cfg, w, g)
    ensures GradesBy(cfg, w, g) && SoundReads(w, g)
  {
    hide GradesBy, SoundReads, AllGradeBy, PlainProblemIds;
    var actions, raw, readable :| ReadsHistory(cfg, w, g, actions, raw, readable);
    TableReadsAreSound(cfg, actions, g, raw, readable);
    GradesThrough(cfg, raw, SystemRun(cfg, actions).rows, readable, g);
  }

  ghost predicate Answered(t: Turn) {
    forall j: nat :: Responsive(t.worlds(j))
  }

  ghost function ReferenceOf(c: Checkpoint, t: Turn, g: Examiner): Standing {
    ReferenceTurn(StandingOf(c), t.event, VersionOr1(c.s.problemId, t.worlds(0)),
                  BucketOf(t.worlds(0).execute(c.s.problemId, t.event.text)), g)
  }

  /** Over the table any history has left, one turn reaches the reference, or stops short of it at
    * the call that raised; when every call is answered it reaches the reference itself. */
  lemma TurnIsReference(cfg: Config, c: Checkpoint, t: Turn, g: Examiner)
    requires c.next == AwaitInput && ':' !in c.s.problemId && ReadsTable(cfg, t.worlds(0), g)
    requires ValidateEvent(t.event, c.s.phase) == Allowed
    ensures var d := HandleEvent(cfg, c, t.event, t.worlds);
            && Reached(StandingOf(c), StandingOf(d), ReferenceOf(c, t, g))
            && (Answered(t) ==> StandingOf(d) == ReferenceOf(c, t, g))
  {
    hide Drive, GradesBy, SoundReads, ReadsTable, Responsive;
    TableIsSound(cfg, t.worlds(0), g);
    match t.event.etype {
      case ELogic => LogicTurn(cfg, c, t.event, t.worlds, g);
      case EChat => ChatTurn(cfg, c, t.event, t.worlds);
      case ECode => CodeTurn(cfg, c, t.event, t.worlds, VersionOr1(c.s.problemId, t.worlds(0)), g);
      case EOther(_) =>
    }
    if Answered(t) {
      AnsweredTurnEnds(cfg, Resume(c, t.event), t.worlds, 0);
    }
  }

  // ---------------------------------------------------------------- whole sessions

  function Play(cfg: Config, c: Checkpoint, turns: seq<Turn>): Checkpoint {
    if turns == [] then c else
      var last := turns[|turns| - 1];
      HandleEvent(cfg, Play(cfg, c, turns[..|turns| - 1]), last.event, last.worlds)
  }

  ghost predicate FairTurn(cfg: Config, t: Turn, g: Examiner) {
    Answered(t) && ReadsTable(cfg, t.worlds(0), g)
  }

  // The same event, meeting the same rubric version and the same verdict on the code.
  ghost predicate SameOutside(p: string, a: Turn, b: Turn) {
    && a.event == b.event
    && VersionOr1(p, a.worlds(0)) == VersionOr1(p, b.worlds(0))
    && BucketOf(a.worlds(0).execute(p, a.event.text)) == BucketOf(b.worlds(0).execute(p, a.event.text))
  }

  // Every event of the play is one the API lets through.
  ghost predicate AllowedPlay(cfg: Config, c: Checkpoint, turns: seq<Turn>) {
    forall j :: 0 <= j < |turns| ==>
                  ValidateEvent(turns[j].event, Play(cfg, c, turns[..j]).s.phase) == Allowed
  }

  // What two plays keep in step after every turn.
  ghost predicate Level(p: string, x: Checkpoint, y: Checkpoint) {
    && StandingOf(x) == StandingOf(y) && x.s.problemId == p
    && (x.s.phase != DONE ==> x.next == AwaitInput)
  }

  lemma TurnStaysLevel(cfg: Config, p: string, x: Checkpoint, y: Checkpoint, a: Turn, b: Turn, g: Examiner)
    requires ':' !in p && Level(p, x, y)
    requires FairTurn(cfg, a, g) && FairTurn(cfg, b, g) && SameOutside(p, a, b)
    requires ValidateEvent(a.event, x.s.phase) == Allowed
    ensures ValidateEvent(b.event, y.s.phase) == Allowed
    ensures Level(p, HandleEvent(cfg, x, a.event, a.worlds), HandleEvent(cfg, y, b.event, b.worlds))
  {
    hide Drive, ReadsTable, Responsive;
    StandingShows(x);
    StandingShows(y);
    TurnIsReference(cfg, x, a, g);
    TurnIsReference(cfg, y, b, g);
    StandingShows(HandleEvent(cfg, x, a.event, a.worlds));
  }

  lemma StandingShows(c: Checkpoint)
    ensures var st := StandingOf(c); c.next == st.next && c.s.problemId == st.problemId && c.s.phase == st.phase
  {
  }

  lemma LevelWithItself(p: string, c: Checkpoint)
    requires c.s.problemId == p && c.next == AwaitInput
    ensures Level(p, c, c)
  {
  }

  /** Two plays of the same answered events, over whatever the table holds or over none, go through
    * the same phases, verdicts and waits to the end, whatever the tutors and summaries say. */
  lemma {:induction false} PlaysStayLevel(
    cfg: Config, c: Checkpoint, p: string, a: seq<Turn>, b: seq<Turn>, g: Examiner)
    requires ':' !in p && c.s.problemId == p && c.next == AwaitInput && |a| == |b|
    requires forall j :: 0 <= j < |a| ==> FairTurn(cfg, a[j], g) && FairTurn(cfg, b[j], g) && SameOutside(p, a[j], b[j])
    requires AllowedPlay(cfg, c, a)
    ensures Level(p, Play(cfg, c, a), Play(cfg, c, b))
    ensures AllowedPlay(cfg, c, b)
    decreases |a|
  {
    hide HandleEvent, ValidateEvent, FairTurn, SameOutside, Level;
    if a == [] {
      LevelWithItself(p, c);
    } else {
      var n := |a| - 1;
      PrefixIsAllowed(cfg, c, a, n);
      PlaysStayLevel(cfg, c, p, a[..n], b[..n], g);
      TurnStaysLevel(cfg, p, Play(cfg, c, a[..n]), Play(cfg, c, b[..n]), a[n], b[n], g);
      OneMoreTurn(cfg, c, b, n);
    }
  }

  lemma PrefixIsAllowed(cfg: Config, c: Checkpoint, turns: seq<Turn>, n: nat)
    requires n < |turns| && AllowedPlay(cfg, c, turns)
    ensures AllowedPlay(cfg, c, turns[..n])
    ensures ValidateEvent(turns[n].event, Play(cfg, c, turns[..n]).s.phase) == Allowed
  {
    hide HandleEvent, ValidateEvent;
    forall j | 0 <= j < n ensures ValidateEvent(turns[..n][j].event, Play(cfg, c, turns[..n][..j]).s.phase) == Allowed {
      assert turns[..n][..j] == turns[..j];
    }
  }

  lemma OneMoreTurn(cfg: Config, c: Checkpoint, turns: seq<Turn>, n: nat)
    requires |turns| == n + 1 && AllowedPlay(cfg, c, turns[..n])
    requires ValidateEvent(turns[n].event, Play(cfg, c, turns[..n]).s.phase) == Allowed
    ensures AllowedPlay(cfg, c, turns)
  {
    hide HandleEvent, ValidateEvent;
    forall j | 0 <= j < |turns| ensures ValidateEvent(turns[j].event, Play(cfg, c, turns[..j]).s.phase) == Allowed {
      if j < n {
        assert turns[..n][j] == turns[j] && turns[..n][..j] == turns[..j];
      }
    }
  }
}
