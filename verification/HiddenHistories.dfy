/** Hidden data in the whole system: not through the shared table either, over any interleaving of
  * sessions, can it reach anything anyone sees. */
module HiddenHistories {
  import opened Redaction
  import opened Session
  import opened VerdictCache
  import opened HiddenData

  // The same action, but for what must stay hidden.
  ghost predicate TwinActs(a: Action, b: Action) {
    match a
    case Act(t, i, readable, writable) =>
      b.Act? && b.thread == t && b.readable == readable && b.writable == writable && TwinInputs(i, b.input)
    case _ => b == a
  }

  ghost predicate TwinHistories(a: seq<Action>, b: seq<Action>) {
    |a| == |b| && forall j :: 0 <= j < |a| ==> TwinActs(a[j], b[j])
  }

  ghost predicate TwinSystems(y1: SystemState, y2: SystemState) {
    && y1.rows == y2.rows && y1.sessions.Keys == y2.sessions.Keys
    && forall t :: t in y1.sessions ==> Twins(y1.sessions[t], y2.sessions[t])
  }

  lemma TwinReads(w1: World, w2: World, rows: map<string, Payload>, readable: bool)
    requires TwinWorlds(w1, w2)
    ensures TwinWorlds(Through(w1, rows, readable), Through(w2, rows, readable))
  {
  }

  // Twins store the same row: neither a verdict nor a summary depends on an execution.
  lemma TwinRows(cfg: Config, c1: Checkpoint, c2: Checkpoint, w1: World, w2: World)
    requires Twins(c1, c2) && TwinWorlds(w1, w2)
    ensures Stored(cfg, c1, w1) == Stored(cfg, c2, w2)
  {
    hide FreshEvaluation, Blind;
    TwinsAgree(c1, c2);
    if w1.context(c1.s.problemId).Some? {
      TwinEvaluations(cfg, c1.s.userLogic, w1.context(c1.s.problemId).value, w1, w2);
    }
    SameSummary(c1.s, w1, w2);
    assert FreshSummary(c1.s, w2) == FreshSummary(c2.s, w2);
  }

  lemma TwinAction(cfg: Config, y1: SystemState, y2: SystemState, a: Action, b: Action)
    requires TwinSystems(y1, y2) && TwinActs(a, b)
    ensures TwinSystems(SystemStep(cfg, y1, a), SystemStep(cfg, y2, b))
  {
    hide Step, Stored, Twins, TwinWorlds;
    match a
    case Open(t, p, u) =>
      if t !in y1.sessions { SameAreTwins(Initial(p, u, t)); }
    case Drop(_) =>
    case Act(t, i, readable, writable) =>
      if t in y1.sessions {
        if i.Work? {
          TwinReads(i.world, b.input.world, y1.rows, readable);
          TwinRows(cfg, y1.sessions[t], y2.sessions[t], Through(i.world, y1.rows, readable),
                   Through(b.input.world, y1.rows, readable));
        }
        TwinSteps(cfg, y1.sessions[t], y2.sessions[t], MetInput(y1, a), MetInput(y2, b));
      }
  }

  lemma SameAreTwins(c: Checkpoint)
    ensures Twins(c, c)
  {
  }

  lemma {:induction false} HistoriesStayTwins(cfg: Config, a: seq<Action>, b: seq<Action>)
    requires TwinHistories(a, b)
    ensures TwinSystems(SystemRun(cfg, a), SystemRun(cfg, b))
    decreases |a|
  {
    hide SystemStep, TwinActs;
    if a == [] {
      NothingIsTwin(cfg);
    } else {
      var n := |a| - 1;
      HistoriesStayTwins(cfg, a[..n], b[..n]);
      TwinAction(cfg, SystemRun(cfg, a[..n]), SystemRun(cfg, b[..n]), a[n], b[n]);
    }
  }

  lemma NothingIsTwin(cfg: Config)
    ensures TwinSystems(SystemRun(cfg, []), SystemRun(cfg, []))
  {
  }

  /** Two histories with the same events, the same failures and the same models, whose sandboxes
    * answer alike but for hidden data: the shared tables are equal, and so are every session's view,
    * transcript, next node and next prompt. */
  lemma HiddenDataNeverLeaks(cfg: Config, a: seq<Action>, b: seq<Action>, t: string, traceId: string,
                             w1: World, w2: World)
    requires TwinHistories(a, b) && TwinWorlds(w1, w2)
    ensures SystemRun(cfg, a).rows == SystemRun(cfg, b).rows
    ensures t in SystemRun(cfg, a).sessions <==> t in SystemRun(cfg, b).sessions
    ensures t in SystemRun(cfg, a).sessions ==>
              var c1, c2 := SystemRun(cfg, a).sessions[t], SystemRun(cfg, b).sessions[t];
              && View(c1.s, t, traceId) == View(c2.s, t, traceId)
              && c1.s.messages == c2.s.messages && c1.next == c2.next
              && PromptAt(c1, w1) == PromptAt(c2, w2)
  {
    hide SystemRun, TutorSummary, StrippedView, Blind;
    HistoriesStayTwins(cfg, a, b);
    if t in SystemRun(cfg, a).sessions {
      TwinsAgree(SystemRun(cfg, a).sessions[t], SystemRun(cfg, b).sessions[t]);
      TwinPrompts(SystemRun(cfg, a).sessions[t], SystemRun(cfg, b).sessions[t], w1, w2);
    }
  }
}
