/** One turn, from an event to the next wait: it always ends, within a known number of nodes. */
module TurnEnds {
  import opened Llm
  import opened Session
  import opened SessionSafety

  // How many nodes can still run before the session waits.
  function Rank(cfg: Config, c: Checkpoint): nat {
    var left := if c.s.regenerations > Limit(cfg) then 0 else Limit(cfg) + 1 - c.s.regenerations;
    match c.next
    case AwaitInput => 0
    case End => 0
    case Finish => 1
    case SummarizeLogic => 1
    case LogicTutor => 2 * left + 2
    case CodeTutor => 2 * left + 2
    case VerifyLogic => 2 * left + 1
    case VerifyCode => 2 * left + 1
    case EvaluateLogic => 2 * left + 3
    case ExecuteCode => 2 * left + 3
  }

  lemma UpdateLowersRank(cfg: Config, c: Checkpoint, u: Update)
    requires Legal(cfg, c, u)
    ensures Rank(cfg, Commit(c, u)) < Rank(cfg, c)
  {
  }

  /** What one invocation of the graph does, when the k-th node of the turn meets worlds(k):
    * run nodes until the session waits or a node raises. */
  function Drive(cfg: Config, c: Checkpoint, worlds: nat -> World, k: nat): Checkpoint
    decreases Rank(cfg, c)
  {
    match NodeUpdate(cfg, c, worlds(k))
    case None => c
    case Some(u) =>
      UpdatesAreLegal(cfg, c, worlds(k));
      UpdateLowersRank(cfg, c, u);
      Drive(cfg, Commit(c, u), worlds, k + 1)
  }

  lemma DriveStep(cfg: Config, c: Checkpoint, worlds: nat -> World, k: nat)
    ensures var u := NodeUpdate(cfg, c, worlds(k));
            if u.None? then Drive(cfg, c, worlds, k) == c
            else Legal(cfg, c, u.value) && Rank(cfg, Commit(c, u.value)) < Rank(cfg, c)
                 && Drive(cfg, c, worlds, k) == Drive(cfg, Commit(c, u.value), worlds, k + 1)
  {
    if NodeUpdate(cfg, c, worlds(k)).Some? {
      UpdatesAreLegal(cfg, c, worlds(k));
      UpdateLowersRank(cfg, c, NodeUpdate(cfg, c, worlds(k)).value);
    }
  }

  lemma DriveWaits(cfg: Config, c: Checkpoint, worlds: nat -> World, k: nat)
    requires Suspended(c)
    ensures Drive(cfg, c, worlds, k) == c
  {
    assert NodeUpdate(cfg, c, worlds(k)).None?;
  }

  // What an event does to a stored session: a waiting one takes it up, any other only
  // carries on with the node it stopped at.
  function HandleEvent(cfg: Config, c: Checkpoint, e: Event, worlds: nat -> World): Checkpoint {
    Drive(cfg, if c.next == AwaitInput then Resume(c, e) else c, worlds, 0)
  }

  function Works(worlds: nat -> World, k: nat, n: nat): (inputs: seq<Input>)
    ensures |inputs| == n
  {
    if n == 0 then [] else Works(worlds, k, n - 1) + [Work(worlds(k + n - 1))]
  }

  // An invocation is a run of single nodes, no longer than the rank.
  lemma {:induction false} DriveIsRun(cfg: Config, c: Checkpoint, worlds: nat -> World, k: nat) returns (n: nat)
    ensures n <= Rank(cfg, c)
    ensures Drive(cfg, c, worlds, k) == Run(cfg, c, Works(worlds, k, n))
    decreases Rank(cfg, c)
  {
    match NodeUpdate(cfg, c, worlds(k))
    case None => n := 0;
    case Some(u) =>
      UpdatesAreLegal(cfg, c, worlds(k));
      UpdateLowersRank(cfg, c, u);
      var rest := DriveIsRun(cfg, Commit(c, u), worlds, k + 1);
      n := rest + 1;
      assert Step(cfg, c, Work(worlds(k))) == Commit(c, u);
      RunShift(cfg, c, worlds, k, rest);
  }

  lemma {:induction false} RunShift(cfg: Config, c: Checkpoint, worlds: nat -> World, k: nat, n: nat)
    ensures Run(cfg, c, Works(worlds, k, n + 1)) == Run(cfg, Step(cfg, c, Work(worlds(k))), Works(worlds, k + 1, n))
  {
    var longer := Works(worlds, k, n + 1);
    assert longer[..|longer| - 1] == Works(worlds, k, n);
    if n == 0 {
      assert Works(worlds, k, 0) == [];
    } else {
      RunShift(cfg, c, worlds, k, n - 1);
      var shorter := Works(worlds, k + 1, n);
      assert shorter[..|shorter| - 1] == Works(worlds, k + 1, n - 1);
    }
  }

  // The services answer: the problem is known, and the model's replies are usable.
  ghost predicate Responsive(w: World) {
    && (forall p :: w.context(p).Some?)
    && (forall q :: Complete(w.tutor(q)).Some?)
    && (forall q :: ParsedReply(w.evaluator(q), w.parseVerdict).Some?)
  }

  lemma AnsweredNodeRuns(cfg: Config, c: Checkpoint, w: World)
    requires Responsive(w) && !Suspended(c)
    ensures NodeUpdate(cfg, c, w).Some?
  {
    assert w.context(c.s.problemId).Some?;
    if IsTutor(c.next) {
      var prompt := PromptAt(c, w);
      assert prompt.Some? && Complete(w.tutor(prompt.value)).Some?;
    }
  }

  // As long as the services answer, the turn runs to the next wait.
  lemma {:induction false} AnsweredTurnEnds(cfg: Config, c: Checkpoint, worlds: nat -> World, k: nat)
    requires forall j :: j >= k ==> Responsive(worlds(j))
    ensures Suspended(Drive(cfg, c, worlds, k))
    decreases Rank(cfg, c)
  {
    if Suspended(c) {
      assert NodeUpdate(cfg, c, worlds(k)).None?;
    } else {
      AnsweredNodeRuns(cfg, c, worlds(k));
      var u := NodeUpdate(cfg, c, worlds(k)).value;
      UpdatesAreLegal(cfg, c, worlds(k));
      UpdateLowersRank(cfg, c, u);
      AnsweredTurnEnds(cfg, Commit(c, u), worlds, k + 1);
    }
  }

  // A turn that starts from an event runs at most 2 * max(MAX_REGENERATIONS, 0) + 5 nodes.
  lemma TurnIsShort(cfg: Config, c: Checkpoint, e: Event)
    requires c.next == AwaitInput
    ensures Rank(cfg, Resume(c, e)) <= 2 * Limit(cfg) + 5
  {
  }
}
