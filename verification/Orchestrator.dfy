/** The orchestrator's API over stored sessions and the table they share: start, event, reset and
  * read. Every state it can be in is one the interleaved system reaches. */
module OrchestratorApi {
  import opened Text
  import opened Session
  import opened SessionSafety
  import opened Transcript
  import opened TurnEnds
  import opened VerdictCache
  import opened Histories
  import opened Nodes

  // ---------------------------------------------------------------- reachable sessions

  // The session of this thread is what some validated run leaves.
  ghost predicate Reachable(cfg: Config, thread: string, c: Checkpoint) {
    exists p, u, inputs :: Leads(cfg, p, u, thread, inputs, c)
  }

  ghost predicate Leads(cfg: Config, p: string, u: string, thread: string, inputs: seq<Input>, c: Checkpoint) {
    Validated(cfg, Initial(p, u, thread), inputs) && c == Run(cfg, Initial(p, u, thread), inputs)
  }

  lemma {:induction false} RunConcat(cfg: Config, c0: Checkpoint, a: seq<Input>, b: seq<Input>)
    ensures Run(cfg, c0, a + b) == Run(cfg, Run(cfg, c0, a), b)
    decreases |b|
  {
    if b == [] {
      assert a + b == a;
    } else {
      RunConcat(cfg, c0, a, b[..|b| - 1]);
      assert (a + b)[..|a + b| - 1] == a + b[..|b| - 1];
    }
  }

  lemma {:induction false} WorksStayValidated(
    cfg: Config, c0: Checkpoint, inputs: seq<Input>, worlds: nat -> World, k: nat, n: nat)
    requires Validated(cfg, c0, inputs)
    ensures Validated(cfg, c0, inputs + Works(worlds, k, n))
  {
    hide Run, Validated, Step, ValidateEvent;
    if n == 0 {
      assert inputs + Works(worlds, k, 0) == inputs;
    } else {
      WorksStayValidated(cfg, c0, inputs, worlds, k, n - 1);
      var shorter, last := Works(worlds, k, n - 1), Work(worlds(k + n - 1));
      OneMore(cfg, c0, inputs + shorter, last);
      assert inputs + Works(worlds, k, n) == inputs + shorter + [last];
    }
  }

  // An allowed event, handled, is a longer validated run.
  lemma HandlingIsARun(cfg: Config, p: string, u: string, thread: string, inputs: seq<Input>, c: Checkpoint,
                       e: Event, worlds: nat -> World)
    returns (longer: seq<Input>)
    requires Leads(cfg, p, u, thread, inputs, c)
    requires ValidateEvent(e, c.s.phase) == Allowed
    ensures inputs <= longer && Leads(cfg, p, u, thread, longer, HandleEvent(cfg, c, e, worlds))
  {
    var c0 := Initial(p, u, thread);
    var heard, start := inputs, c;
    if c.next == AwaitInput {
      OneMore(cfg, c0, inputs, Say(e));
      heard, start := inputs + [Say(e)], Resume(c, e);
    }
    var n := DriveIsRun(cfg, start, worlds, 0);
    WorksStayValidated(cfg, c0, heard, worlds, 0, n);
    RunConcat(cfg, c0, heard, Works(worlds, 0, n));
    longer := heard + Works(worlds, 0, n);
  }

  lemma HandlingStaysReachable(cfg: Config, thread: string, c: Checkpoint, e: Event, worlds: nat -> World)
    requires Reachable(cfg, thread, c)
    requires ValidateEvent(e, c.s.phase) == Allowed
    ensures Reachable(cfg, thread, HandleEvent(cfg, c, e, worlds))
  {
    var p, u, inputs :| Leads(cfg, p, u, thread, inputs, c);
    var longer := HandlingIsARun(cfg, p, u, thread, inputs, c, e, worlds);
  }

  // ---------------------------------------------------------------- one whole turn

  // Nodes only ever add replies.
  lemma {:induction false} DriveAddsReplies(cfg: Config, c: Checkpoint, worlds: nat -> World, k: nat)
    ensures var ms := Drive(cfg, c, worlds, k).s.messages;
            c.s.messages <= ms && forall i :: |c.s.messages| <= i < |ms| ==> ms[i].role != Student
    decreases Rank(cfg, c)
  {
    if NodeUpdate(cfg, c, worlds(k)).Some? {
      var u := NodeUpdate(cfg, c, worlds(k)).value;
      UpdatesAreLegal(cfg, c, worlds(k));
      UpdateLowersRank(cfg, c, u);
      UpdateReplies(c, u);
      DriveAddsReplies(cfg, Commit(c, u), worlds, k + 1);
    }
  }

  lemma UpdateReplies(c: Checkpoint, u: Update)
    ensures var ms := Commit(c, u).s.messages;
            c.s.messages <= ms && forall i :: |c.s.messages| <= i < |ms| ==> ms[i].role != Student
  {
  }

  /** Handling an allowed event while the services answer ends in a waiting session whose
    * transcript grew by exactly one turn: the student's message and the reply, or the result and
    * the reply to it. */
  lemma WholeTurn(cfg: Config, p: string, u: string, thread: string, inputs: seq<Input>, c: Checkpoint,
                  e: Event, worlds: nat -> World)
    requires Leads(cfg, p, u, thread, inputs, c) && c.next == AwaitInput
    requires ValidateEvent(e, c.s.phase) == Allowed
    requires forall j: nat :: Responsive(worlds(j))
    ensures var d := HandleEvent(cfg, c, e, worlds);
            && Suspended(d)
            && c.s.messages <= d.s.messages
            && IsTurn(d.s.messages, |c.s.messages|, |d.s.messages|)
            && d.s.messages[|c.s.messages|].content == Typed(e.text)
  {
    hide NodeUpdate;
    var start := Resume(c, e);
    var d := Drive(cfg, start, worlds, 0);
    AllowedEventIsRouted(c, e);
    AnsweredTurnEnds(cfg, start, worlds, 0);
    DriveAddsReplies(cfg, start, worlds, 0);
    var longer := HandlingIsARun(cfg, p, u, thread, inputs, c, e, worlds);
    TranscriptIsTurns(cfg, p, u, thread, longer);
    var ms, n := d.s.messages, |c.s.messages|;
    assert start.s.messages == c.s.messages + [start.s.messages[n]] && ms[n] == start.s.messages[n];
    assert Turns(ms, |ms|);
    LastTurn(ms, n);
  }

  /** An allowed event joins the transcript exactly when the session waited for it. After a raise it
    * only retries the unfinished node: the session goes on, may even be shown, and the text the
    * student sent is not in it. */
  lemma EventJoinsIff(cfg: Config, c: Checkpoint, e: Event, worlds: nat -> World)
    requires ValidateEvent(e, c.s.phase) == Allowed
    ensures var before, after := c.s.messages, HandleEvent(cfg, c, e, worlds).s.messages;
            && before <= after
            && (c.next == AwaitInput <==> exists i :: |before| <= i < |after| && after[i].role == Student)
            && (c.next == AwaitInput ==>
                  |after| > |before| && after[|before|] == Message(Student, KindOf(e.etype), Typed(e.text))
                  && forall i :: |before| < i < |after| ==> after[i].role != Student)
  {
    hide Drive, Resume, ValidateEvent;
    if c.next == AwaitInput {
      AllowedEventIsRouted(c, e);
      DriveAddsReplies(cfg, Resume(c, e), worlds, 0);
      var n, start := |c.s.messages|, Resume(c, e).s.messages;
      var after := HandleEvent(cfg, c, e, worlds).s.messages;
      assert after[n] == start[n] && after[n].role == Student;
    } else {
      DriveAddsReplies(cfg, c, worlds, 0);
    }
  }

  lemma LastTurn(ms: seq<Message>, n: nat)
    requires n < |ms| && Turns(ms, |ms|)
    requires ms[n].role == Student && forall i :: n < i < |ms| ==> ms[i].role != Student
    ensures IsTurn(ms, n, |ms|)
  {
    var i := if |ms| >= 2 && IsTurn(ms, |ms| - 2, |ms|) then |ms| - 2 else |ms| - 3;
    assert IsTurn(ms, i, |ms|);
    TutorSpeaksOnce(ms, i, |ms|, i + 1);
    TutorSpeaksOnce(ms, i, |ms|, |ms| - 1);
    assert i == n;
  }

  // ---------------------------------------------------------------- the nodes of one turn

  /** How the table answers the k-th node of a turn: whether it can be read, and written. */
  datatype Io = Io(readable: bool, writable: bool)

  function NodeAction(thread: string, worlds: nat -> World, io: nat -> Io, k: nat): Action {
    Act(thread, Work(worlds(k)), io(k).readable, io(k).writable)
  }

  function NodeActions(thread: string, worlds: nat -> World, io: nat -> Io, n: nat): (actions: seq<Action>)
    ensures |actions| == n
  {
    if n == 0 then [] else NodeActions(thread, worlds, io, n - 1) + [NodeAction(thread, worlds, io, n - 1)]
  }

  function AfterNodes(cfg: Config, y: SystemState, thread: string, worlds: nat -> World, io: nat -> Io,
                      n: nat): SystemState
  {
    if n == 0 then y
    else SystemStep(cfg, AfterNodes(cfg, y, thread, worlds, io, n - 1), NodeAction(thread, worlds, io, n - 1))
  }

  // The worlds the nodes of the turn meet: their cache reads go to the table as it then is.
  ghost function MetWorlds(cfg: Config, y: SystemState, thread: string, worlds: nat -> World,
                           io: nat -> Io): nat -> World
  {
    (k: nat) => Through(worlds(k), AfterNodes(cfg, y, thread, worlds, io, k).rows, io(k).readable)
  }

  // One node's action on the system: its own session and at most one row.
  lemma WorkStep(cfg: Config, y: SystemState, thread: string, w: World, io: Io)
    requires thread in y.sessions
    ensures var c, met := y.sessions[thread], Through(w, y.rows, io.readable);
            var update := NodeUpdate(cfg, c, met);
            SystemStep(cfg, y, Act(thread, Work(w), io.readable, io.writable))
            == SystemState(y.sessions[thread := if update.None? then c else Commit(c, update.value)],
                           Kept(y.rows, Stored(cfg, c, met), io.writable))
  {
    hide NodeUpdate, Stored, Kept, Commit;
  }

  // After k nodes: the rest of the drive is what is left of the whole.
  ghost predicate OnTheWay(cfg: Config, y: SystemState, thread: string, worlds: nat -> World, io: nat -> Io,
                           yk: SystemState, k: nat)
  {
    && thread in y.sessions && thread in yk.sessions
    && yk == AfterNodes(cfg, y, thread, worlds, io, k)
    && var met := MetWorlds(cfg, y, thread, worlds, io);
       Drive(cfg, yk.sessions[thread], met, k) == Drive(cfg, y.sessions[thread], met, 0)
  }

  lemma NodeOnTheWay(cfg: Config, y: SystemState, thread: string, worlds: nat -> World, io: nat -> Io,
                     yk: SystemState, k: nat)
    requires OnTheWay(cfg, y, thread, worlds, io, yk, k)
    ensures var c, met := yk.sessions[thread], Through(worlds(k), yk.rows, io(k).readable);
            var update := NodeUpdate(cfg, c, met);
            if update.None? then c == Drive(cfg, y.sessions[thread], MetWorlds(cfg, y, thread, worlds, io), 0)
            else Rank(cfg, Commit(c, update.value)) < Rank(cfg, c)
                 && OnTheWay(cfg, y, thread, worlds, io, SystemStep(cfg, yk, NodeAction(thread, worlds, io, k)), k + 1)
  {
    hide NodeUpdate, Drive, Rank, Commit, Kept, Stored, Legal, SystemStep;
    var met := MetWorlds(cfg, y, thread, worlds, io);
    assert met(k) == Through(worlds(k), yk.rows, io(k).readable);
    DriveStep(cfg, yk.sessions[thread], met, k);
    WorkStep(cfg, yk, thread, worlds(k), io(k));
  }

  lemma NothingDone(cfg: Config, y: SystemState, thread: string, worlds: nat -> World, io: nat -> Io)
    requires thread in y.sessions
    ensures OnTheWay(cfg, y, thread, worlds, io, y, 0) && NodeActions(thread, worlds, io, 0) == []
  {
  }

  lemma NodeActionsAppend(thread: string, worlds: nat -> World, io: nat -> Io, k: nat)
    ensures NodeActions(thread, worlds, io, k + 1)
            == NodeActions(thread, worlds, io, k) + [NodeAction(thread, worlds, io, k)]
  {
  }

  lemma Arrived(cfg: Config, y: SystemState, thread: string, worlds: nat -> World, io: nat -> Io,
                yk: SystemState, k: nat)
    requires OnTheWay(cfg, y, thread, worlds, io, yk, k) && Suspended(yk.sessions[thread])
    ensures yk.sessions[thread] == Drive(cfg, y.sessions[thread], MetWorlds(cfg, y, thread, worlds, io), 0)
  {
    DriveWaits(cfg, yk.sessions[thread], MetWorlds(cfg, y, thread, worlds, io), k);
  }

  lemma MetResponds(cfg: Config, y: SystemState, thread: string, worlds: nat -> World, io: nat -> Io, j: nat)
    requires Responsive(worlds(j))
    ensures Responsive(MetWorlds(cfg, y, thread, worlds, io)(j))
  {
  }

  /** A waiting session of any allowed history, over the shared table however it answers: while the
    * other services answer, one allowed event is one whole turn. */
  lemma PostIsWholeTurn(cfg: Config, history: seq<Action>, thread: string, e: Event,
                        worlds: nat -> World, io: nat -> Io)
    requires AllowedActions(cfg, history) && thread in SystemRun(cfg, history).sessions
    requires var c := SystemRun(cfg, history).sessions[thread];
             c.next == AwaitInput && ValidateEvent(e, c.s.phase) == Allowed
    requires forall j: nat :: Responsive(worlds(j))
    ensures var y := SystemRun(cfg, history);
            var met := MetWorlds(cfg, SystemStep(cfg, y, Act(thread, Say(e), true, true)), thread, worlds, io);
            var c, d := y.sessions[thread], HandleEvent(cfg, y.sessions[thread], e, met);
            && Suspended(d) && c.s.messages <= d.s.messages
            && IsTurn(d.s.messages, |c.s.messages|, |d.s.messages|)
            && d.s.messages[|c.s.messages|].content == Typed(e.text)
  {
    hide Run, Validated, SystemStep, ValidateEvent, HandleEvent, Responsive, AllowedActions, MetWorlds, IsTurn;
    var y := SystemRun(cfg, history);
    var after := SystemStep(cfg, y, Act(thread, Say(e), true, true));
    var met := MetWorlds(cfg, after, thread, worlds, io);
    forall j: nat ensures Responsive(met(j)) {
      MetResponds(cfg, after, thread, worlds, io, j);
    }
    var p, u := SessionIsRun(cfg, history, thread);
    WholeTurn(cfg, p, u, thread, Met(cfg, history, thread), y.sessions[thread], e, met);
  }

  // ---------------------------------------------------------------- the API

  datatype Reply = Shown(view: SessionView) | NotFound | TurnedAway(ruling: Ruling) | ServerError

  // The view of a waiting session; a session that does not wait has met a raise.
  function ReplyFor(c: Checkpoint, thread: string, traceId: string): Reply {
    if Suspended(c) then Shown(View(c.s, thread, traceId)) else ServerError
  }

  function UserOf(userId: Option<string>): string {
    if userId.Some? && userId.value != "" then userId.value else "demo-user"
  }

  class Orchestrator {
    const cfg: Config
    const cache: Cache
    var threads: map<string, Checkpoint>
    ghost var history: seq<Action>   // everything that was ever done

    function State(): SystemState
      reads this, cache
    {
      SystemState(threads, cache.rows)
    }

    // The store and the table are what the history leaves, and it holds allowed events only.
    ghost predicate Valid()
      reads this, cache
    {
      State() == SystemRun(cfg, history) && AllowedActions(cfg, history)
    }

    constructor (cfg: Config)
      ensures Valid() && fresh(cache) && history == [] && this.cfg == cfg
    {
      this.cfg := cfg;
      cache := new Cache();
      threads := map[];
      history := [];
    }

    // Every stored session is what a validated run of its own thread leaves.
    lemma StoredIsReachable(thread: string)
      requires Valid() && thread in threads
      ensures Reachable(cfg, thread, threads[thread])
    {
      var p, u := SessionIsRun(cfg, history, thread);
      assert Leads(cfg, p, u, thread, Met(cfg, history, thread), threads[thread]);
    }

    method Start(thread: string, problemId: string, userId: Option<string>, traceId: string)
      returns (view: SessionView)
      requires Valid()
      modifies this
      ensures var user := if userId.None? || userId == Some("") then "demo-user" else userId.value;
              && Valid() && history == old(history) + [Open(thread, problemId, user)]
              && threads == if thread in old(threads) then old(threads)
                            else old(threads)[thread := Initial(problemId, user, thread)]
      ensures view == View(threads[thread].s, thread, traceId)
    {
      Record(Open(thread, problemId, UserOf(userId)));
      if thread in threads {
        return View(threads[thread].s, thread, traceId);
      }
      threads := threads[thread := Initial(problemId, UserOf(userId), thread)];
      view := View(threads[thread].s, thread, traceId);
    }

    // The history grows by one action; the state is still to follow it.
    ghost method Record(a: Action)
      requires Valid() && AllowedAt(State(), a)
      modifies this`history
      ensures history == old(history) + [a] && AllowedActions(cfg, history)
      ensures SystemRun(cfg, history) == SystemStep(cfg, State(), a)
    {
      AllowedAfter(cfg, history, a);
      OneMoreAction(cfg, history, a);
      history := history + [a];
    }

    method Reset(thread: string)
      requires Valid()
      modifies this
      ensures Valid() && history == old(history) + [Drop(thread)]
      ensures threads == old(threads) - {thread}
    {
      Record(Drop(thread));
      threads := threads - {thread};
    }

    method GetSession(thread: string, traceId: string) returns (reply: Reply)
      requires Valid()
      ensures reply == if thread in threads then Shown(View(threads[thread].s, thread, traceId)) else NotFound
    {
      if thread !in threads {
        return NotFound;
      }
      reply := Shown(View(threads[thread].s, thread, traceId));
    }

    // An event is taken up by a waiting session only.
    method Hear(thread: string, e: Event)
      requires Valid() && thread in threads && ValidateEvent(e, threads[thread].s.phase) == Allowed
      modifies this
      ensures Valid() && history == old(history) + [Act(thread, Say(e), true, true)]
      ensures threads == old(threads)[thread := if old(threads)[thread].next == AwaitInput
                                                then Resume(old(threads)[thread], e) else old(threads)[thread]]
      ensures State() == SystemStep(cfg, old(State()), Act(thread, Say(e), true, true))
    {
      hide SystemRun, AllowedActions, ValidateEvent, Receive, RouteAfterInput;
      Record(Act(thread, Say(e), true, true));
      if threads[thread].next == AwaitInput {
        var t := AwaitEvent(threads[thread].s, e);
        threads := threads[thread := Checkpoint(RouteAfterInput(t), t)];
      }
    }

    method RunNode(c: Checkpoint, w: World, readable: bool, writable: bool) returns (left: Option<Session.State>)
      modifies cache
      ensures var met := Through(w, old(cache.rows), readable);
              && left == Left(c, NodeUpdate(cfg, c, met))
              && cache.rows == Kept(old(cache.rows), Stored(cfg, c, met), writable)
    {
      left := None;
      match c.next {
        case EvaluateLogic => left := EvaluateText(cfg, c, w, cache, readable, writable);
        case SummarizeLogic => left := Summarize(cfg, c, w, cache, readable, writable);
        case LogicTutor => left := DraftReply(c, w);
        case CodeTutor => left := DraftReply(c, w);
        case VerifyLogic => left := VerifyDraft(cfg, c, w);
        case VerifyCode => left := VerifyDraft(cfg, c, w);
        case ExecuteCode => var t := RunCode(c, w); left := Some(t);
        case Finish => var t := Conclude(c.s); left := Some(t);
        case AwaitInput =>
        case End =>
      }
      OnlyTwoRead(cfg, c, w, cache.rows, readable);
    }

    /** One node of one session, over the store and the table: one action of the system. */
    method RunPending(thread: string, w: World, io: Io) returns (raised: bool)
      requires Valid() && thread in threads
      modifies this, cache
      ensures Valid() && history == old(history) + [Act(thread, Work(w), io.readable, io.writable)]
      ensures thread in threads && threads == old(threads)[thread := threads[thread]]
      ensures var met := Through(w, old(cache.rows), io.readable);
              var c := old(threads)[thread];
              var update := NodeUpdate(cfg, c, met);
              && (raised <==> update.None?)
              && threads[thread] == if update.None? then c else Commit(c, update.value)
      ensures State() == SystemStep(cfg, old(State()), Act(thread, Work(w), io.readable, io.writable))
    {
      hide SystemStep, SystemRun, AllowedActions, NodeUpdate, Stored, Kept, Merge, Route;
      WorkStep(cfg, State(), thread, w, io);
      Record(Act(thread, Work(w), io.readable, io.writable));
      var c := threads[thread];
      var left := RunNode(c, w, io.readable, io.writable);
      raised := left.None?;
      if left.Some? {
        threads := threads[thread := Checkpoint(Route(c.next, left.value), left.value)];
      } else {
        assert threads[thread := c] == threads;
      }
    }

    /** The graph runs node by node until the session waits or a node raises; every node is one
      * action of the history and is committed on its own. */
    method Invoke(thread: string, worlds: nat -> World, io: nat -> Io) returns (raised: bool, ghost n: nat)
      requires Valid() && thread in threads
      modifies this, cache
      ensures Valid() && history == old(history) + NodeActions(thread, worlds, io, n)
      ensures threads == old(threads)[thread := Drive(cfg, old(threads)[thread],
                                                      MetWorlds(cfg, old(State()), thread, worlds, io), 0)]
      ensures raised <==> !Suspended(threads[thread])
    {
      hide OnTheWay, SystemStep, SystemRun, NodeUpdate, Drive, Rank, AllowedActions, Commit, NodeActions;
      ghost var before, y := threads, State();
      NothingDone(cfg, y, thread, worlds, io);
      assert history + NodeActions(thread, worlds, io, 0) == history;
      var k := 0;
      while !Suspended(threads[thread])
        invariant Valid() && thread in threads && threads == before[thread := threads[thread]]
        invariant history == old(history) + NodeActions(thread, worlds, io, k)
        invariant OnTheWay(cfg, y, thread, worlds, io, State(), k)
        decreases Rank(cfg, threads[thread])
      {
        NodeOnTheWay(cfg, y, thread, worlds, io, State(), k);
        NodeActionsAppend(thread, worlds, io, k);
        raised := RunPending(thread, worlds(k), io(k));
        if raised {
          return true, k + 1;
        }
        k := k + 1;
      }
      Arrived(cfg, y, thread, worlds, io, State(), k);
      raised, n := false, k;
    }

    method HandleAllowed(thread: string, e: Event, worlds: nat -> World, io: nat -> Io, traceId: string)
      returns (reply: Reply, ghost n: nat)
      requires Valid() && thread in threads && ValidateEvent(e, threads[thread].s.phase) == Allowed
      modifies this, cache
      ensures Valid()
      ensures var said := Act(thread, Say(e), true, true);
              var met := MetWorlds(cfg, SystemStep(cfg, old(State()), said), thread, worlds, io);
              && history == old(history) + [said] + NodeActions(thread, worlds, io, n)
              && threads == old(threads)[thread := HandleEvent(cfg, old(threads)[thread], e, met)]
      ensures reply == ReplyFor(threads[thread], thread, traceId)
    {
      hide SystemStep, SystemRun, AllowedActions, Drive, ValidateEvent, Resume, NodeActions;
      hide MetWorlds, View, AfterNodes;
      Hear(thread, e);
      var raised;
      raised, n := Invoke(thread, worlds, io);
      reply := if raised then ServerError else Shown(View(threads[thread].s, thread, traceId));
    }

    /** POST /event. An unknown thread and a refused event change nothing at all: a text without a
      * character that is not white space is unprocessable, and one that says something is a conflict
      * unless it belongs to the phase. An event that does is one turn of this thread: the event and
      * the nodes it ran join the history, the stored session is the handled one, no other is
      * touched, and the reply is its view unless a node raised. */
    method HandlePost(thread: string, e: Event, worlds: nat -> World, io: nat -> Io, traceId: string)
      returns (reply: Reply, ghost n: nat)
      requires Valid()
      modifies this, cache
      ensures Valid()
      ensures thread !in old(threads) ==> reply == NotFound && State() == old(State()) && history == old(history)
      ensures thread in old(threads) && !SaysSomething(e.text) ==>
                reply == TurnedAway(Unprocessable) && State() == old(State()) && history == old(history)
      ensures thread in old(threads) && SaysSomething(e.text) && !Belongs(old(threads)[thread].s.phase, e.etype) ==>
                reply == TurnedAway(Conflict) && State() == old(State()) && history == old(history)
      ensures thread in old(threads) && SaysSomething(e.text) && Belongs(old(threads)[thread].s.phase, e.etype) ==>
                var said := Act(thread, Say(e), true, true);
                var met := MetWorlds(cfg, SystemStep(cfg, old(State()), said), thread, worlds, io);
                && history == old(history) + [said] + NodeActions(thread, worlds, io, n)
                && threads == old(threads)[thread := HandleEvent(cfg, old(threads)[thread], e, met)]
                && reply == if Suspended(threads[thread]) then Shown(View(threads[thread].s, thread, traceId))
                            else ServerError
    {
      n := 0;
      if thread !in threads {
        return NotFound, 0;
      }
      EventRuling(threads[thread], e);
      var ruling := ValidateEvent(e, threads[thread].s.phase);
      if ruling != Allowed {
        return TurnedAway(ruling), 0;
      }
      hide SystemStep, SystemRun, AllowedActions, HandleEvent, ValidateEvent, NodeActions, MetWorlds, View, AfterNodes;
      reply, n := HandleAllowed(thread, e, worlds, io, traceId);
    }
  }
}
