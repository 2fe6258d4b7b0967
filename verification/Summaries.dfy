/** What a summary hit serves: the summary of another student's text and attempts. Exactly when that
  * is the student's own summary, and a history in which it is not. */
module Summaries {
  import opened Text
  import opened Keys
  import opened Llm
  import opened Verifier
  import opened Session
  import opened SessionSafety
  import opened VerdictCache
  import opened Histories
  import opened Cacheless

  /** A summarizer that answers a prompt always in the same way, if it answers. */
  type Writer = SummaryPrompt -> Summary

  function PromptOf(s: State): SummaryPrompt {
    SummaryPrompt(s.userLogic, EarlierAttempts(s.messages, s.userLogic))
  }

  // What the node makes of its answer: an empty text is replaced by the student's own.
  function Patched(h: Writer, s: State): Summary {
    var sm := h(PromptOf(s));
    if sm.finalLogicText != "" then sm else sm.(finalLogicText := s.userLogic)
  }

  ghost predicate WritesBy(w: World, h: Writer) {
    forall q :: ParsedReply(w.summarizer(q), w.parseSummary).Some? ==>
                  ParsedReply(w.summarizer(q), w.parseSummary).value == h(q)
  }

  ghost predicate AllWriteBy(actions: seq<Action>, h: Writer) {
    forall j :: 0 <= j < |actions| && actions[j].Act? && actions[j].input.Work? ==> WritesBy(actions[j].input.world, h)
  }

  lemma FreshIsPatched(s: State, w: World, h: Writer)
    requires WritesBy(w, h)
    ensures FreshSummary(s, w).Some? ==> FreshSummary(s, w).value == Patched(h, s)
  {
  }

  // What the node would write here without the cache.
  function OwnSummary(h: Writer, s: State, answered: bool): Summary {
    if answered then Patched(h, s) else Summary("", [], [], s.userLogic)
  }

  // The summary that a hit of this key serves was written by action j from the state o.
  ghost predicate WrittenFrom(cfg: Config, actions: seq<Action>, key: string, h: Writer, j: int, o: State) {
    && 0 <= j < |actions| && actions[j].Act? && actions[j].input.Work?
    && actions[j].thread in SystemRun(cfg, actions[..j]).sessions
    && SystemRun(cfg, actions[..j]).sessions[actions[j].thread].s == o
    && SystemRun(cfg, actions[..j]).sessions[actions[j].thread].next == SummarizeLogic
    && key in SystemRun(cfg, actions).rows && SystemRun(cfg, actions).rows[key] == SummaryPayload(Patched(h, o))
  }

  /** A hit serves the student's own summary exactly when the summarizer says the same to the prompt
    * of the session that wrote the row as to this one's. */
  lemma HitCoversIff(cfg: Config, actions: seq<Action>, t: string, w: World, readable: bool, h: Writer)
    returns (j: int, o: State)
    requires PlainProblemIds(actions) && AllWriteBy(actions, h) && WritesBy(w, h)
    requires t in SystemRun(cfg, actions).sessions && SystemRun(cfg, actions).sessions[t].next == SummarizeLogic
    requires ReadRow(SystemRun(cfg, actions).rows, SummaryKey(SystemRun(cfg, actions).sessions[t].s, w), readable).Some?
    ensures var y, s := SystemRun(cfg, actions), SystemRun(cfg, actions).sessions[t].s;
            && WrittenFrom(cfg, actions, SummaryKey(s, w), h, j, o)
            && Words(Lower(o.userLogic)) == Words(Lower(s.userLogic))
            && (SummaryCovers(y.sessions[t], w, y.rows, readable)
                <==> Patched(h, o) == OwnSummary(h, s, FreshSummary(s, w).Some?))
  {
    hide SystemRun, PlainProblemIds, FreshSummary;
    var y := SystemRun(cfg, actions);
    var s := y.sessions[t].s;
    SessionsHavePlainIds(cfg, actions, t);
    j := SummaryHitHasOrigin(cfg, actions, s.problemId, VersionOr1(s.problemId, w), s.userLogic);
    o := SystemRun(cfg, actions[..j]).sessions[actions[j].thread].s;
    FreshIsPatched(o, actions[j].input.world, h);
    FreshIsPatched(s, w, h);
  }

  /** Safe whatever the summarizer says: exactly when both sessions hold the same text and the same
    * earlier attempts. */
  lemma SafeForEveryWriterIff(o: State, s: State)
    ensures (forall h: Writer :: Patched(h, o) == Patched(h, s)) <==> PromptOf(o) == PromptOf(s)
  {
    if PromptOf(o) != PromptOf(s) {
      var h: Writer := q => Summary(if q == PromptOf(o) then "theirs" else "own", [], [], "text");
      assert Patched(h, o).approachTaken == "theirs" && Patched(h, s).approachTaken == "own";
      assert "theirs"[0] != "own"[0];
    }
  }

  // ---------------------------------------------------------------- whole histories

  // A summary hit of action n finds the same answer to the prompt that wrote it and to its own.
  ghost predicate PromptsAgreeAt(cfg: Config, actions: seq<Action>, n: nat, h: Writer) {
    n < |actions| && PromptsAgree(cfg, actions[..n], actions[n], h)
  }

  ghost predicate PromptsAgree(cfg: Config, before: seq<Action>, a: Action, h: Writer) {
    var y := SystemRun(cfg, before);
    a.Act? && a.input.Work? && a.thread in y.sessions && y.sessions[a.thread].next == SummarizeLogic ==>
      var s, w := y.sessions[a.thread].s, a.input.world;
      ReadRow(y.rows, SummaryKey(s, w), a.readable).Some? ==>
        exists j, o :: WrittenFrom(cfg, before, SummaryKey(s, w), h, j, o)
                       && Patched(h, o) == OwnSummary(h, s, FreshSummary(s, w).Some?)
  }

  lemma CoversIff(cfg: Config, before: seq<Action>, a: Action, h: Writer)
    requires PlainProblemIds(before) && AllWriteBy(before, h)
    requires a.Act? && a.input.Work? ==> WritesBy(a.input.world, h)
    ensures CoversAction(cfg, SystemRun(cfg, before), a)
            <==> EvaluatorCoversAction(cfg, SystemRun(cfg, before), a) && PromptsAgree(cfg, before, a, h)
  {
    hide SystemRun, PlainProblemIds, WritesBy, FreshSummary, EvaluatorCovers;
    var y := SystemRun(cfg, before);
    if a.Act? && a.input.Work? && a.thread in y.sessions && y.sessions[a.thread].next == SummarizeLogic {
      var s, w := y.sessions[a.thread].s, a.input.world;
      if ReadRow(y.rows, SummaryKey(s, w), a.readable).Some? {
        var j, o := HitCoversIff(cfg, before, a.thread, w, a.readable, h);
        assert WrittenFrom(cfg, before, SummaryKey(s, w), h, j, o);
      }
    }
  }

  /** With a summarizer that answers each prompt in one way, earlier attempts included: a history and
    * its cacheless twin go through the same states, hit marks aside, if and only if every verdict hit
    * stands for an evaluation that would have been answered and every summary hit was written from a
    * prompt the summarizer answers as it would answer this session's. */
  lemma InvisibleIffPromptsAgree(cfg: Config, actions: seq<Action>, g: Examiner, h: Writer)
    requires PlainProblemIds(actions) && AllGradeBy(cfg, actions, g) && AllWriteBy(actions, h)
    ensures (forall n: nat :: n <= |actions| ==> TogetherAt(cfg, actions, n))
            <==> (forall n: nat :: n < |actions| ==> AnsweredAt(cfg, actions, n) && PromptsAgreeAt(cfg, actions, n, h))
  {
    hide CoversAction, EvaluatorCoversAction, PromptsAgree, WritesBy, AllGradeBy, SystemRun, TogetherAt;
    CacheIsInvisible(cfg, actions, g);
    forall n: nat | n < |actions|
      ensures CoveredAt(cfg, actions, n) <==> AnsweredAt(cfg, actions, n) && PromptsAgreeAt(cfg, actions, n, h)
    {
      CoversIff(cfg, actions[..n], actions[n], h);
    }
  }

  // ---------------------------------------------------------------- another student's attempts

  const CLASS := Context("title", "description", Rubric("", [], []), 1)

  // A model that fails the text "no", passes any other, and says whether attempts came before.
  function Classroom(): World {
    World(_ => Some(CLASS), _ => Some("ok"),
          (q: EvaluatorPrompt) => ((_: nat) => Some(if q.studentText == "no" then "no" else "ok")),
          raw => Some(EvaluatorOutput(raw == "ok", Some("approach"), [], [], None, 1.0, "")),
          (q: SummaryPrompt) => ((_: nat) => Some(if q.earlierAttempts == [] then "ok" else "no")),
          raw => Some(Summary(if raw == "ok" then "at once" else "after a mistake", [], [], "done")),
          (_, _) => Unreachable(""), _ => None)
  }

  function ClassWriter(): Writer {
    (q: SummaryPrompt) => Summary(if q.earlierAttempts == [] then "at once" else "after a mistake", [], [], "done")
  }

  lemma ClassroomReplies()
    ensures Complete(Some("ok")) == Some("ok") && Complete(Some("no")) == Some("no") && "ok" != "no"
  {
    assert "ok"[0] != "no"[0];
  }

  lemma ClassroomWrites()
    ensures WritesBy(Classroom(), ClassWriter())
    ensures forall s :: FreshSummary(s, Classroom()) == Some(Patched(ClassWriter(), s))
  {
    ClassroomReplies();
    var w := Classroom();
    forall q ensures ParsedReply(w.summarizer(q), w.parseSummary) == Some(ClassWriter()(q)) {
    }
  }

  // The evaluator node in this classroom, without the table.
  lemma ClassEvaluates(cfg: Config, c: Checkpoint, rows: map<string, Payload>)
    requires c.next == EvaluateLogic
    ensures var d := Step(cfg, c, Work(Through(Classroom(), rows, false)));
            && d.next == (if c.s.userLogic == "no" then LogicTutor else SummarizeLogic)
            && d.s.messages == c.s.messages && d.s.userLogic == c.s.userLogic && d.s.problemId == c.s.problemId
            && d.s.phase == c.s.phase && d.s.regenerations == c.s.regenerations
  {
    ClassroomReplies();
    var met := Through(Classroom(), rows, false);
    var out := EvaluatorOutput(c.s.userLogic != "no", Some("approach"), [], [], None, 1.0, "");
    assert met.cacheGet(VerdictKey(c.s, CLASS)).None?;
    var ask := met.evaluator(EvaluatorPrompt(CLASS.title, CLASS.description, CLASS.rubric, c.s.userLogic));
    assert ParsedReply(ask, met.parseVerdict) == Some(out);
    assert EvaluateLogicNode(cfg, c.s, met) == Some(Evaluated(Grade(cfg, out)));
  }

  lemma ClassDrafts(cfg: Config, c: Checkpoint, rows: map<string, Payload>)
    requires c.next == LogicTutor
    ensures var d := Step(cfg, c, Work(Through(Classroom(), rows, false)));
            && d.next == VerifyLogic && d.s.draft == Some("ok") && d.s.messages == c.s.messages
            && d.s.userLogic == c.s.userLogic && d.s.problemId == c.s.problemId && d.s.phase == c.s.phase
  {
    ClassroomReplies();
  }

  lemma OkIsAccepted()
    ensures VerifyLogicDraft("ok", CLASS.rubric) == []
  {
    QuietShowsNoCode("ok");
    WordsAreFew("ok");
    assert !IsSpace("ok"[0]);
    AcceptedLogicDraft("ok", CLASS.rubric);
  }

  lemma ClassDelivers(cfg: Config, c: Checkpoint, rows: map<string, Payload>)
    requires c.next == VerifyLogic && c.s.draft == Some("ok")
    ensures var d := Step(cfg, c, Work(Through(Classroom(), rows, false)));
            && d.next == AwaitInput && d.s.messages == c.s.messages + [Message(Tutor, KHint, Typed("ok"))]
            && d.s.userLogic == c.s.userLogic && d.s.problemId == c.s.problemId && d.s.phase == c.s.phase
  {
    hide VerifyLogicDraft;
    OkIsAccepted();
    assert VerifierNode(cfg, c, Through(Classroom(), rows, false)) == Some(Cleared("ok"));
  }

  lemma ClassHears(c: Checkpoint, text: string)
    requires c.next == AwaitInput && c.s.phase == LOGIC
    ensures var d := Resume(c, Event(ELogic, text));
            && d.next == EvaluateLogic && d.s.userLogic == text && d.s.phase == LOGIC && d.s.problemId == c.s.problemId
            && d.s.messages == c.s.messages + [Message(Student, KLogic, Typed(text))]
  {
  }

  lemma AttemptsAppend(ms: seq<Message>, m: Message, current: string)
    ensures EarlierAttempts(ms + [m], current) == EarlierAttempts(ms, current) +
              if m.role == Student && m.kind == KLogic && m.content.Typed? && m.content.text != current
              then [m.content.text] else []
  {
    assert (ms + [m])[..|ms|] == ms;
  }

  // ---------------------------------------------------------------- acting without the table

  function Unread(t: string, inputs: seq<Input>): seq<Action> {
    if inputs == [] then [] else
      Unread(t, inputs[..|inputs| - 1]) + [Act(t, inputs[|inputs| - 1], false, false)]
  }

  function Deaf(i: Input, rows: map<string, Payload>): Input {
    match i case Say(_) => i case Work(w) => Work(Through(w, rows, false))
  }

  // The run of one session while the table can be neither read nor written.
  function DeafRun(cfg: Config, c: Checkpoint, inputs: seq<Input>, rows: map<string, Payload>): Checkpoint {
    if inputs == [] then c else
      Step(cfg, DeafRun(cfg, c, inputs[..|inputs| - 1], rows), Deaf(inputs[|inputs| - 1], rows))
  }

  lemma DeafStep(cfg: Config, c: Checkpoint, inputs: seq<Input>, i: Input, rows: map<string, Payload>)
    ensures DeafRun(cfg, c, inputs + [i], rows) == Step(cfg, DeafRun(cfg, c, inputs, rows), Deaf(i, rows))
  {
    assert (inputs + [i])[..|inputs|] == inputs;
  }

  lemma {:induction false} UnreadActs(cfg: Config, actions: seq<Action>, t: string, inputs: seq<Input>)
    requires t in SystemRun(cfg, actions).sessions
    ensures var y := SystemRun(cfg, actions);
            SystemRun(cfg, actions + Unread(t, inputs))
            == SystemState(y.sessions[t := DeafRun(cfg, y.sessions[t], inputs, y.rows)], y.rows)
  {
    hide Step, Stored;
    var y := SystemRun(cfg, actions);
    if inputs == [] {
      assert actions + Unread(t, inputs) == actions;
      assert y.sessions[t := y.sessions[t]] == y.sessions;
    } else {
      var before, i := inputs[..|inputs| - 1], inputs[|inputs| - 1];
      var a := Act(t, i, false, false);
      UnreadActs(cfg, actions, t, before);
      OneMoreAction(cfg, actions + Unread(t, before), a);
      assert actions + Unread(t, inputs) == actions + Unread(t, before) + [a];
    }
  }

  // A first student fails with "no", is answered, passes with "x" and waits for the summary.
  function FirstInputs(): seq<Input> {
    var w := Work(Classroom());
    [Say(Event(ELogic, "no"))] + [w] + [w] + [w] + [Say(Event(ELogic, "x"))] + [w]
  }

  lemma FirstStudent(cfg: Config, rows: map<string, Payload>)
    ensures var c := DeafRun(cfg, Initial("p", "u", "a"), FirstInputs(), rows);
            && c.next == SummarizeLogic && c.s.problemId == "p" && c.s.userLogic == "x"
            && EarlierAttempts(c.s.messages, "x") == ["no"]
  {
    hide Step, EarlierAttempts, Resume, Classroom;
    var c0, w := Initial("p", "u", "a"), Work(Classroom());
    var no, x := Say(Event(ELogic, "no")), Say(Event(ELogic, "x"));
    DeafStep(cfg, c0, [], no, rows);
    DeafStep(cfg, c0, [no], w, rows);
    DeafStep(cfg, c0, [no] + [w], w, rows);
    DeafStep(cfg, c0, [no] + [w] + [w], w, rows);
    DeafStep(cfg, c0, [no] + [w] + [w] + [w], x, rows);
    DeafStep(cfg, c0, [no] + [w] + [w] + [w] + [x], w, rows);
    assert [] + [no] == [no];
    var c1 := DeafRun(cfg, c0, [no], rows);
    var c2 := DeafRun(cfg, c0, [no] + [w], rows);
    var c3 := DeafRun(cfg, c0, [no] + [w] + [w], rows);
    var c4 := DeafRun(cfg, c0, [no] + [w] + [w] + [w], rows);
    var c5 := DeafRun(cfg, c0, [no] + [w] + [w] + [w] + [x], rows);
    HearsStep(cfg, c0, "no");
    ClassEvaluates(cfg, c1, rows);
    ClassDrafts(cfg, c2, rows);
    ClassDelivers(cfg, c3, rows);
    HearsStep(cfg, c4, "x");
    ClassroomReplies();
    assert "x" != "no" by { assert |"x"| != |"no"|; }
    ClassEvaluates(cfg, c5, rows);
    ThreeMessages(c0.s.messages);
    assert c5.s.messages == [] + [Message(Student, KLogic, Typed("no"))] + [Message(Tutor, KHint, Typed("ok"))]
                            + [Message(Student, KLogic, Typed("x"))];
  }

  lemma HearsStep(cfg: Config, c: Checkpoint, text: string)
    requires c.next == AwaitInput && c.s.phase == LOGIC
    ensures var d := Step(cfg, c, Say(Event(ELogic, text)));
            && d.next == EvaluateLogic && d.s.userLogic == text && d.s.phase == LOGIC && d.s.problemId == c.s.problemId
            && d.s.messages == c.s.messages + [Message(Student, KLogic, Typed(text))]
  {
    ClassHears(c, text);
  }

  lemma ThreeMessages(ms: seq<Message>)
    ensures EarlierAttempts([], "x") == []
    ensures EarlierAttempts([] + [Message(Student, KLogic, Typed("x"))], "x") == []
    ensures EarlierAttempts([] + [Message(Student, KLogic, Typed("no"))] + [Message(Tutor, KHint, Typed("ok"))]
                            + [Message(Student, KLogic, Typed("x"))], "x") == ["no"]
  {
    var a, b := Message(Student, KLogic, Typed("no")), Message(Tutor, KHint, Typed("ok"));
    var c := Message(Student, KLogic, Typed("x"));
    AttemptsAppend([], c, "x");
    AttemptsAppend([], a, "x");
    AttemptsAppend([] + [a], b, "x");
    AttemptsAppend([] + [a] + [b], c, "x");
    assert |"no"| != |"x"|;
  }

  // A second student passes with "x" at once.
  function SecondInputs(): seq<Input> {
    [Say(Event(ELogic, "x"))] + [Work(Classroom())]
  }

  lemma SecondStudent(cfg: Config, rows: map<string, Payload>)
    ensures var c := DeafRun(cfg, Initial("p", "u", "b"), SecondInputs(), rows);
            && c.next == SummarizeLogic && c.s.problemId == "p" && c.s.userLogic == "x"
            && EarlierAttempts(c.s.messages, "x") == []
  {
    hide Step, EarlierAttempts, Resume, Classroom;
    var c0, w, x := Initial("p", "u", "b"), Work(Classroom()), Say(Event(ELogic, "x"));
    DeafStep(cfg, c0, [], x, rows);
    DeafStep(cfg, c0, [x], w, rows);
    assert [] + [x] == [x];
    var c1 := DeafRun(cfg, c0, [x], rows);
    HearsStep(cfg, c0, "x");
    assert "x" != "no" by { assert |"x"| != |"no"|; }
    ClassEvaluates(cfg, c1, rows);
    ThreeMessages(c0.s.messages);
    assert c1.s.messages == [] + [Message(Student, KLogic, Typed("x"))];
  }

  // ---------------------------------------------------------------- the borrowed summary

  const KEY := CacheKey("summary", "p", 1, "x")
  const AFTER_A_MISTAKE := Summary("after a mistake", [], [], "done")

  function FirstHalf(): seq<Action> {
    [Open("a", "p", "u")] + Unread("a", FirstInputs()) + [Act("a", Work(Classroom()), false, true)]
  }

  function BeforeHit(): seq<Action> {
    FirstHalf() + [Open("b", "p", "u")] + Unread("b", SecondInputs())
  }

  function Borrowing(): seq<Action> {
    BeforeHit() + [Act("b", Work(Classroom()), true, true)]
  }

  lemma FirstWaits(cfg: Config)
    ensures var y := SystemRun(cfg, [Open("a", "p", "u")] + Unread("a", FirstInputs()));
            && y.sessions.Keys == {"a"} && y.rows == map[]
            && y.sessions["a"] == DeafRun(cfg, Initial("p", "u", "a"), FirstInputs(), map[])
  {
    var open := Open("a", "p", "u");
    OneMoreAction(cfg, [], open);
    assert [] + [open] == [open];
    UnreadActs(cfg, [open], "a", FirstInputs());
  }

  lemma FirstWrites(cfg: Config)
    ensures SystemRun(cfg, FirstHalf()).sessions.Keys == {"a"}
    ensures SystemRun(cfg, FirstHalf()).rows == map[KEY := SummaryPayload(AFTER_A_MISTAKE)]
  {
    hide Step, DeafRun, FirstInputs, Stored, Classroom;
    var actions := [Open("a", "p", "u")] + Unread("a", FirstInputs());
    var w, a := Classroom(), Act("a", Work(Classroom()), false, true);
    var y := SystemRun(cfg, actions);
    FirstWaits(cfg);
    FirstStudent(cfg, map[]);
    OneMoreAction(cfg, actions, a);
    WritesRow(cfg, y.sessions["a"], map[], "after a mistake");
  }

  // What a classroom session that waits for its summary writes.
  lemma WritesRow(cfg: Config, c: Checkpoint, rows: map<string, Payload>, approach: string)
    requires c.next == SummarizeLogic && c.s.problemId == "p" && c.s.userLogic == "x"
    requires approach == if EarlierAttempts(c.s.messages, "x") == [] then "at once" else "after a mistake"
    ensures Stored(cfg, c, Through(Classroom(), rows, false))
            == Some((KEY, SummaryPayload(Summary(approach, [], [], "done"))))
    ensures SummaryKey(c.s, Classroom()) == KEY
    ensures FreshSummary(c.s, Classroom()) == Some(Summary(approach, [], [], "done"))
  {
    var met := Through(Classroom(), rows, false);
    ClassroomWrites();
    SameSummary(c.s, Classroom(), met);
    assert SummaryKey(c.s, met) == KEY && met.cacheGet(KEY).None?;
  }

  lemma SecondWaits(cfg: Config)
    ensures var y := SystemRun(cfg, BeforeHit());
            && "b" in y.sessions && y.rows == map[KEY := SummaryPayload(AFTER_A_MISTAKE)]
            && y.sessions["b"].next == SummarizeLogic && y.sessions["b"].s.problemId == "p"
            && y.sessions["b"].s.userLogic == "x" && EarlierAttempts(y.sessions["b"].s.messages, "x") == []
  {
    hide Step, DeafRun, FirstHalf, SecondInputs;
    var open := Open("b", "p", "u");
    FirstWrites(cfg);
    OneMoreAction(cfg, FirstHalf(), open);
    UnreadActs(cfg, FirstHalf() + [open], "b", SecondInputs());
    SecondStudent(cfg, SystemRun(cfg, FirstHalf()).rows);
  }

  lemma ClassActs()
    ensures PlainProblemIds(Borrowing()) && AllWriteBy(Borrowing(), ClassWriter())
  {
    hide WritesBy, Classroom;
    ClassroomWrites();
    UnreadIsClass("a", FirstInputs());
    UnreadIsClass("b", SecondInputs());
    forall a | a in Borrowing() ensures ClassAct(a) {
    }
    assert forall j :: 0 <= j < |Borrowing()| ==> ClassAct(Borrowing()[j]);
    assert ':' !in "p";
  }

  ghost predicate ClassAct(a: Action) {
    && (a.Open? ==> a.problemId == "p")
    && (a.Act? && a.input.Work? ==> a.input.world == Classroom())
  }

  lemma {:induction false} UnreadIsClass(t: string, inputs: seq<Input>)
    requires forall i :: i in inputs && i.Work? ==> i.world == Classroom()
    ensures forall a :: a in Unread(t, inputs) ==> ClassAct(a)
  {
    hide Classroom;
    if inputs != [] {
      UnreadIsClass(t, inputs[..|inputs| - 1]);
    }
  }

  /** A student who passed at once is served the summary of another one's mistake, and the condition
    * above is what fails. */
  lemma BorrowedSummary(cfg: Config)
    ensures var actions := Borrowing();
            var before, after := SystemRun(cfg, BeforeHit()).sessions, SystemRun(cfg, actions).sessions;
            && PlainProblemIds(actions) && AllWriteBy(actions, ClassWriter())
            && "b" in before && EarlierAttempts(before["b"].s.messages, before["b"].s.userLogic) == []
            && "b" in after && after["b"].s.logicSummary == Some(AFTER_A_MISTAKE)
            && Patched(ClassWriter(), before["b"].s) != AFTER_A_MISTAKE
            && !PromptsAgreeAt(cfg, actions, |actions| - 1, ClassWriter())
  {
    hide BeforeHit, EarlierAttempts, FreshSummary, AllWriteBy, PlainProblemIds;
    ClassActs();
    SecondWaits(cfg);
    var y, hit := SystemRun(cfg, BeforeHit()), Act("b", Work(Classroom()), true, true);
    var c := y.sessions["b"];
    OneMoreAction(cfg, BeforeHit(), hit);
    WritesRow(cfg, c, y.rows, "at once");
    assert |"at once"| != |"after a mistake"|;
    SummaryNode(c.s, Classroom(), y.rows, true);
    HitIsShown(cfg, c, Through(Classroom(), y.rows, true));
    assert Borrowing()[..|Borrowing()| - 1] == BeforeHit();
    assert FreshSummary(c.s, Classroom()) == Some(Patched(ClassWriter(), c.s)) by { ClassroomWrites(); }
  }

  lemma HitIsShown(cfg: Config, c: Checkpoint, w: World)
    requires c.next == SummarizeLogic
    ensures SummarizeLogicNode(c.s, w).Summarized?
    ensures Step(cfg, c, Work(w)).s.logicSummary == Some(SummarizeLogicNode(c.s, w).summary)
  {
  }
}
