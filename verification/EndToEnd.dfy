/** The session and the execution service together: what a finished session proves about the code. */
module EndToEnd {
  import opened Text
  import opened Redaction
  import opened VerdictMapper
  import opened ExecutionService
  import opened Session
  import opened SessionSafety
  import Seed = SeedGenerator
  import Json

  // Step j of the run sent this code to the domain service and got this answer.
  ghost predicate Called(cfg: Config, c0: Checkpoint, inputs: seq<Input>, j: int, code: string, e: Execution) {
    && 0 <= j < |inputs| && inputs[j].Work?
    && var c := Run(cfg, c0, inputs[..j]);
    && c.next == ExecuteCode && c.s.userCode == code
    && inputs[j].world.execute(c.s.problemId, code) == Answered(e)
    && Run(cfg, c0, inputs[..j + 1]).s.lastExecution == Some(e)
  }

  predicate Ending(c: Checkpoint) {
    c.next == Finish || c.s.phase == DONE
  }

  // A session starts ending only on an accepted answer to the code it sends, and then keeps both.
  lemma EndingStep(cfg: Config, c: Checkpoint, i: Input)
    requires Gated(c) && Ending(Step(cfg, c, i))
    ensures var s, d := c.s, Step(cfg, c, i).s;
            d.userCode == s.userCode &&
            ((Ending(c) && d.lastExecution == s.lastExecution)
             || (i.Work? && c.next == ExecuteCode && d.lastExecution.Some? &&
                 i.world.execute(s.problemId, s.userCode) == Answered(d.lastExecution.value)))
  {
    match i
    case Say(e) =>
    case Work(w) =>
      if NodeUpdate(cfg, c, w).Some? {
        UpdatesAreLegal(cfg, c, w);
        EndingUpdate(cfg, c, NodeUpdate(cfg, c, w).value);
      }
  }

  lemma EndingUpdate(cfg: Config, c: Checkpoint, u: Update)
    requires Gated(c) && Legal(cfg, c, u) && Ending(Commit(c, u))
    ensures Commit(c, u).s.userCode == c.s.userCode
    ensures (u.Finished? && c.next == Finish && Commit(c, u).s.lastExecution == c.s.lastExecution)
            || (u.Executed? && c.next == ExecuteCode && u.execution.bucket == Accepted
                && Commit(c, u).s.lastExecution == Some(u.execution))
  {
  }

  /** The code a finished session holds is code the run sent to the domain service, in a call whose
    * ACCEPTED answer is the result it shows. */
  lemma {:induction false} AcceptedCodeWasRun(
    cfg: Config, p: string, u: string, t: string, inputs: seq<Input>) returns (j: int)
    requires Ending(Run(cfg, Initial(p, u, t), inputs))
    ensures var s := Run(cfg, Initial(p, u, t), inputs).s;
            RunAccepted(s) && Called(cfg, Initial(p, u, t), inputs, j, s.userCode, s.lastExecution.value)
  {
    hide Step;
    RunsAreGated(cfg, p, u, t, inputs);
    j := 0;
    if inputs != [] {
      var c0, n := Initial(p, u, t), |inputs| - 1;
      var before := inputs[..n];
      var c := Run(cfg, c0, before);
      RunsAreGated(cfg, p, u, t, before);
      EndingStep(cfg, c, inputs[n]);
      var d := Run(cfg, c0, inputs).s;
      if Ending(c) && d.lastExecution == c.s.lastExecution {
        j := AcceptedCodeWasRun(cfg, p, u, t, before);
        assert before[..j] == inputs[..j] && before[..j + 1] == inputs[..j + 1] && before[j] == inputs[j];
      } else {
        j := n;
        assert inputs[..n + 1] == inputs;
      }
    }
  }

  // What the domain service answers for this problem comes from an honest batch over its tests.
  ghost predicate Serves(w: World, problemId: string, tests: seq<TestRow>) {
    forall code :: w.execute(problemId, code).Answered? ==>
                     exists outcome, retried :: FromBatch(tests, outcome, retried, w.execute(problemId, code).execution)
  }

  predicate FromBatch(tests: seq<TestRow>, outcome: Outcome, retried: bool, e: Execution) {
    Honest(outcome) && e == AnswerFor(tests, outcome, retried)
  }

  // The test finished normally and printed what this row expects.
  predicate Passed(row: TestRow, r: TestResult) {
    && r.passed && r.statusId == Some(3) && r.index == row.idx && r.stdin == row.stdin
    && Strip(r.stdout) == Strip(row.expectedOutput)
  }

  /** A session that is done holds code it sent to the sandbox, and that finished normally and
    * printed the expected output on every test of the problem, however often the sandbox failed
    * on the way. */
  lemma DoneMeansAllPassed(
    cfg: Config, p: string, u: string, t: string, inputs: seq<Input>, tests: seq<TestRow>) returns (j: int)
    requires tests != []
    requires forall j :: 0 <= j < |inputs| && inputs[j].Work? ==> Serves(inputs[j].world, p, tests)
    requires Run(cfg, Initial(p, u, t), inputs).s.phase == DONE
    ensures var s := Run(cfg, Initial(p, u, t), inputs).s;
            && s.lastExecution.Some?
            && Called(cfg, Initial(p, u, t), inputs, j, s.userCode, s.lastExecution.value)
            && var e := s.lastExecution.value;
            && e.passed == e.total == |e.tests| == |tests|
            && forall k :: 0 <= k < |tests| ==> Passed(tests[k], e.tests[k])
  {
    hide Step;
    j := AcceptedCodeWasRun(cfg, p, u, t, inputs);
    ProblemIsFixed(cfg, p, u, t, inputs[..j]);
    var e := Run(cfg, Initial(p, u, t), inputs).s.lastExecution.value;
    assert Serves(inputs[j].world, p, tests);
    var outcome, retried :| FromBatch(tests, outcome, retried, e);
    AcceptedIffAllPassed(tests, outcome, retried);
    forall k | 0 <= k < |tests| ensures Passed(tests[k], e.tests[k]) {
      AnswerKeepsTests(tests, outcome, retried, k);
    }
  }

  // The service over the hosted sandbox is such a service.
  lemma ServiceServes(svc: Service, maxPolls: int, n: nat, tests: seq<TestRow>, source: string)
    ensures exists outcome, retried ::
              FromBatch(tests, outcome, retried, ExecuteSpec(svc, maxPolls, n, tests, source).answer)
  {
    var subs := Submissions(tests, source);
    var first := BatchSpec(svc, subs, n, maxPolls);
    BatchesAreHonest(svc, subs, n, maxPolls);
    BatchesAreHonest(svc, subs, first.sent, maxPolls);
    var outcome := if NeedsRetry(first.outcome) then BatchSpec(svc, subs, first.sent, maxPolls).outcome
                   else first.outcome;
    assert FromBatch(tests, outcome, NeedsRetry(first.outcome), ExecuteSpec(svc, maxPolls, n, tests, source).answer);
  }

  // What the domain service answers comes from a batch of this code and the problem's harness, sent
  // to a sandbox that runs what it is given.
  ghost predicate ServesRuns(w: World, problemId: string, tests: seq<TestRow>, harness: string,
                             run: (string, string) -> Result)
  {
    forall code :: w.execute(problemId, code).Answered? ==>
                     exists svc, maxPolls, n ::
                       SentToRun(svc, maxPolls, n, tests, code, harness, run, w.execute(problemId, code).execution)
  }

  ghost predicate SentToRun(svc: Service, maxPolls: int, n: nat, tests: seq<TestRow>, code: string, harness: string,
                            run: (string, string) -> Result, e: Execution)
  {
    && RunsWhatItIsGiven(svc, run)
    && e == ExecuteSpec(svc, maxPolls, n, tests, code + "\n\n" + harness).answer
  }

  /** The code of a session that is done, followed by the harness, prints the expected text when it is
    * run on the input of each test: no verdict, cache, tutor or retry stands between. */
  lemma DoneMeansItPrints(cfg: Config, p: string, u: string, t: string, inputs: seq<Input>,
                          tests: seq<TestRow>, harness: string, run: (string, string) -> Result)
    requires tests != []
    requires forall j :: 0 <= j < |inputs| && inputs[j].Work? ==> ServesRuns(inputs[j].world, p, tests, harness, run)
    requires Run(cfg, Initial(p, u, t), inputs).s.phase == DONE
    ensures var code := Run(cfg, Initial(p, u, t), inputs).s.userCode;
            forall row :: row in tests ==> Prints(run, code + "\n\n" + harness, row)
  {
    hide Step, ExecuteSpec, RunsWhatItIsGiven, Prints;
    var s := Run(cfg, Initial(p, u, t), inputs).s;
    var j := AcceptedCodeWasRun(cfg, p, u, t, inputs);
    ProblemIsFixed(cfg, p, u, t, inputs[..j]);
    var e := s.lastExecution.value;
    assert ServesRuns(inputs[j].world, p, tests, harness, run);
    var svc, maxPolls, n :| SentToRun(svc, maxPolls, n, tests, s.userCode, harness, run, e);
    AcceptedIffRunPrints(svc, run, maxPolls, n, tests, s.userCode + "\n\n" + harness);
  }

  // A run that finishes normally prints what the harness prints for what the code's own function
  // returns.
  ghost predicate HarnessRuns(run: (string, string) -> Result, source: string, solve: (seq<int>, int) -> seq<int>) {
    forall stdin :: run(source, stdin).statusId == 3 ==> run(source, stdin).stdout == Seed.HarnessPrints(solve, stdin)
  }

  /** The function in the code of a session that is done returns, for each test the seed generator
    * stored, the two indices that were stated for it. */
  lemma DoneMeansSolved(cfg: Config, p: string, u: string, t: string, inputs: seq<Input>,
                        tests: seq<TestRow>, harness: string, run: (string, string) -> Result,
                        solve: (seq<int>, int) -> seq<int>,
                        k: nat, nums: seq<int>, target: int, answer: (int, int))
    requires forall j :: 0 <= j < |inputs| && inputs[j].Work? ==> ServesRuns(inputs[j].world, p, tests, harness, run)
    requires Run(cfg, Initial(p, u, t), inputs).s.phase == DONE
    requires HarnessRuns(run, Run(cfg, Initial(p, u, t), inputs).s.userCode + "\n\n" + harness, solve)
    requires k < |tests| && tests[k].stdin == Json.DumpData(nums, target)
    requires tests[k].expectedOutput == Seed.ExpectedFor(answer)
    ensures multiset(solve(nums, target)) == multiset{answer.0, answer.1}
  {
    hide Step, ServesRuns, Seed.HarnessPrints, Seed.ExpectedFor, Json.DumpData, Strip;
    DoneMeansItPrints(cfg, p, u, t, inputs, tests, harness, run);
    assert Prints(run, Run(cfg, Initial(p, u, t), inputs).s.userCode + "\n\n" + harness, tests[k]);
    Seed.PassesIff(nums, target, answer, solve);
  }
}
