/** Running a student's code against every test: the hosted sandbox's poll loop, and the
  * service around it with its single retry. */
module ExecutionService {
  import opened Text
  import opened Redaction
  import opened VerdictMapper

  // ---------------------------------------------------------------- the hosted sandbox

  datatype Submission = Submission(source: string, stdin: string)

  /** What the remote service answers to a request, or what interrupts it. */
  datatype SubmitReply = SubmitFailed(why: string) | Tokens(tokens: seq<string>)
  datatype PollReply = PollFailed(why: string) | Polled(results: seq<Result>)

  /** The remote service: its answer to the n-th request it ever receives is arbitrary. A
    * poll can also be interrupted while it waits, before its request is sent. */
  datatype Service = Service(
    submit: (nat, seq<Submission>) -> SubmitReply,
    poll: (nat, seq<string>) -> PollReply,
    interrupts: nat -> bool)

  datatype Outcome =
    | Batch(results: seq<Result>, requestsUsed: nat, timedOut: bool)
    | Threw(why: string)

  predicate AnyPending(results: seq<Result>) {
    exists r :: r in results && r.Pending()
  }

  // The tokens of an accepted submission: one per submission, none of them blank.
  predicate UsableTokens(tokens: seq<string>, n: nat) {
    |tokens| == n && forall t :: t in tokens ==> Strip(t) != ""
  }

  datatype Polling = Polling(outcome: Outcome, sent: nat)

  // Polls left to make, after `used` requests of this batch, when request number n is next.
  function PollSpec(svc: Service, tokens: seq<string>, n: nat, used: nat, left: nat, last: seq<Result>): Polling
    decreases left
  {
    if left == 0 then Polling(Batch(last, used, true), n)
    else if svc.interrupts(n) then Polling(Threw("interrupted"), n)
    else
      match svc.poll(n, tokens)
      case PollFailed(why) => Polling(Threw(why), n + 1)
      case Polled(results) =>
        if !AnyPending(results) then Polling(Batch(results, used + 1, false), n + 1)
        else PollSpec(svc, tokens, n + 1, used + 1, left - 1, results)
  }

  function Budget(maxPolls: int): nat {
    if maxPolls < 0 then 0 else maxPolls
  }

  function BatchSpec(svc: Service, subs: seq<Submission>, n: nat, maxPolls: int): Polling {
    match svc.submit(n, subs)
    case SubmitFailed(why) => Polling(Threw(why), n + 1)
    case Tokens(tokens) =>
      if !UsableTokens(tokens, |subs|) then Polling(Threw("bad tokens"), n + 1)
      else PollSpec(svc, tokens, n + 1, 1, Budget(maxPolls), [])
  }

  class Judge0Client {
    const svc: Service
    const maxPolls: int
    var sent: nat                              // requests ever sent to the service, each of them billed
    ghost var submitted: seq<seq<Submission>>  // every batch ever submitted, in order

    constructor (svc: Service, maxPolls: int)
      ensures this.svc == svc && this.maxPolls == maxPolls && sent == 0 && submitted == []
    {
      this.svc, this.maxPolls, sent, submitted := svc, maxPolls, 0, [];
    }

    // Request old(sent) submits the batch, and the polls follow it one by one.
    method RunBatch(subs: seq<Submission>) returns (outcome: Outcome)
      modifies this`sent, this`submitted
      ensures submitted == old(submitted) + [subs]
      ensures BatchTold(svc, subs, old(sent), maxPolls, Polling(outcome, sent))
      ensures Polling(outcome, sent) == BatchSpec(svc, subs, old(sent), maxPolls)
    {
      hide BatchTold, UsableTokens, AnyPending;
      BatchIsTold(svc, subs, sent, maxPolls, BatchSpec(svc, subs, sent, maxPolls));
      submitted := submitted + [subs];
      var requests := 1;
      sent := sent + 1;
      var reply := svc.submit(sent - 1, subs);
      if reply.SubmitFailed? {
        return Threw(reply.why);
      }
      var tokens := reply.tokens;
      if !UsableTokens(tokens, |subs|) {
        return Threw("bad tokens");
      }

      var results: seq<Result> := [];
      var timedOut := true;
      var poll := 1;
      ghost var spec := PollSpec(svc, tokens, sent, 1, Budget(maxPolls), []);
      while poll <= maxPolls
        invariant 1 <= poll <= Budget(maxPolls) + 1
        invariant requests == poll && timedOut && submitted == old(submitted) + [subs]
        invariant PollSpec(svc, tokens, sent, requests, Budget(maxPolls) + 1 - poll, results) == spec
        decreases maxPolls - poll
      {
        if svc.interrupts(sent) {
          return Threw("interrupted");
        }
        requests := requests + 1;
        sent := sent + 1;
        var got := svc.poll(sent - 1, tokens);
        if got.PollFailed? {
          return Threw(got.why);
        }
        results := got.results;
        if !AnyPending(results) {
          timedOut := false;
          break;
        }
        poll := poll + 1;
      }
      outcome := Batch(results, requests, timedOut);
    }
  }

  // What the polls of one batch are, when its first poll is request n: each of them but the last
  // showed something pending; a batch that timed out made all of them, and one that did not
  // returns what the last of them showed; only an interrupted or failed one makes it throw.
  ghost predicate PollsTold(svc: Service, tokens: seq<string>, n: nat, polls: nat, p: Polling) {
    && n <= p.sent <= n + polls
    && (forall r :: n <= r < p.sent ==> !svc.interrupts(r))
    && (forall r :: n <= r < p.sent - 1 ==> StillRunning(svc, tokens, r))
    && match p.outcome
       case Batch(results, used, timedOut) =>
         && used == 1 + p.sent - n
         && (if p.sent == n then results == [] else svc.poll(p.sent - 1, tokens) == Polled(results))
         && (if timedOut then p.sent == n + polls && (polls > 0 ==> Unfinished(results))
             else p.sent > n && !Unfinished(results))
       case Threw(why) =>
         || (p.sent > n && svc.poll(p.sent - 1, tokens) == PollFailed(why))
         || (&& p.sent < n + polls && svc.interrupts(p.sent) && why == "interrupted"
             && (p.sent > n ==> StillRunning(svc, tokens, p.sent - 1)))
  }

  ghost predicate StillRunning(svc: Service, tokens: seq<string>, r: nat) {
    svc.poll(r, tokens).Polled? && Unfinished(svc.poll(r, tokens).results)
  }

  // Some submission is in the queue or being run.
  ghost predicate Unfinished(results: seq<Result>) {
    exists x :: x in results && (x.statusId == 1 || x.statusId == 2)
  }

  lemma UnfinishedIsPending(results: seq<Result>)
    ensures Unfinished(results) <==> AnyPending(results)
  {
  }

  ghost predicate BatchTold(svc: Service, subs: seq<Submission>, n: nat, maxPolls: int, p: Polling) {
    match svc.submit(n, subs)
    case SubmitFailed(why) => p == Polling(Threw(why), n + 1)
    case Tokens(tokens) =>
      if |tokens| == |subs| && forall t :: t in tokens ==> SaysSomething(t) then
        PollsTold(svc, tokens, n + 1, if maxPolls > 0 then maxPolls else 0, p)
      else p == Polling(Threw("bad tokens"), n + 1)
  }

  /** That description fits one outcome only, for every behaviour of the service. */
  lemma BatchIsTold(svc: Service, subs: seq<Submission>, n: nat, maxPolls: int, p: Polling)
    ensures p == BatchSpec(svc, subs, n, maxPolls) <==> BatchTold(svc, subs, n, maxPolls, p)
  {
    match svc.submit(n, subs)
    case SubmitFailed(_) =>
    case Tokens(tokens) =>
      forall t | t in tokens ensures SaysSomething(t) <==> Strip(t) != "" {
        StripIsBlank(t);
      }
      if UsableTokens(tokens, |subs|) {
        PollsAreTold(svc, tokens, n + 1, n + 1, Budget(maxPolls), [], p);
      }
  }

  // After the polls n0, ..., n - 1, all of them still running.
  lemma {:induction false} PollsAreTold(
    svc: Service, tokens: seq<string>, n0: nat, n: nat, left: nat, last: seq<Result>, p: Polling)
    requires n0 <= n
    requires forall r :: n0 <= r < n ==> !svc.interrupts(r) && StillRunning(svc, tokens, r)
    requires if n == n0 then last == [] else svc.poll(n - 1, tokens) == Polled(last)
    ensures p == PollSpec(svc, tokens, n, 1 + n - n0, left, last)
            <==> n <= p.sent && PollsTold(svc, tokens, n0, n - n0 + left, p)
    decreases left
  {
    hide AnyPending, Unfinished;
    UnfinishedIsPending(last);
    if svc.poll(n, tokens).Polled? {
      UnfinishedIsPending(svc.poll(n, tokens).results);
    }
    assert n > n0 ==> StillRunning(svc, tokens, n - 1);
    if left == 0 || svc.interrupts(n) {
      assert n <= p.sent && PollsTold(svc, tokens, n0, n - n0 + left, p) ==> p.sent == n;
    } else {
      assert n <= p.sent && PollsTold(svc, tokens, n0, n - n0 + left, p) ==> p.sent > n;
      if StillRunning(svc, tokens, n) {
        PollsAreTold(svc, tokens, n0, n + 1, left - 1, svc.poll(n, tokens).results, p);
      } else {
        assert n <= p.sent && PollsTold(svc, tokens, n0, n - n0 + left, p) ==> p.sent == n + 1;
      }
    }
  }

  // A batch that ran out of polls has a pending result or none at all; one that did not
  // has none pending; and the requests it reports are the requests it sent.
  lemma {:induction false} PollsAreHonest(
    svc: Service, tokens: seq<string>, n: nat, used: nat, left: nat, last: seq<Result>)
    requires last == [] || AnyPending(last)
    ensures var p := PollSpec(svc, tokens, n, used, left, last);
            && n <= p.sent <= n + left
            && (p.outcome.Batch? ==>
                  && p.outcome.requestsUsed == used + (p.sent - n)
                  && (p.outcome.timedOut ==> AnyPending(p.outcome.results) || (left == 0 && p.outcome.results == last))
                  && (!p.outcome.timedOut ==> !AnyPending(p.outcome.results)))
    decreases left
  {
    if left > 0 && !svc.interrupts(n) && svc.poll(n, tokens).Polled? && AnyPending(svc.poll(n, tokens).results) {
      PollsAreHonest(svc, tokens, n + 1, used + 1, left - 1, svc.poll(n, tokens).results);
    }
  }

  lemma BatchesAreHonest(svc: Service, subs: seq<Submission>, n: nat, maxPolls: int)
    ensures var b := BatchSpec(svc, subs, n, maxPolls);
            && n + 1 <= b.sent <= n + 1 + Budget(maxPolls)
            && Honest(b.outcome)
            && (b.outcome.Batch? ==> b.outcome.requestsUsed == b.sent - n)
  {
    var reply := svc.submit(n, subs);
    if reply.Tokens? && UsableTokens(reply.tokens, |subs|) {
      PollsAreHonest(svc, reply.tokens, n + 1, 1, Budget(maxPolls), []);
    }
  }

  // ---------------------------------------------------------------- the service

  datatype TestRow = TestRow(idx: int, name: string, isPublic: bool, stdin: string, expectedOutput: string)

  /** The contract every sandbox owes: a timed-out batch shows a pending result, or has no
    * results. Local execution never times out, so it owes nothing. */
  predicate Honest(outcome: Outcome) {
    outcome.Batch? && outcome.timedOut ==> outcome.results == [] || AnyPending(outcome.results)
  }

  predicate NeedsRetry(outcome: Outcome) {
    outcome.Batch? && exists r :: r in outcome.results && IsSandboxFailure(r)
  }

  function InfraResult(t: TestRow, why: string): TestResult {
    TestResult(t.idx, t.name, t.isPublic, None, "Infrastructure error", false, None, t.stdin, t.expectedOutput, "", why)
  }

  function InfraResults(tests: seq<TestRow>, why: string): (r: seq<TestResult>)
    ensures |r| == |tests|
    ensures forall k :: 0 <= k < |tests| ==> r[k] == InfraResult(tests[k], why)
  {
    seq(|tests|, i requires 0 <= i < |tests| => InfraResult(tests[i], why))
  }

  function InfraAnswer(tests: seq<TestRow>, retryUsed: bool, why: string): Execution {
    Execution(InfraError, 0, |tests|, retryUsed, InfraResults(tests, why), "")
  }

  predicate Matched(t: TestRow, r: Result) {
    r.statusId == 3 && OutputMatches(r.stdout, Some(t.expectedOutput))
  }

  function Judged(t: TestRow, r: Result): TestResult {
    TestResult(t.idx, t.name, t.isPublic, Some(r.statusId), r.statusDescription, Matched(t, r), r.time,
               t.stdin, t.expectedOutput, if r.stdout.Some? then r.stdout.value else "", r.CombinedError())
  }

  function AllScored(tests: seq<TestRow>, results: seq<Result>, n: nat): (s: seq<Scored>)
    requires n <= |tests| && n <= |results|
    ensures |s| == n
    ensures forall k :: 0 <= k < n ==> s[k] == Scored(results[k], Matched(tests[k], results[k]))
  {
    seq(n, i requires 0 <= i < n => Scored(results[i], Matched(tests[i], results[i])))
  }

  function AllJudged(tests: seq<TestRow>, results: seq<Result>, n: nat): (s: seq<TestResult>)
    requires n <= |tests| && n <= |results|
    ensures |s| == n
    ensures forall k :: 0 <= k < n ==> s[k] == Judged(tests[k], results[k])
  {
    seq(n, i requires 0 <= i < n => Judged(tests[i], results[i]))
  }

  function CountPassed(ts: seq<TestResult>): nat {
    if ts == [] then 0 else CountPassed(ts[..|ts| - 1]) + if ts[|ts| - 1].passed then 1 else 0
  }

  /** The answer for the outcome that counts: the second batch if there was one. */
  function AnswerFor(tests: seq<TestRow>, outcome: Outcome, retryUsed: bool): Execution {
    match outcome
    case Threw(why) => InfraAnswer(tests, retryUsed, why)
    case Batch(results, _, timedOut) =>
      if |results| != |tests| then InfraAnswer(tests, retryUsed, "result count mismatch")
      else
        var judged := AllJudged(tests, results, |tests|);
        Execution(BucketOf(AllScored(tests, results, |tests|), timedOut),
                  CountPassed(judged), |tests|, retryUsed, judged, "")
  }

  function Submissions(tests: seq<TestRow>, source: string): (subs: seq<Submission>)
    ensures |subs| == |tests|
    ensures forall k :: 0 <= k < |tests| ==> subs[k].source == source && subs[k].stdin == tests[k].stdin
  {
    seq(|tests|, i requires 0 <= i < |tests| => Submission(source, tests[i].stdin))
  }

  datatype Served = Served(answer: Execution, reported: nat, sent: nat, batches: nat)

  // At most two batches: a second one exactly when the first shows a sandbox failure.
  function ExecuteSpec(svc: Service, maxPolls: int, n: nat, tests: seq<TestRow>, source: string): Served {
    var subs := Submissions(tests, source);
    var first := BatchSpec(svc, subs, n, maxPolls);
    if NeedsRetry(first.outcome) then
      var second := BatchSpec(svc, subs, first.sent, maxPolls);
      Served(AnswerFor(tests, second.outcome, true), Reported(first.outcome) + Reported(second.outcome), second.sent, 2)
    else Served(AnswerFor(tests, first.outcome, false), Reported(first.outcome), first.sent, 1)
  }

  // A batch that throws reports nothing.
  function Reported(outcome: Outcome): nat {
    if outcome.Batch? then outcome.requestsUsed else 0
  }

  /** ExecutionService.execute; None is the exception for a problem without tests. */
  method Execute(client: Judge0Client, tests: seq<TestRow>, studentSource: string, harness: string)
    returns (answer: Option<Execution>, totalRequests: nat)
    modifies client`sent, client`submitted
    ensures tests == [] ==> answer.None? && client.sent == old(client.sent) && client.submitted == old(client.submitted)
    ensures old(client.submitted) <= client.submitted && |client.submitted| <= |old(client.submitted)| + 2
    ensures forall b :: |old(client.submitted)| <= b < |client.submitted| ==>
              var batch := client.submitted[b];
              && |batch| == |tests|
              && forall k :: 0 <= k < |tests| ==>
                   batch[k].source == studentSource + "\n\n" + harness && batch[k].stdin == tests[k].stdin
    ensures answer.Some? ==> (answer.value.infraRetryUsed <==> |client.submitted| == |old(client.submitted)| + 2)
    ensures tests != [] ==>
              var source := studentSource + "\n\n" + harness;
              var spec := ExecuteSpec(client.svc, client.maxPolls, old(client.sent), tests, source);
              && answer == Some(spec.answer) && totalRequests == spec.reported
              && client.sent == spec.sent && |client.submitted| == |old(client.submitted)| + spec.batches
  {
    totalRequests := 0;
    if tests == [] {
      return None, 0;
    }
    var subs := Submissions(tests, studentSource + "\n\n" + harness);
    var infraRetryUsed := false;
    var outcome := client.RunBatch(subs);
    if outcome.Batch? {
      totalRequests := totalRequests + outcome.requestsUsed;
      if NeedsRetry(outcome) {
        infraRetryUsed := true;
        outcome := client.RunBatch(subs);
        if outcome.Batch? {
          totalRequests := totalRequests + outcome.requestsUsed;
        }
      }
    }
    if outcome.Threw? {
      return Some(InfraAnswer(tests, infraRetryUsed, outcome.why)), totalRequests;
    }
    var execution := Assess(tests, outcome, infraRetryUsed);
    answer := Some(execution);
  }

  method Assess(tests: seq<TestRow>, outcome: Outcome, infraRetryUsed: bool) returns (execution: Execution)
    requires outcome.Batch?
    ensures execution == AnswerFor(tests, outcome, infraRetryUsed)
  {
    var results := outcome.results;
    if |results| != |tests| {
      return InfraAnswer(tests, infraRetryUsed, "result count mismatch");
    }
    var scored, testResults := [], [];
    for i := 0 to |tests|
      invariant scored == AllScored(tests, results, i)
      invariant testResults == AllJudged(tests, results, i)
    {
      var t, r := tests[i], results[i];
      assert AllScored(tests, results, i + 1) == AllScored(tests, results, i) + [Scored(r, Matched(t, r))];
      assert AllJudged(tests, results, i + 1) == AllJudged(tests, results, i) + [Judged(t, r)];
      var matched := r.statusId == 3 && OutputMatches(r.stdout, Some(t.expectedOutput));
      scored := scored + [Scored(r, matched)];
      testResults := testResults + [
        TestResult(t.idx, t.name, t.isPublic, Some(r.statusId), r.statusDescription, matched,
                   r.time, t.stdin, t.expectedOutput,
                   if r.stdout.Some? then r.stdout.value else "", r.CombinedError())];
    }
    var bucket, passed := BucketOf(scored, outcome.timedOut), CountPassed(testResults);
    execution := Execution(bucket, passed, |tests|, infraRetryUsed, testResults, "");
  }

  // ---------------------------------------------------------------- what the answer means

  lemma {:induction false} AllPassedIff(ts: seq<TestResult>)
    ensures CountPassed(ts) <= |ts|
    ensures CountPassed(ts) == |ts| <==> forall k :: 0 <= k < |ts| ==> ts[k].passed
  {
    if ts != [] {
      AllPassedIff(ts[..|ts| - 1]);
      assert forall k :: 0 <= k < |ts| - 1 ==> ts[..|ts| - 1][k] == ts[k];
    }
  }

  // All results matched their tests exactly when the mapper says accepted.
  lemma MatchedIffAccepted(tests: seq<TestRow>, results: seq<Result>, timedOut: bool)
    requires tests != [] && |results| == |tests|
    requires timedOut ==> AnyPending(results)
    ensures BucketOf(AllScored(tests, results, |tests|), timedOut) == Accepted
            <==> forall k :: 0 <= k < |tests| ==> Matched(tests[k], results[k])
  {
    hide BucketOf, OutputMatches;
    var scored := AllScored(tests, results, |tests|);
    AcceptedIff(scored, timedOut);
    if forall k :: 0 <= k < |tests| ==> Matched(tests[k], results[k]) {
      forall r | r in results ensures !r.Pending() {
        var k :| 0 <= k < |results| && results[k] == r;
        assert Matched(tests[k], results[k]);
      }
      forall s | s in scored ensures s.result.statusId == 3 && s.outputMatched {
        var k :| 0 <= k < |scored| && scored[k] == s;
        assert Matched(tests[k], results[k]);
      }
    } else {
      var k :| 0 <= k < |tests| && !Matched(tests[k], results[k]);
      assert scored[k] in scored;
    }
  }

  /** Accepted if and only if every one of the tests passed, from any honest outcome. */
  lemma AcceptedIffAllPassed(tests: seq<TestRow>, outcome: Outcome, retryUsed: bool)
    requires tests != [] && Honest(outcome)
    ensures var a := AnswerFor(tests, outcome, retryUsed);
            && a.total == |tests| == |a.tests| && 0 <= a.passed <= a.total
            && (a.bucket == Accepted <==> a.passed == a.total)
            && (a.passed == a.total <==> forall k :: 0 <= k < |a.tests| ==> a.tests[k].passed)
  {
    if outcome.Threw? {
      InfraAnswerPassesNone(tests, retryUsed, outcome.why);
    } else if |outcome.results| != |tests| {
      InfraAnswerPassesNone(tests, retryUsed, "result count mismatch");
    } else {
      var results := outcome.results;
      MatchedIffAccepted(tests, results, outcome.timedOut);
      JudgedPassIff(tests, results);
    }
  }

  // Whatever the sandbox did, the answer speaks of every test, in order, by its own data; and
  // a test counts as passed only if it finished normally and printed what was expected.
  lemma AnswerKeepsTests(tests: seq<TestRow>, outcome: Outcome, retryUsed: bool, k: nat)
    requires k < |tests|
    ensures var a := AnswerFor(tests, outcome, retryUsed);
            && |a.tests| == |tests| && a.infraRetryUsed == retryUsed
            && var t, r := tests[k], a.tests[k];
            && r.index == t.idx && r.name == t.name && r.isPublic == t.isPublic
            && r.stdin == t.stdin && r.expected == t.expectedOutput
            && (r.passed <==> r.statusId == Some(3) && Strip(r.stdout) == Strip(t.expectedOutput))
            && if outcome.Batch? && |outcome.results| == |tests| then
                 && r.statusId == Some(outcome.results[k].statusId) && r.time == outcome.results[k].time
                 && r.stdout == (if outcome.results[k].stdout.Some? then outcome.results[k].stdout.value else "")
                 && r.stderr == outcome.results[k].CombinedError()
               else r.statusId == None && r.stdout == ""
  {
    hide BucketOf;
    assert Strip("") == "";
    if outcome.Threw? || |outcome.results| != |tests| {
      assert forall why :: InfraResults(tests, why)[k] == InfraResult(tests[k], why);
    } else {
      assert AllJudged(tests, outcome.results, |tests|)[k] == Judged(tests[k], outcome.results[k]);
    }
  }

  // The verdict is that of the worst test whenever there is one result for each and no poll limit
  // was reached, and otherwise never the student's fault; what is counted is the tests that passed.
  lemma AnswerIsWorst(tests: seq<TestRow>, outcome: Outcome, retryUsed: bool)
    requires tests != [] && Honest(outcome)
    ensures var a := AnswerFor(tests, outcome, retryUsed);
            && (a.bucket == if outcome.Threw? || |outcome.results| != |tests| || outcome.timedOut then InfraError
                            else VerdictAt(Worst(AllScored(tests, outcome.results, |tests|))))
            && a.passed == |set k | 0 <= k < |a.tests| && a.tests[k].passed|
  {
    hide AllScored;
    PassedIsCardinality(AnswerFor(tests, outcome, retryUsed).tests);
    if outcome.Batch? && |outcome.results| == |tests| {
      CascadeIsMaximum(AllScored(tests, outcome.results, |tests|));
      if outcome.timedOut {
        TimedOutIsInfra(tests, outcome.results);
      }
    } else {
      InfraAnswerPassesNone(tests, retryUsed, if outcome.Threw? then outcome.why else "result count mismatch");
    }
  }

  lemma TimedOutIsInfra(tests: seq<TestRow>, results: seq<Result>)
    requires |results| == |tests|
    ensures BucketOf(AllScored(tests, results, |tests|), true) == InfraError
  {
  }

  lemma {:induction false} PassedIsCardinality(ts: seq<TestResult>)
    ensures CountPassed(ts) == |set k | 0 <= k < |ts| && ts[k].passed|
  {
    if ts != [] {
      var n := |ts| - 1;
      PassedIsCardinality(ts[..n]);
      var before, after := set k | 0 <= k < n && ts[..n][k].passed, set k | 0 <= k < |ts| && ts[k].passed;
      assert after == if ts[n].passed then before + {n} else before;
    }
  }

  lemma InfraAnswerPassesNone(tests: seq<TestRow>, retryUsed: bool, why: string)
    requires tests != []
    ensures CountPassed(InfraResults(tests, why)) == 0 && !InfraResults(tests, why)[0].passed
  {
    var ts := InfraResults(tests, why);
    assert forall k :: 0 <= k < |ts| ==> !ts[k].passed;
    InfraPassesNone(ts);
  }

  lemma JudgedPassIff(tests: seq<TestRow>, results: seq<Result>)
    requires |results| == |tests|
    ensures var judged := AllJudged(tests, results, |tests|);
            && CountPassed(judged) <= |tests|
            && (CountPassed(judged) == |tests| <==> forall k :: 0 <= k < |tests| ==> Matched(tests[k], results[k]))
            && forall k :: 0 <= k < |tests| ==> (judged[k].passed <==> Matched(tests[k], results[k]))
  {
    var judged := AllJudged(tests, results, |tests|);
    AllPassedIff(judged);
    assert forall k :: 0 <= k < |tests| ==> judged[k] == Judged(tests[k], results[k]);
    if CountPassed(judged) == |tests| {
      forall k | 0 <= k < |tests| ensures Matched(tests[k], results[k]) { assert judged[k].passed; }
    }
  }

  lemma {:induction false} InfraPassesNone(ts: seq<TestResult>)
    requires forall k :: 0 <= k < |ts| ==> !ts[k].passed
    ensures CountPassed(ts) == 0
  {
    if ts != [] {
      InfraPassesNone(ts[..|ts| - 1]);
    }
  }

  /** For every behaviour of the remote service: accepted iff all tests passed, and no more
    * than 2 * (1 + max(maxPolls, 0)) requests sent. */
  lemma ExecuteIsSound(svc: Service, maxPolls: int, n: nat, tests: seq<TestRow>, source: string)
    requires tests != []
    ensures var e := ExecuteSpec(svc, maxPolls, n, tests, source);
            && (e.answer.bucket == Accepted <==> e.answer.passed == e.answer.total)
            && e.answer.total == |tests| > 0
            && n < e.sent <= n + 2 * (1 + Budget(maxPolls))
            && (!e.answer.infraRetryUsed ==> e.sent <= n + 1 + Budget(maxPolls))
            && 1 <= e.batches <= 2 && (e.answer.infraRetryUsed <==> e.batches == 2)
            && e.reported <= e.sent - n
  {
    var subs := Submissions(tests, source);
    BatchesAreHonest(svc, subs, n, maxPolls);
    var first := BatchSpec(svc, subs, n, maxPolls);
    if NeedsRetry(first.outcome) {
      BatchesAreHonest(svc, subs, first.sent, maxPolls);
      AcceptedIffAllPassed(tests, BatchSpec(svc, subs, first.sent, maxPolls).outcome, true);
    } else {
      AcceptedIffAllPassed(tests, first.outcome, false);
    }
  }

  // A second batch is started, and marked, exactly when the first one came back with a sandbox
  // failure; a batch that threw, however it did, is never followed by another.
  lemma RetryIff(svc: Service, maxPolls: int, n: nat, tests: seq<TestRow>, source: string)
    ensures var first := BatchSpec(svc, Submissions(tests, source), n, maxPolls);
            var e := ExecuteSpec(svc, maxPolls, n, tests, source);
            && (e.answer.infraRetryUsed <==> e.batches == 2)
            && (e.batches == 2 <==>
                  first.outcome.Batch?
                  && exists r :: r in first.outcome.results && (r.statusId == 13 || r.statusId == 14))
            && (e.batches == 1 ==> e.sent == first.sent)
            && (first.outcome.Threw? ==> e.answer.bucket == InfraError && e.answer.passed == 0 && e.reported == 0)
  {
  }

  // The request count that is logged is complete exactly when the last batch did not throw:
  // a batch that throws has spent requests that nobody counts.
  lemma CountIsCompleteIff(svc: Service, maxPolls: int, n: nat, tests: seq<TestRow>, source: string)
    ensures var subs := Submissions(tests, source);
            var first := BatchSpec(svc, subs, n, maxPolls);
            var last := if NeedsRetry(first.outcome) then BatchSpec(svc, subs, first.sent, maxPolls) else first;
            var e := ExecuteSpec(svc, maxPolls, n, tests, source);
            e.reported == e.sent - n <==> last.outcome.Batch?
  {
    var subs := Submissions(tests, source);
    BatchesAreHonest(svc, subs, n, maxPolls);
    BatchesAreHonest(svc, subs, BatchSpec(svc, subs, n, maxPolls).sent, maxPolls);
  }

  // A service whose first submission fails: one request sent, none of it reported.
  lemma FailedSubmissionIsNotCounted(maxPolls: int, n: nat, tests: seq<TestRow>, source: string)
    ensures var down := Service((_, _) => SubmitFailed("HTTP 503"), (_, _) => PollFailed(""), _ => false);
            var e := ExecuteSpec(down, maxPolls, n, tests, source);
            e.reported == 0 && e.sent == n + 1
  {
  }

  // ---------------------------------------------------------------- what the sandbox runs

  /** Whatever such a sandbox shows for a program is still pending, or is its own failure, or is
    * the result of running this program on this input. */
  ghost predicate RunsWhatItIsGiven(svc: Service, run: (string, string) -> Result) {
    forall n: nat, r: nat, subs :: n < r && svc.submit(n, subs).Tokens? ==>
      Shows(svc.poll(r, svc.submit(n, subs).tokens), subs, run)
  }

  ghost predicate Shows(reply: PollReply, subs: seq<Submission>, run: (string, string) -> Result) {
    reply.Polled? ==>
      && |reply.results| == |subs|
      && forall k :: 0 <= k < |subs| ==>
           var x := reply.results[k];
           x.Pending() || IsSandboxFailure(x) || x == run(subs[k].source, subs[k].stdin)
  }

  // The program finishes normally on the test's own input and prints what the test expects.
  ghost predicate Prints(run: (string, string) -> Result, source: string, t: TestRow) {
    var r := run(source, t.stdin);
    r.statusId == 3 && Strip(if r.stdout.Some? then r.stdout.value else "") == Strip(t.expectedOutput)
  }

  // The batch came back whole: no poll limit reached, and nothing the sandbox itself broke.
  ghost predicate Settled(outcome: Outcome) {
    outcome.Batch? && !outcome.timedOut && forall x :: x in outcome.results ==> !IsSandboxFailure(x)
  }

  /** Over a sandbox that runs what it is given, the answer is ACCEPTED if and only if the batch that
    * counts came back whole and the student's program prints the expected text on the input of
    * every test. */
  lemma AcceptedIffRunPrints(svc: Service, run: (string, string) -> Result, maxPolls: int, n: nat,
                             tests: seq<TestRow>, source: string)
    requires tests != [] && RunsWhatItIsGiven(svc, run)
    ensures var subs := Submissions(tests, source);
            var first := BatchSpec(svc, subs, n, maxPolls);
            var last := if NeedsRetry(first.outcome) then BatchSpec(svc, subs, first.sent, maxPolls) else first;
            ExecuteSpec(svc, maxPolls, n, tests, source).answer.bucket == Accepted
            <==> Settled(last.outcome) && forall t :: t in tests ==> Prints(run, source, t)
  {
    hide BatchSpec, AnswerFor;
    var subs := Submissions(tests, source);
    var first := BatchSpec(svc, subs, n, maxPolls);
    if NeedsRetry(first.outcome) {
      BatchShowsRuns(svc, run, maxPolls, first.sent, subs);
      OutcomeDecides(tests, source, run, BatchSpec(svc, subs, first.sent, maxPolls).outcome, true);
    } else {
      BatchShowsRuns(svc, run, maxPolls, n, subs);
      OutcomeDecides(tests, source, run, first.outcome, false);
    }
  }

  // The results of a finished batch are not pending, and are those of the programs it submitted.
  ghost predicate Ran(outcome: Outcome, subs: seq<Submission>, run: (string, string) -> Result) {
    && Honest(outcome)
    && (outcome.Batch? && !outcome.timedOut ==>
          && |outcome.results| == |subs|
          && forall k :: 0 <= k < |subs| ==>
               var x := outcome.results[k];
               !x.Pending() && (IsSandboxFailure(x) || x == run(subs[k].source, subs[k].stdin)))
  }

  lemma BatchShowsRuns(svc: Service, run: (string, string) -> Result, maxPolls: int, n: nat, subs: seq<Submission>)
    requires RunsWhatItIsGiven(svc, run)
    ensures Ran(BatchSpec(svc, subs, n, maxPolls).outcome, subs, run)
  {
    hide BatchSpec;
    var p := BatchSpec(svc, subs, n, maxPolls);
    BatchesAreHonest(svc, subs, n, maxPolls);
    BatchIsTold(svc, subs, n, maxPolls, p);
    if p.outcome.Batch? && !p.outcome.timedOut {
      assert Shows(svc.poll(p.sent - 1, svc.submit(n, subs).tokens), subs, run);
    }
  }

  lemma OutcomeDecides(tests: seq<TestRow>, source: string, run: (string, string) -> Result,
                       outcome: Outcome, retryUsed: bool)
    requires tests != [] && Ran(outcome, Submissions(tests, source), run)
    ensures AnswerFor(tests, outcome, retryUsed).bucket == Accepted
            <==> Settled(outcome) && forall t :: t in tests ==> Prints(run, source, t)
  {
    hide BucketOf;
    if outcome.Batch? && |outcome.results| == |tests| {
      MatchedIffAccepted(tests, outcome.results, outcome.timedOut);
      if outcome.timedOut {
        TimedOutIsInfra(tests, outcome.results);
      } else {
        MatchedIffPrints(tests, source, run, outcome.results);
      }
    }
  }

  lemma MatchedIffPrints(tests: seq<TestRow>, source: string, run: (string, string) -> Result, results: seq<Result>)
    requires |results| == |tests|
    requires forall k :: 0 <= k < |tests| ==>
               !results[k].Pending() && (IsSandboxFailure(results[k]) || results[k] == run(source, tests[k].stdin))
    ensures (forall k :: 0 <= k < |tests| ==> Matched(tests[k], results[k]))
            <==> (forall x :: x in results ==> !IsSandboxFailure(x))
                 && forall t :: t in tests ==> Prints(run, source, t)
  {
    assert Strip("") == "";
    forall k | 0 <= k < |tests|
      ensures Matched(tests[k], results[k]) <==> !IsSandboxFailure(results[k]) && Prints(run, source, tests[k])
    {
    }
  }

  // The sandbox takes the batch, answers every poll without a failure of its own, and one of the
  // polls within the limit shows nothing pending.
  ghost predicate Delivers(svc: Service, maxPolls: int, n: nat, subs: seq<Submission>) {
    && svc.submit(n, subs).Tokens?
    && var tokens := svc.submit(n, subs).tokens;
    && |tokens| == |subs| && (forall t :: t in tokens ==> SaysSomething(t))
    && (forall r :: n < r <= n + Budget(maxPolls) ==> !svc.interrupts(r) && ShowsNoFailure(svc.poll(r, tokens)))
    && exists r :: n < r <= n + Budget(maxPolls) && !StillRunning(svc, tokens, r)
  }

  ghost predicate ShowsNoFailure(reply: PollReply) {
    reply.Polled? && forall x :: x in reply.results ==> !IsSandboxFailure(x)
  }

  /** When it delivers in time, ACCEPTED means that the program prints the expected text on the
    * input of every test, and nothing else. */
  lemma DeliveredVerdict(svc: Service, run: (string, string) -> Result, maxPolls: int, n: nat,
                         tests: seq<TestRow>, source: string)
    requires tests != [] && RunsWhatItIsGiven(svc, run)
    requires Delivers(svc, maxPolls, n, Submissions(tests, source))
    ensures ExecuteSpec(svc, maxPolls, n, tests, source).answer.bucket == Accepted
            <==> forall t :: t in tests ==> Prints(run, source, t)
    ensures ExecuteSpec(svc, maxPolls, n, tests, source).batches == 1
  {
    hide BatchSpec, AnswerFor;
    var subs := Submissions(tests, source);
    DeliveredSettles(svc, maxPolls, n, subs);
    AcceptedIffRunPrints(svc, run, maxPolls, n, tests, source);
  }

  lemma DeliveredSettles(svc: Service, maxPolls: int, n: nat, subs: seq<Submission>)
    requires Delivers(svc, maxPolls, n, subs)
    ensures Settled(BatchSpec(svc, subs, n, maxPolls).outcome)
    ensures !NeedsRetry(BatchSpec(svc, subs, n, maxPolls).outcome)
  {
    hide BatchSpec, UsableTokens, AnyPending, IsSandboxFailure;
    var p := BatchSpec(svc, subs, n, maxPolls);
    BatchIsTold(svc, subs, n, maxPolls, p);
    var tokens := svc.submit(n, subs).tokens;
    var r :| n < r <= n + Budget(maxPolls) && !StillRunning(svc, tokens, r);
    assert p.sent > n + 1;
    assert ShowsNoFailure(svc.poll(p.sent - 1, tokens));
  }
}
