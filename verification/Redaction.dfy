/** What the browser and the code tutor may see of an execution result. */
module Redaction {
  import opened Text

  /** The verdict on one execution; a name the tutor side does not know is kept as it is. */
  datatype Bucket = Accepted | WrongAnswer | Tle | CompileError | RuntimeError | InfraError | Unknown(name: string)

  function BucketName(b: Bucket): string {
    match b
    case Accepted => "ACCEPTED"
    case WrongAnswer => "WRONG_ANSWER"
    case Tle => "TLE"
    case CompileError => "COMPILE_ERROR"
    case RuntimeError => "RUNTIME_ERROR"
    case InfraError => "INFRA_ERROR"
    case Unknown(name) => name
  }

  const MAX_STDERR_EXCERPT := 1200
  const TUTOR_STDERR_EXCERPT := 600

  /** One test of the domain service's answer, hidden tests included. */
  datatype TestResult = TestResult(
    index: int, name: string, isPublic: bool,
    statusId: Option<int>, statusDescription: string, passed: bool, time: Option<string>,
    stdin: string, expected: string, stdout: string, stderr: string)

  /** The domain service's answer; error is filled only when it could not be reached. */
  datatype Execution = Execution(
    bucket: Bucket, passed: int, total: int, infraRetryUsed: bool, tests: seq<TestResult>, error: string)

  /** A test as the browser sees it: the data fields are absent on a hidden test. */
  datatype Row = Row(
    index: int, name: string, isPublic: bool, passed: bool, status: string, time: Option<string>,
    stderrExcerpt: string, stdin: Option<string>, expected: Option<string>, stdout: Option<string>)

  datatype ExecutionView = ExecutionView(bucket: Bucket, passed: int, total: int, tests: seq<Row>)

  function Excerpt(text: string, limit: nat): string {
    var t := Strip(text);
    if |t| <= limit then t else t[..limit] + "\n...[truncated]"
  }

  // ---------------------------------------------------------------- the browser

  function RowOf(t: TestResult): Row {
    Row(t.index, t.name, t.isPublic, t.passed, t.statusDescription, t.time,
        Excerpt(t.stderr, MAX_STDERR_EXCERPT),
        if t.isPublic then Some(t.stdin) else None,
        if t.isPublic then Some(t.expected) else None,
        if t.isPublic then Some(t.stdout) else None)
  }

  function RowsOf(ts: seq<TestResult>): (rows: seq<Row>)
    ensures |rows| == |ts|
    ensures forall k :: 0 <= k < |ts| ==> rows[k] == RowOf(ts[k])
  {
    if ts == [] then [] else RowsOf(ts[..|ts| - 1]) + [RowOf(ts[|ts| - 1])]
  }

  function StrippedView(execution: Option<Execution>): Option<ExecutionView> {
    match execution
    case None => None
    case Some(e) => Some(ExecutionView(e.bucket, e.passed, e.total, RowsOf(e.tests)))
  }

  method StripForView(execution: Option<Execution>) returns (view: Option<ExecutionView>)
    ensures view == StrippedView(execution)
    ensures view.Some? <==> execution.Some?
    ensures view.Some? ==>
              var v, e := view.value, execution.value;
              v.bucket == e.bucket && v.passed == e.passed && v.total == e.total && |v.tests| == |e.tests|
    ensures view.Some? ==> forall k :: 0 <= k < |view.value.tests| ==>
              var t, row := execution.value.tests[k], view.value.tests[k];
              && row.index == t.index && row.name == t.name && row.isPublic == t.isPublic && row.passed == t.passed
              && row.status == t.statusDescription && row.time == t.time
              && row.stderrExcerpt == Excerpt(t.stderr, 1200)
              && (t.isPublic ==>
                    row.stdin == Some(t.stdin) && row.expected == Some(t.expected) && row.stdout == Some(t.stdout))
              && (!t.isPublic ==> row.stdin.None? && row.expected.None? && row.stdout.None?)
  {
    if execution.None? {
      return None;
    }
    var e := execution.value;
    var tests := [];
    for n := 0 to |e.tests|
      invariant tests == RowsOf(e.tests[..n])
    {
      var t := e.tests[n];
      var row := Row(t.index, t.name, t.isPublic, t.passed, t.statusDescription, t.time,
                     Excerpt(t.stderr, MAX_STDERR_EXCERPT), None, None, None);
      if t.isPublic {
        row := row.(stdin := Some(t.stdin), expected := Some(t.expected), stdout := Some(t.stdout));
      }
      assert e.tests[..n + 1][..n] == e.tests[..n];
      tests := tests + [row];
    }
    assert e.tests[..|e.tests|] == e.tests;
    view := Some(ExecutionView(e.bucket, e.passed, e.total, tests));
  }

  // ---------------------------------------------------------------- the code tutor

  function Heading(t: TestResult): string {
    "- [" + (if t.passed then "PASS" else "FAIL") + "] test " + Decimal(t.index) + " '" + t.name
    + "' (" + t.statusDescription + ")" + if t.isPublic then " [public]" else " [hidden]"
  }

  function TestLines(t: TestResult): seq<string> {
    var got := Strip(t.stdout);
    var err := Excerpt(t.stderr, TUTOR_STDERR_EXCERPT);
    [Heading(t)]
    + (if t.isPublic then
         ["    input    : " + t.stdin,
          "    expected : " + t.expected,
          "    got      : " + if got != "" then got else "(nothing)"]
       else [])
    + (if err != "" then ["    error    : " + err] else [])
  }

  function AllTestLines(ts: seq<TestResult>): seq<string> {
    if ts == [] then [] else AllTestLines(ts[..|ts| - 1]) + TestLines(ts[|ts| - 1])
  }

  function SummaryHeader(e: Execution): seq<string> {
    ["BUCKET: " + BucketName(e.bucket),
     "PASSED: " + Decimal(e.passed) + "/" + Decimal(e.total),
     "",
     "PER-TEST RESULTS"]
  }

  function TutorSummary(execution: Option<Execution>): string {
    match execution
    case None => "(no execution results)"
    case Some(e) => Join("\n", SummaryHeader(e) + AllTestLines(e.tests))
  }

  method DescribeTest(t: TestResult) returns (lines: seq<string>)
    ensures lines == TestLines(t)
    ensures !t.isPublic ==> |lines| <= 2
  {
    var mark := if t.passed then "PASS" else "FAIL";
    var head := "- [" + mark + "] test " + Decimal(t.index) + " '" + t.name + "' (" + t.statusDescription + ")";
    if t.isPublic {
      var got := Strip(t.stdout);
      lines := [head + " [public]"];
      lines := lines + ["    input    : " + t.stdin];
      lines := lines + ["    expected : " + t.expected];
      lines := lines + ["    got      : " + if got != "" then got else "(nothing)"];
    } else {
      lines := [head + " [hidden]"];
    }
    var err := Excerpt(t.stderr, TUTOR_STDERR_EXCERPT);
    if err != "" {
      lines := lines + ["    error    : " + err];
    }
  }

  // The text is the summary of the erased execution: no hidden data can be in it.
  method SummarizeForTutor(execution: Option<Execution>) returns (text: string)
    ensures text == TutorSummary(execution)
    ensures text == TutorSummary(Erase(execution))
    ensures forall other: Option<Execution> :: Erase(other) == Erase(execution) ==> text == TutorSummary(other)
  {
    ConsumersSeeErasedOnly(execution);
    forall other: Option<Execution> | Erase(other) == Erase(execution)
      ensures TutorSummary(other) == TutorSummary(execution)
    {
      ConsumersSeeErasedOnly(other);
    }
    if execution.None? {
      return "(no execution results)";
    }
    var e := execution.value;
    var lines := DescribeTests(e.tests);
    text := Join("\n", SummaryHeader(e) + lines);
  }

  method DescribeTests(tests: seq<TestResult>) returns (lines: seq<string>)
    ensures lines == AllTestLines(tests)
  {
    hide TestLines;
    lines := [];
    for n := 0 to |tests|
      invariant lines == AllTestLines(tests[..n])
    {
      var block := DescribeTest(tests[n]);
      assert tests[..n + 1][..n] == tests[..n];
      lines := lines + block;
    }
    assert tests[..|tests|] == tests;
  }

  // ---------------------------------------------------------------- what is hidden

  /** The execution with everything the student must not learn blanked out: the data of
    * hidden tests, the retry flag, and the text of a transport failure. */
  function EraseTest(t: TestResult): TestResult {
    if t.isPublic then t else t.(stdin := "", expected := "", stdout := "")
  }

  function EraseTests(ts: seq<TestResult>): (r: seq<TestResult>)
    ensures |r| == |ts|
    ensures forall k :: 0 <= k < |ts| ==> r[k] == EraseTest(ts[k])
  {
    seq(|ts|, i requires 0 <= i < |ts| => EraseTest(ts[i]))
  }

  function Erase(execution: Option<Execution>): Option<Execution> {
    match execution
    case None => None
    case Some(e) => Some(e.(tests := EraseTests(e.tests), infraRetryUsed := false, error := ""))
  }

  // What is erased is the input, the expected and the actual output of hidden tests, the retry flag
  // and the transport error, and nothing else.
  lemma ErasedAlikeIff(e1: Execution, e2: Execution)
    ensures Erase(Some(e1)) == Erase(Some(e2)) <==>
            && e1.bucket == e2.bucket && e1.passed == e2.passed && e1.total == e2.total && |e1.tests| == |e2.tests|
            && forall k :: 0 <= k < |e1.tests| ==> AlikeButHidden(e1.tests[k], e2.tests[k])
  {
    var a, b := EraseTests(e1.tests), EraseTests(e2.tests);
    if |e1.tests| == |e2.tests| {
      forall k | 0 <= k < |e1.tests| ensures a[k] == b[k] <==> AlikeButHidden(e1.tests[k], e2.tests[k]) {
      }
      assert a == b <==> forall k :: 0 <= k < |a| ==> a[k] == b[k];
    }
  }

  predicate AlikeButHidden(t1: TestResult, t2: TestResult) {
    && t1.index == t2.index && t1.name == t2.name && t1.isPublic == t2.isPublic && t1.statusId == t2.statusId
    && t1.statusDescription == t2.statusDescription && t1.passed == t2.passed && t1.time == t2.time
    && t1.stderr == t2.stderr
    && (t1.isPublic ==> t1.stdin == t2.stdin && t1.expected == t2.expected && t1.stdout == t2.stdout)
  }

  // Neither consumer can tell an execution from its erased form.
  lemma ConsumersSeeErasedOnly(execution: Option<Execution>)
    ensures StrippedView(execution) == StrippedView(Erase(execution))
    ensures TutorSummary(execution) == TutorSummary(Erase(execution))
  {
    match execution
    case None =>
    case Some(e) =>
      assert RowsOf(e.tests) == RowsOf(EraseTests(e.tests));
      LinesSeeErasedOnly(e.tests);
  }

  lemma {:induction false} LinesSeeErasedOnly(ts: seq<TestResult>)
    ensures AllTestLines(ts) == AllTestLines(EraseTests(ts))
  {
    if ts != [] {
      var rest := ts[..|ts| - 1];
      LinesSeeErasedOnly(rest);
      assert EraseTests(ts)[..|ts| - 1] == EraseTests(rest);
    }
  }

  // Nothing more is hidden than that: what the browser sees of two executions differs as
  // soon as they differ outside the erased fields, status ids and long error output.
  lemma ViewTellsTheRest(e1: Execution, e2: Execution)
    requires StrippedView(Some(e1)) == StrippedView(Some(e2))
    ensures e1.bucket == e2.bucket && e1.passed == e2.passed && e1.total == e2.total
    ensures |e1.tests| == |e2.tests|
    ensures forall k :: 0 <= k < |e1.tests| ==>
              var a, b := EraseTest(e1.tests[k]), EraseTest(e2.tests[k]);
              a.(statusId := None, stderr := "") == b.(statusId := None, stderr := "")
  {
    forall k | 0 <= k < |e1.tests|
      ensures var a, b := EraseTest(e1.tests[k]), EraseTest(e2.tests[k]);
              a.(statusId := None, stderr := "") == b.(statusId := None, stderr := "")
    {
      assert RowOf(e1.tests[k]) == RowsOf(e1.tests)[k] == RowsOf(e2.tests)[k] == RowOf(e2.tests[k]);
    }
  }

  // ---------------------------------------------------------------- what the tutor is told

  lemma {:induction false} LineInSummary(lines: seq<string>, k: nat)
    requires k < |lines|
    ensures Contains(Join("\n", lines), lines[k])
  {
    var l := lines[k];
    assert At(l, 0, l);
    if |lines| == 1 {
      assert Contains(l, l);
    } else if k == 0 {
      Inside("", l, "\n" + Join("\n", lines[1..]), l);
      assert "" + l + ("\n" + Join("\n", lines[1..])) == Join("\n", lines);
    } else {
      LineInSummary(lines[1..], k - 1);
      Inside(lines[0] + "\n", Join("\n", lines[1..]), "", l);
      assert lines[0] + "\n" + Join("\n", lines[1..]) + "" == Join("\n", lines);
    }
  }

  lemma {:induction false} TestHasLines(ts: seq<TestResult>, k: nat, l: string)
    requires k < |ts| && l in TestLines(ts[k])
    ensures l in AllTestLines(ts)
  {
    if k < |ts| - 1 {
      TestHasLines(ts[..|ts| - 1], k, l);
    }
  }

  // What is written on one of a test's lines is in the text.
  lemma LineIsTold(e: Execution, k: nat, a: string, w: string, b: string)
    requires k < |e.tests| && a + w + b in TestLines(e.tests[k])
    ensures Contains(TutorSummary(Some(e)), w)
  {
    hide AllTestLines, TestLines, Join, Contains, SummaryHeader;
    var l, lines := a + w + b, SummaryHeader(e) + AllTestLines(e.tests);
    TestHasLines(e.tests, k, l);
    assert l in lines;
    var n :| 0 <= n < |lines| && lines[n] == l;
    LineInSummary(lines, n);
    ContainsThrough(TutorSummary(Some(e)), a, w, b);
  }

  lemma ContainsThrough(s: string, a: string, w: string, b: string)
    requires Contains(s, a + w + b)
    ensures Contains(s, w)
  {
    var l := a + w + b;
    var i :| 0 <= i <= |s| && At(s, i, l);
    forall k | 0 <= k < |w| ensures s[i + |a| + k] == w[k] {
      assert s[i..i + |l|][|a| + k] == s[i + (|a| + k)] && l[|a| + k] == w[k];
    }
    assert s[i + |a|..i + |a| + |w|] == w;
    assert At(s, i + |a|, w);
  }

  lemma HeaderIsTold(e: Execution)
    ensures Contains(TutorSummary(Some(e)), "BUCKET: " + BucketName(e.bucket))
    ensures Contains(TutorSummary(Some(e)), "PASSED: " + Decimal(e.passed) + "/" + Decimal(e.total))
  {
    hide Contains, Join, Decimal, AllTestLines, BucketName;
    var lines := SummaryHeader(e) + AllTestLines(e.tests);
    LineInSummary(lines, 0);
    LineInSummary(lines, 1);
  }

  function Mark(t: TestResult): string {
    (if t.passed then "- [PASS] test " else "- [FAIL] test ") + Decimal(t.index) + " '" + t.name + "' ("
    + t.statusDescription + ")"
  }

  lemma HeadingIsMarked(t: TestResult)
    ensures Heading(t) == "" + Mark(t) + if t.isPublic then " [public]" else " [hidden]"
  {
    hide Decimal;
    var mark, rest := if t.passed then "PASS" else "FAIL", Decimal(t.index) + " '" + t.name;
    assert "- [" + mark + "] test " == if t.passed then "- [PASS] test " else "- [FAIL] test ";
  }

  /** The tutor is told of every test whether it passed and what it wrote to stderr, and of every
    * public one its input, its expected and its actual output. */
  lemma SummaryTells(e: Execution, k: nat)
    requires k < |e.tests|
    ensures var t, text := e.tests[k], TutorSummary(Some(e));
            && Contains(text, Mark(t))
            && (t.isPublic ==>
                  && Contains(text, "input    : " + t.stdin)
                  && Contains(text, "expected : " + t.expected)
                  && Contains(text, "got      : " + Strip(t.stdout)))
            && (SaysSomething(t.stderr) ==> Contains(text, "error    : " + Excerpt(t.stderr, TUTOR_STDERR_EXCERPT)))
            && Contains(text, "BUCKET: " + BucketName(e.bucket))
            && Contains(text, "PASSED: " + Decimal(e.passed) + "/" + Decimal(e.total))
  {
    HeaderIsTold(e);
    hide Decimal, Excerpt, Strip, Contains, Mark, Heading, TutorSummary;
    var t := e.tests[k];
    var got, err := Strip(t.stdout), Excerpt(t.stderr, TUTOR_STDERR_EXCERPT);
    HeadingIsMarked(t);
    LineIsTold(e, k, "", Mark(t), if t.isPublic then " [public]" else " [hidden]");
    if t.isPublic {
      PublicLines(t);
      LineIsTold(e, k, "    ", "input    : " + t.stdin, "");
      LineIsTold(e, k, "    ", "expected : " + t.expected, "");
      LineIsTold(e, k, "    ", "got      : " + got, if got != "" then "" else "(nothing)");
    }
    if SaysSomething(t.stderr) {
      ExcerptIs(t.stderr, TUTOR_STDERR_EXCERPT);
      ErrorLine(t);
      LineIsTold(e, k, "    ", "error    : " + err, "");
    }
  }

  lemma PublicLines(t: TestResult)
    requires t.isPublic
    ensures "    " + ("input    : " + t.stdin) + "" in TestLines(t)
    ensures "    " + ("expected : " + t.expected) + "" in TestLines(t)
    ensures var got := Strip(t.stdout);
            "    " + ("got      : " + got) + (if got != "" then "" else "(nothing)") in TestLines(t)
  {
    hide Excerpt, Strip, Heading;
    var got := Strip(t.stdout);
    var lines := TestLines(t);
    assert lines[1] == "    input    : " + t.stdin;
    assert lines[2] == "    expected : " + t.expected;
    assert lines[3] == "    got      : " + if got != "" then got else "(nothing)";
    Indented("    input    : ", "input    : ", t.stdin, "");
    Indented("    expected : ", "expected : ", t.expected, "");
    Indented("    got      : ", "got      : ", got, if got != "" then "" else "(nothing)");
    assert got + (if got != "" then "" else "(nothing)") == if got != "" then got else "(nothing)";
  }

  lemma Indented(l: string, a: string, b: string, c: string)
    requires l == "    " + a
    ensures "    " + (a + b) + c == l + (b + c) && b + "" == b
  {
  }

  lemma ErrorLine(t: TestResult)
    requires Excerpt(t.stderr, TUTOR_STDERR_EXCERPT) != ""
    ensures "    " + ("error    : " + Excerpt(t.stderr, TUTOR_STDERR_EXCERPT)) + "" in TestLines(t)
  {
    hide Excerpt, Strip, Heading;
    var err := Excerpt(t.stderr, TUTOR_STDERR_EXCERPT);
    assert "    " + ("error    : " + err) + "" == "    error    : " + err;
    assert TestLines(t)[|TestLines(t)| - 1] == "    error    : " + err;
  }

  // An excerpt is the text without the white space around it, or the start of that and a mark.
  lemma ExcerptIs(text: string, limit: nat)
    ensures var r, t := Excerpt(text, limit), Strip(text);
            && (|t| <= limit ==> r == t)
            && (|t| > limit ==> |r| == limit + 15 && r[..limit] == t[..limit] && r[limit..] == "\n...[truncated]")
    ensures limit > 0 ==> (Excerpt(text, limit) == "" <==> !SaysSomething(text))
  {
    StripIsBlank(text);
  }
}
