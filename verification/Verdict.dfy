/** From the sandbox's results for one batch to one verdict. */
module VerdictMapper {
  import opened Text
  import opened Redaction

  // String.trim: without the characters up to the space at either end.
  function Trim(s: string): string {
    if s == [] then ""
    else if s[0] <= ' ' then Trim(s[1..])
    else if s[|s| - 1] <= ' ' then Trim(s[..|s| - 1])
    else s
  }

  /** One submission's outcome, in the status ids of the sandbox. */
  datatype Result = Result(
    statusId: int, statusDescription: string, stdout: Option<string>,
    stderr: Option<string>, compileOutput: Option<string>, time: Option<string>)
  {
    predicate Pending() {
      statusId == 1 || statusId == 2
    }

    // stderr and compile_output, on separate lines when both are there.
    function CombinedError(): string {
      var a := if stderr.Some? then stderr.value else "";
      var b := if compileOutput.Some? then compileOutput.value else "";
      Trim(a + (if a == "" || b == "" then "" else "\n") + b)
    }
  }

  datatype Scored = Scored(result: Result, outputMatched: bool)

  function Stripped(s: Option<string>): string {
    if s.Some? then Strip(s.value) else ""
  }

  predicate OutputMatches(stdout: Option<string>, expected: Option<string>) {
    Stripped(stdout) == Stripped(expected)
  }

  predicate IsRuntimeStatus(id: int) {
    7 <= id <= 12
  }

  // A Python syntax error arrives as a runtime error.
  predicate LooksLikeSyntaxError(r: Result) {
    IsRuntimeStatus(r.statusId)
    && (Contains(r.CombinedError(), "SyntaxError") || Contains(r.CombinedError(), "IndentationError"))
  }

  predicate IsSandboxFailure(r: Result) {
    r.statusId == 13 || r.statusId == 14
  }

  /** The cascade of the source: the first rule that matches some test decides. */
  function BucketOf(scored: seq<Scored>, timedOut: bool): Bucket {
    if scored == [] then InfraError
    else if timedOut || exists s :: s in scored && s.result.Pending() then InfraError
    else if exists s :: s in scored && IsSandboxFailure(s.result) then InfraError
    else if exists s :: s in scored && LooksLikeSyntaxError(s.result) then CompileError
    else if exists s :: s in scored && s.result.statusId == 6 then CompileError
    else if exists s :: s in scored && IsRuntimeStatus(s.result.statusId) then RuntimeError
    else if exists s :: s in scored && s.result.statusId == 5 then Tle
    else if exists s :: s in scored
                        && (s.result.statusId == 4 || (s.result.statusId == 3 && !s.outputMatched)) then WrongAnswer
    else if forall s :: s in scored ==> s.result.statusId == 3 && s.outputMatched then Accepted
    else InfraError
  }

  // ---------------------------------------------------------------- severity

  /** How bad one test alone is; an unknown status ranks just above a match. */
  function Severity(s: Scored): nat {
    var r := s.result;
    if r.Pending() || IsSandboxFailure(r) then 6
    else if LooksLikeSyntaxError(r) || r.statusId == 6 then 5
    else if IsRuntimeStatus(r.statusId) then 4
    else if r.statusId == 5 then 3
    else if r.statusId == 4 || (r.statusId == 3 && !s.outputMatched) then 2
    else if r.statusId == 3 then 0
    else 1
  }

  // The infrastructure verdict has two ranks: an unknown status, and a sandbox failure.
  function VerdictAt(severity: nat): Bucket {
    match severity
    case 0 => Accepted
    case 1 => InfraError
    case 2 => WrongAnswer
    case 3 => Tle
    case 4 => RuntimeError
    case 5 => CompileError
    case _ => InfraError
  }

  function Worst(scored: seq<Scored>): nat {
    if scored == [] then 0 else
      var rest := Worst(scored[1..]);
      if Severity(scored[0]) > rest then Severity(scored[0]) else rest
  }

  lemma {:induction false} WorstIsMaximum(scored: seq<Scored>)
    ensures forall s :: s in scored ==> Severity(s) <= Worst(scored)
    ensures scored != [] ==> exists s :: s in scored && Severity(s) == Worst(scored)
  {
    if scored != [] {
      WorstIsMaximum(scored[1..]);
      if Severity(scored[0]) > Worst(scored[1..]) || scored[1..] == [] {
        assert scored[0] in scored;
      } else {
        var s :| s in scored[1..] && Severity(s) == Worst(scored[1..]);
        assert s in scored;
      }
    }
  }

  /** The cascade is a maximum: the verdict of the worst test, which some test has and no
    * test exceeds. */
  lemma CascadeIsMaximum(scored: seq<Scored>)
    requires scored != []
    ensures BucketOf(scored, false) == VerdictAt(Worst(scored))
  {
    WorstIsMaximum(scored);
    var worst :| worst in scored && Severity(worst) == Worst(scored);
  }

  // The table for one test alone, by its status.
  lemma OneTest(s: Scored)
    ensures BucketOf([s], false) ==
            var id := s.result.statusId;
            if id == 3 then (if s.outputMatched then Accepted else WrongAnswer)
            else if id == 4 then WrongAnswer
            else if id == 5 then Tle
            else if id == 6 then CompileError
            else if id in {7, 8, 9, 10, 11, 12} then
              (if LooksLikeSyntaxError(s.result) then CompileError else RuntimeError)
            else InfraError
  {
    CascadeIsMaximum([s]);
    assert [s][1..] == [];
  }

  predicate HasAlone(scored: seq<Scored>, b: Bucket) {
    exists s :: s in scored && BucketOf([s], false) == b
  }

  /** A batch has the verdict some test has alone, in this order: a sandbox that failed or is not done,
    * then the student's errors from the compiler's to a wrong answer, then a status nobody knows. */
  lemma Precedence(scored: seq<Scored>)
    requires scored != []
    ensures BucketOf(scored, false) ==
            if exists s :: s in scored && s.result.statusId in {1, 2, 13, 14} then InfraError
            else if HasAlone(scored, CompileError) then CompileError
            else if HasAlone(scored, RuntimeError) then RuntimeError
            else if HasAlone(scored, Tle) then Tle
            else if HasAlone(scored, WrongAnswer) then WrongAnswer
            else if HasAlone(scored, InfraError) then InfraError
            else Accepted
  {
    hide LooksLikeSyntaxError;
    forall s | s in scored
      ensures BucketOf([s], false) == VerdictAt(Severity(s))
      ensures Severity(s) == 6 <==> s.result.statusId in {1, 2, 13, 14}
    {
      CascadeIsMaximum([s]);
      assert [s][1..] == [];
    }
    CascadeIsMaximum(scored);
    WorstIsMaximum(scored);
    var worst :| worst in scored && Severity(worst) == Worst(scored);
  }

  // Only which tests occur matters: order and repetition do not.
  lemma OnlyTheSetMatters(a: seq<Scored>, b: seq<Scored>, timedOut: bool)
    requires forall s :: s in a <==> s in b
    ensures BucketOf(a, timedOut) == BucketOf(b, timedOut)
  {
    assert a != [] ==> a[0] in a;
    assert b != [] ==> b[0] in b;
    if a != [] && !timedOut {
      CascadeIsMaximum(a);
      CascadeIsMaximum(b);
      WorstIsMaximum(a);
      WorstIsMaximum(b);
    }
  }

  // Adding tests never lowers the severity, and an accepted batch stays accepted exactly
  // when every added test passes too.
  lemma MoreTestsNeverImprove(a: seq<Scored>, more: seq<Scored>)
    requires a != []
    ensures Worst(a) <= Worst(a + more)
    ensures BucketOf(a + more, false) == Accepted
            <==> BucketOf(a, false) == Accepted && forall s :: s in more ==> Severity(s) == 0
  {
    WorstIsMaximum(a);
    WorstIsMaximum(a + more);
    var worst :| worst in a && Severity(worst) == Worst(a);
    assert worst in a + more;
    CascadeIsMaximum(a);
    CascadeIsMaximum(a + more);
    var top :| top in a + more && Severity(top) == Worst(a + more);
    if Worst(a + more) == 0 {
      forall s | s in more ensures Severity(s) == 0 {
        assert s in a + more;
      }
    }
  }

  // Accepted means every test finished normally with matching output, and nothing timed out.
  lemma AcceptedIff(scored: seq<Scored>, timedOut: bool)
    ensures BucketOf(scored, timedOut) == Accepted
            <==> scored != [] && !timedOut && forall s :: s in scored ==> s.result.statusId == 3 && s.outputMatched
  {
    if scored != [] {
      assert scored[0] in scored;
    }
  }

  // ---------------------------------------------------------------- a syntax error

  // Trimming keeps every text that itself holds nothing to trim.
  lemma {:induction false} TrimKeeps(s: string, w: string)
    requires w != "" && w[0] > ' ' && w[|w| - 1] > ' '
    ensures Contains(Trim(s), w) <==> Contains(s, w)
    decreases |s|
  {
    if s != "" && s[0] <= ' ' {
      TrimKeeps(s[1..], w);
      DropsFirst(s, w);
    } else if s != "" && s[|s| - 1] <= ' ' {
      TrimKeeps(s[..|s| - 1], w);
      DropsLast(s, w);
    }
  }

  lemma DropsFirst(s: string, w: string)
    requires s != "" && w != "" && s[0] != w[0]
    ensures Contains(s[1..], w) <==> Contains(s, w)
  {
    if Contains(s[1..], w) {
      Inside(s[..1], s[1..], "", w);
      assert s[..1] + s[1..] + "" == s;
    }
    if i :| 0 <= i <= |s| && At(s, i, w) {
      assert s[i..i + |w|][0] == s[i];
      assert s[1..][i - 1..i - 1 + |w|] == w;
      assert At(s[1..], i - 1, w);
    }
  }

  lemma DropsLast(s: string, w: string)
    requires s != "" && w != "" && s[|s| - 1] != w[|w| - 1]
    ensures Contains(s[..|s| - 1], w) <==> Contains(s, w)
  {
    var front := s[..|s| - 1];
    if Contains(front, w) {
      Inside("", front, s[|s| - 1..], w);
      assert "" + front + s[|s| - 1..] == s;
    }
    if i :| 0 <= i <= |s| && At(s, i, w) {
      assert s[i..i + |w|][|w| - 1] == s[i + |w| - 1];
      assert front[i..i + |w|] == w;
      assert At(front, i, w);
    }
  }

  // A newline between two texts takes part in no occurrence of a word without one.
  lemma AcrossLines(a: string, b: string, w: string)
    requires '\n' !in w && w != ""
    ensures Contains(a + "\n" + b, w) <==> Contains(a, w) || Contains(b, w)
  {
    var s := a + "\n" + b;
    if Contains(a, w) {
      Inside("", a, "\n" + b, w);
      assert "" + a + ("\n" + b) == s;
    }
    if Contains(b, w) {
      Inside(a + "\n", b, "", w);
      assert a + "\n" + b + "" == s;
    }
    if i :| 0 <= i <= |s| && At(s, i, w) {
      assert s[|a|] == '\n';
      forall k | 0 <= k < |w| ensures s[i + k] == w[k] {
        assert s[i..i + |w|][k] == s[i + k];
      }
      if i + |w| <= |a| {
        assert a[i..i + |w|] == w && At(a, i, w);
      } else {
        assert b[i - |a| - 1..i - |a| - 1 + |w|] == w && At(b, i - |a| - 1, w);
      }
    }
  }

  function Part(s: Option<string>): string {
    if s.Some? then s.value else ""
  }

  lemma CombinedHolds(r: Result, w: string)
    requires w != "" && '\n' !in w && w[0] > ' ' && w[|w| - 1] > ' '
    ensures Contains(r.CombinedError(), w) <==> Contains(Part(r.stderr), w) || Contains(Part(r.compileOutput), w)
  {
    var a, b := Part(r.stderr), Part(r.compileOutput);
    TrimKeeps(a + (if a == "" || b == "" then "" else "\n") + b, w);
    AcrossLines(a, b, w);
    assert !Contains("", w);
    assert "" + "" + b == b && a + "" + "" == a;
  }

  /** A runtime error is a syntax error exactly when one of the two error texts names it: neither
    * joining nor trimming them makes or hides one. */
  lemma SyntaxErrorIff(r: Result)
    ensures LooksLikeSyntaxError(r) <==>
            && 7 <= r.statusId <= 12
            && (|| Contains(Part(r.stderr), "SyntaxError") || Contains(Part(r.compileOutput), "SyntaxError")
                || Contains(Part(r.stderr), "IndentationError") || Contains(Part(r.compileOutput), "IndentationError"))
  {
    hide Contains;
    var w, v := "SyntaxError", "IndentationError";
    assert |w| == 11 && w[0] == 'S' && w[10] == 'r' && |v| == 16 && v[0] == 'I' && v[15] == 'r';
    CombinedHolds(r, w);
    CombinedHolds(r, v);
  }
}
