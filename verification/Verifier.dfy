/** The deterministic check every tutor draft passes through before delivery. */
module Verifier {
  import opened Text

  const MAX_WORDS_LOGIC := 120
  const MAX_WORDS_CODE := 160
  const MAX_CODE_BLOCK_LINES := 3
  const CODE_FENCE := "```"

  datatype Misconception = Misconception(id: string, socraticCounter: string)

  datatype Rubric = Rubric(entrypoint: string, misconceptions: seq<Misconception>, forbiddenTerms: seq<string>)

  // One entry of a rejection list; the source keeps the rendered sentence.
  datatype Reason =
    | EmptyDraft
    | HasFence
    | HasCodeLine
    | HasBareReturn
    | HasBareImport
    | AssignsContainer
    | HasInRange
    | HasDotGet
    | NamesTerms(terms: set<string>)
    | TooManyWords(words: nat, limit: nat)
    | DefinesEntry(name: string)
    | LongBlock(lines: nat, limit: nat)

  // ---------------------------------------------------------------- line patterns

  predicate LineStart(s: string, i: int)
    requires 0 <= i <= |s|
  {
    i == 0 || s[i - 1] == '\n'
  }

  predicate LineEnd(s: string, i: int)
    requires 0 <= i <= |s|
  {
    i == |s| || s[i] == '\n'
  }

  predicate WordAt(s: string, i: int) {
    0 <= i < |s| && IsWord(s[i])
  }

  // \b
  predicate Boundary(s: string, i: int) {
    WordAt(s, i - 1) != WordAt(s, i)
  }

  // \s*$ from position i
  predicate BlankToLineEnd(s: string, i: int)
    requires 0 <= i <= |s|
  {
    exists e :: i <= e <= SkipSpaces(s, i) && LineEnd(s, e)
  }

  const BLOCK_KEYWORDS: seq<string> :=
    ["def", "for", "while", "if", "elif", "return", "import", "class"]

  // a keyword at i, and further along its line a colon with nothing after it
  predicate BlockOpens(s: string, i: int, keyword: string) {
    && At(s, i, keyword)
    && !WordAt(s, i + |keyword|)
    && exists k :: i + |keyword| <= k < |s| && s[k] == ':'
                   && '\n' !in s[i + |keyword|..k] && BlankToLineEnd(s, k + 1)
  }

  predicate CodeLineAt(s: string, i: int)
    requires 0 <= i <= |s|
  {
    exists n :: 0 <= n < |BLOCK_KEYWORDS| && BlockOpens(s, SkipSpaces(s, i), BLOCK_KEYWORDS[n])
  }

  predicate BareReturnAt(s: string, i: int)
    requires 0 <= i <= |s|
  {
    var j := SkipSpaces(s, i);
    At(s, j, "return") && var k := SkipSpaces(s, j + 6); k < |s| && s[k] in "[("
  }

  function SkipWord(s: string, i: int): (j: int)
    requires 0 <= i <= |s|
    ensures i <= j <= |s|
    decreases |s| - i
  {
    if WordAt(s, i) then SkipWord(s, i + 1) else i
  }

  predicate BareImportAt(s: string, i: int)
    requires 0 <= i <= |s|
  {
    var j := SkipSpaces(s, i);
    At(s, j, "import") &&
    var k := SkipSpaces(s, j + 6);
    k > j + 6 && WordAt(s, k) && BlankToLineEnd(s, SkipWord(s, k))
  }

  // a multi-line search tries every line start
  predicate HasLineMatch(s: string, at: (string, int) --> bool)
    requires forall i :: 0 <= i <= |s| ==> at.requires(s, i)
  {
    exists i :: 0 <= i <= |s| && LineStart(s, i) && at(s, i)
  }

  predicate ContainerAssignAt(s: string, i: int) {
    WordAt(s, i) &&
    var j := SkipSpaces(s, i + 1);
    At(s, j, "=") &&
    var k := SkipSpaces(s, j + 1);
    At(s, k, "{}") || At(s, k, "[]") || At(s, k, "dict(") || At(s, k, "set(")
  }

  predicate HasContainerAssign(s: string) {
    exists i :: 0 <= i < |s| && ContainerAssignAt(s, i)
  }

  // name[...] followed by an assignment or a comparison
  predicate SubscriptUseAt(s: string, i: int) {
    WordAt(s, i) && At(s, i + 1, "[") &&
    exists j :: i + 2 <= j < |s| && s[j] == ']' && ']' !in s[i + 2..j]
                && var k := SkipSpaces(s, j + 1); k + 1 < |s| && s[k] == '='
  }

  predicate LooksLikeCodeLine(line: string) {
    Strip(line) != "" && (
      || CodeLineAt(line, 0)
      || HasContainerAssign(line)
      || Contains(line, "in range(") || Contains(line, ".get(")
      || exists i :: 0 <= i < |line| && SubscriptUseAt(line, i))
  }

  // ---------------------------------------------------------------- longest code run

  datatype Line = Fence | Blank | Code | Prose

  function Classify(line: string): Line {
    var stripped := Strip(line);
    if CODE_FENCE <= stripped then Fence
    else if stripped == "" then Blank
    else if LooksLikeCodeLine(line) || BareReturnAt(line, 0) || BareImportAt(line, 0) then Code
    else Prose
  }

  function Classes(lines: seq<string>): (ls: seq<Line>)
    ensures |ls| == |lines|
  {
    seq(|lines|, i requires 0 <= i < |lines| => Classify(lines[i]))
  }

  datatype ScanState = ScanState(longest: nat, run: nat, inFence: bool)

  function ScanStep(st: ScanState, line: Line): ScanState {
    var longer := ScanState(Max(st.longest, st.run + 1), st.run + 1, st.inFence);
    if line == Fence then
      if st.inFence then ScanState(Max(st.longest, st.run), 0, false)
      else st.(inFence := true)
    else if st.inFence then
      if line == Blank then st else longer
    else
      if line == Code then longer else st.(run := 0)
  }

  function Max(a: nat, b: nat): nat {
    if a >= b then a else b
  }

  // The scanner after the first n lines.
  function Scan(ls: seq<Line>, n: nat): ScanState
    requires n <= |ls|
  {
    if n == 0 then ScanState(0, 0, false) else ScanStep(Scan(ls, n - 1), ls[n - 1])
  }

  function LongestRun(text: string): nat {
    var ls := Classes(SplitLines(text));
    Scan(ls, |ls|).longest
  }

  /** The scanner as the source runs it: one pass over the lines, three variables. */
  method LongestCodeRun(text: string) returns (longest: nat)
    ensures longest == LongestRun(text)
    ensures forall ls :: ReadsAs(text, ls) ==>
              var classes := Classes(LinesOf(ls));
              && HasSegment(classes, longest)
              && forall i, j :: Unbroken(classes, i, j) ==> CodeCount(classes, i, j) <= longest
  {
    hide LooksLikeCodeLine, BareReturnAt, BareImportAt, Strip, SplitLines, ReadsAs;
    OneReading(text);
    var lines := SplitLines(text);
    ghost var ls := Classes(lines);
    longest := 0;
    var run, inFence := 0, false;
    for n := 0 to |lines|
      invariant ScanState(longest, run, inFence) == Scan(ls, n)
    {
      var line := lines[n];
      var stripped := Strip(line);
      if CODE_FENCE <= stripped {
        inFence := !inFence;
        if !inFence {
          longest := Max(longest, run);
          run := 0;
        }
        continue;
      }
      if inFence {
        if stripped != "" {
          run := run + 1;
          longest := Max(longest, run);
        }
        continue;
      }
      if LooksLikeCodeLine(line) || BareReturnAt(line, 0) || BareImportAt(line, 0) {
        CodeLineNotBlank(line);
        run := run + 1;
        longest := Max(longest, run);
      } else {
        run := 0;
      }
    }
    ScanIsLongestSegment(ls);
  }

  // Whatever reads as code has something on the line.
  lemma CodeLineNotBlank(line: string)
    requires LooksLikeCodeLine(line) || BareReturnAt(line, 0) || BareImportAt(line, 0)
    ensures Strip(line) != ""
  {
    StripShape(line);
    if BareReturnAt(line, 0) || BareImportAt(line, 0) {
      var j := SkipSpaces(line, 0);
      assert j < |line| && !IsSpace(line[j]);
    }
  }

  // The declarative reading: an odd number of fence lines precede line k.
  ghost predicate InFence(ls: seq<Line>, k: nat)
    requires k <= |ls|
  {
    k > 0 && (InFence(ls, k - 1) != ls[k - 1].Fence?)
  }

  // Line k ends a segment: a closing fence, or a non-code line outside a fence.
  ghost predicate Breaks(ls: seq<Line>, k: nat)
    requires k < |ls|
  {
    if ls[k] == Fence then InFence(ls, k) else !InFence(ls, k) && ls[k] != Code
  }

  // Line k counts as code: any non-blank line inside a fence, a code-like one outside.
  ghost predicate CountsAsCode(ls: seq<Line>, k: nat)
    requires k < |ls|
  {
    ls[k] != Fence && if InFence(ls, k) then ls[k] != Blank else ls[k] == Code
  }

  ghost function CodeCount(ls: seq<Line>, i: nat, j: nat): nat
    requires i <= j <= |ls|
  {
    if i == j then 0 else CodeCount(ls, i, j - 1) + if CountsAsCode(ls, j - 1) then 1 else 0
  }

  ghost predicate Unbroken(ls: seq<Line>, i: int, j: int) {
    0 <= i <= j <= |ls| && forall k :: i <= k < j ==> !Breaks(ls, k)
  }

  // The scanner's answer is the code count of some segment, and of none is it exceeded.
  lemma ScanIsLongestSegment(ls: seq<Line>)
    ensures var m := Scan(ls, |ls|).longest;
            && (forall i, j :: Unbroken(ls, i, j) ==> CodeCount(ls, i, j) <= m)
            && exists i, j :: Unbroken(ls, i, j) && CodeCount(ls, i, j) == m
  {
    var start := ScanTracksSegment(ls, |ls|);
  }

  ghost predicate BestUpTo(ls: seq<Line>, n: nat, m: nat) {
    && (forall i, j :: Unbroken(ls, i, j) && j <= n ==> CodeCount(ls, i, j) <= m)
    && exists i, j :: Unbroken(ls, i, j) && j <= n && CodeCount(ls, i, j) == m
  }

  lemma {:induction false} ScanTracksSegment(ls: seq<Line>, n: nat) returns (start: nat)
    requires n <= |ls|
    ensures Scan(ls, n).inFence == InFence(ls, n)
    ensures Unbroken(ls, start, n) && (start == 0 || Breaks(ls, start - 1))
    ensures Scan(ls, n).run == CodeCount(ls, start, n) <= Scan(ls, n).longest
    ensures BestUpTo(ls, n, Scan(ls, n).longest)
  {
    if n == 0 {
      start := 0;
      assert Unbroken(ls, 0, 0) && CodeCount(ls, 0, 0) == 0;
    } else {
      var before := ScanTracksSegment(ls, n - 1);
      var old_, new_ := Scan(ls, n - 1), Scan(ls, n);
      start := if Breaks(ls, n - 1) then n else before;
      assert new_ == ScanStep(old_, ls[n - 1]);
      assert Unbroken(ls, start, n);
      assert new_.longest == Max(old_.longest, CodeCount(ls, start, n));
      BestGrows(ls, n, start, old_.longest);
    }
  }

  // The segments that end at line n are tails of the one that began at start.
  lemma BestGrows(ls: seq<Line>, n: nat, start: nat, m: nat)
    requires 0 < n <= |ls| && BestUpTo(ls, n - 1, m)
    requires Unbroken(ls, start, n) && (start == 0 || Breaks(ls, start - 1))
    ensures BestUpTo(ls, n, Max(m, CodeCount(ls, start, n)))
  {
    forall i | Unbroken(ls, i, n) ensures i >= start && CodeCount(ls, i, n) <= CodeCount(ls, start, n) {
      CountShrinks(ls, start, i, n);
    }
    var i, j :| Unbroken(ls, i, j) && j <= n - 1 && CodeCount(ls, i, j) == m;
  }

  lemma {:induction false} CountShrinks(ls: seq<Line>, i: nat, k: nat, j: nat)
    requires i <= k <= j <= |ls|
    ensures CodeCount(ls, k, j) <= CodeCount(ls, i, j)
    decreases j
  {
    if k < j {
      CountShrinks(ls, i, k, j - 1);
    }
  }

  // Appending lines never lowers the answer.
  lemma {:induction false} AppendingNeverLowers(ls: seq<Line>, more: seq<Line>)
    ensures Scan(ls + more, |ls + more|).longest >= Scan(ls, |ls|).longest
    decreases |more|
  {
    if more == [] {
      assert ls + more == ls;
    } else {
      var fewer := more[..|more| - 1];
      AppendingNeverLowers(ls, fewer);
      assert (ls + more)[..|ls + fewer|] == ls + fewer;
      ScanPrefix(ls + more, |ls + fewer|, |ls + fewer|);
    }
  }

  lemma {:induction false} ScanPrefix(ls: seq<Line>, m: nat, n: nat)
    requires n <= m <= |ls|
    ensures Scan(ls[..m], n) == Scan(ls, n)
  {
    if n > 0 {
      ScanPrefix(ls, m, n - 1);
    }
  }

  // ---------------------------------------------------------------- forbidden terms

  // The term occurs in the text, ignoring case, between two word boundaries.
  predicate OccursAsWord(text: string, term: string) {
    exists i :: 0 <= i <= |text| && OccursAt(text, term, i)
  }

  predicate OccursAt(text: string, term: string, i: int) {
    At(Lower(text), i, Lower(term)) && Boundary(text, i) && Boundary(text, i + |term|)
  }

  predicate NamesTerm(text: string, term: string) {
    Strip(term) != "" && OccursAsWord(text, Strip(term))
  }

  function ForbiddenIn(text: string, terms: seq<string>): (found: seq<string>)
    ensures forall t :: t in found <==> t in terms && NamesTerm(text, t)
  {
    if terms == [] then [] else
      ForbiddenIn(text, terms[..|terms| - 1]) +
      if NamesTerm(text, terms[|terms| - 1]) then [terms[|terms| - 1]] else []
  }

  method FindForbiddenTerms(text: string, terms: seq<string>) returns (found: seq<string>)
    ensures found == ForbiddenIn(text, terms)
    ensures forall t :: t in found <==> t in terms && NamesTerm(text, t)
  {
    found := [];
    for n := 0 to |terms|
      invariant found == ForbiddenIn(text, terms[..n])
    {
      assert terms[..n + 1][..n] == terms[..n];
      var term := terms[n];
      if Strip(term) == "" {
        continue;
      }
      if OccursAsWord(text, Strip(term)) {
        found := found + [term];
      }
    }
    assert terms[..|terms|] == terms;
  }

  predicate WordOnly(term: string) {
    term != "" && forall k :: 0 <= k < |term| ==> IsWord(term[k])
  }

  // A term of word characters is found exactly when it is, up to case, a whole token.
  lemma FoundIffToken(text: string, term: string)
    requires WordOnly(term)
    ensures OccursAsWord(text, term) <==> Lower(term) in Tokens(Lower(text))
  {
    PieceStands(NonWord, Lower(text), Lower(term));
    forall i ensures OccursAt(text, term, i) <==> StandsAt(NonWord, Lower(text), Lower(term), i) {
      if At(Lower(text), i, Lower(term)) {
        OccurrenceStands(text, term, i);
      }
    }
    if OccursAsWord(text, term) {
      var i :| 0 <= i <= |text| && OccursAt(text, term, i);
    }
    if i :| StandsAt(NonWord, Lower(text), Lower(term), i) {
      assert 0 <= i <= |text| && OccursAt(text, term, i);
    }
  }

  lemma OccurrenceStands(text: string, term: string, i: int)
    requires WordOnly(term) && At(Lower(text), i, Lower(term))
    ensures OccursAt(text, term, i) <==> StandsAt(NonWord, Lower(text), Lower(term), i)
  {
    var low, w := Lower(text), Lower(term);
    LowerKeepsWords(text);
    LowerKeepsWords(term);
    assert low[i] == low[i..i + |w|][0] == w[0];
    var last := i + |w| - 1;
    assert low[last] == low[i..i + |w|][|w| - 1] == w[|w| - 1];
    assert IsWord(term[0]) && IsWord(term[|term| - 1]);
    assert Solid(NonWord, w);
  }

  lemma LowerKeepsWords(s: string)
    ensures forall k :: 0 <= k < |s| ==> (IsWord(Lower(s)[k]) <==> IsWord(s[k]))
  {
  }

  // ---------------------------------------------------------------- the two checks

  function Reject(rejections: seq<Reason>, found: bool, reason: Reason): seq<Reason> {
    if found then rejections + [reason] else rejections
  }

  // What in the text reads as code, in the order the source looks for it.
  function CodeSigns(draft: string): seq<Reason> {
    var r := Reject([], Contains(draft, CODE_FENCE), HasFence);
    var r := Reject(r, HasLineMatch(draft, CodeLineAt), HasCodeLine);
    var r := Reject(r, HasLineMatch(draft, BareReturnAt), HasBareReturn);
    var r := Reject(r, HasLineMatch(draft, BareImportAt), HasBareImport);
    var r := Reject(r, HasContainerAssign(draft), AssignsContainer);
    var r := Reject(r, Contains(draft, "in range("), HasInRange);
    Reject(r, Contains(draft, ".get("), HasDotGet)
  }

  function VerifyLogicDraft(draft: string, rubric: Rubric): seq<Reason> {
    if Strip(draft) == "" then [EmptyDraft] else
      var forbidden := ForbiddenIn(draft, rubric.forbiddenTerms);
      var words := |Words(draft)|;
      var r := Reject(CodeSigns(draft), forbidden != [], NamesTerms(set t | t in forbidden));
      Reject(r, words > MAX_WORDS_LOGIC, TooManyWords(words, MAX_WORDS_LOGIC))
  }

  predicate DefinesEntrypoint(text: string, name: string) {
    exists i :: 0 <= i <= |text| && DefinitionAt(text, name, i)
  }

  predicate DefinitionAt(text: string, name: string, i: int) {
    At(text, i, "def") && !WordAt(text, i - 1) &&
    exists j :: i + 4 <= j <= SkipSpaces(text, i + 3) && At(text, j, name) && Boundary(text, j + |name|)
  }

  function VerifyCodeDraft(draft: string, rubric: Rubric): seq<Reason> {
    if Strip(draft) == "" then [EmptyDraft] else
      var run := LongestRun(draft);
      var words := |Words(draft)|;
      var r := Reject([], rubric.entrypoint != "" && DefinesEntrypoint(draft, rubric.entrypoint),
                      DefinesEntry(rubric.entrypoint));
      var r := Reject(r, run > MAX_CODE_BLOCK_LINES, LongBlock(run, MAX_CODE_BLOCK_LINES));
      Reject(r, words > MAX_WORDS_CODE, TooManyWords(words, MAX_WORDS_CODE))
  }

  predicate ShowsCode(draft: string) {
    || Contains(draft, CODE_FENCE) || HasLineMatch(draft, CodeLineAt)
    || HasLineMatch(draft, BareReturnAt) || HasLineMatch(draft, BareImportAt)
    || HasContainerAssign(draft) || Contains(draft, "in range(") || Contains(draft, ".get(")
  }

  lemma NoSigns(draft: string)
    ensures CodeSigns(draft) == [] <==> !ShowsCode(draft)
  {
  }

  ghost predicate FitsLogic(draft: string, rubric: Rubric) {
    && SaysSomething(draft) && !ShowsCode(draft) && |Words(draft)| <= MAX_WORDS_LOGIC
    && forall t :: t in rubric.forbiddenTerms ==> !NamesTerm(draft, t)
  }

  ghost predicate FitsCode(draft: string, rubric: Rubric) {
    && SaysSomething(draft) && |Words(draft)| <= MAX_WORDS_CODE
    && !(rubric.entrypoint != "" && DefinesEntrypoint(draft, rubric.entrypoint))
    && forall ls :: ReadsAs(draft, ls) ==> ShortSegments(Classes(LinesOf(ls)))
  }

  ghost predicate ShortSegments(ls: seq<Line>) {
    forall i, j :: Unbroken(ls, i, j) ==> CodeCount(ls, i, j) <= MAX_CODE_BLOCK_LINES
  }

  /** A logic draft is accepted exactly when it says something, shows no code, is at most 120
    * words long and names no rubric term; a term of word characters is then no token of it. */
  lemma AcceptedLogicDraft(draft: string, rubric: Rubric)
    ensures VerifyLogicDraft(draft, rubric) == [] <==> FitsLogic(draft, rubric)
    ensures VerifyLogicDraft(draft, rubric) == [] ==>
              forall t :: t in rubric.forbiddenTerms && WordOnly(Strip(t)) ==>
                            Lower(Strip(t)) !in Tokens(Lower(draft))
  {
    StripIsBlank(draft);
    NoSigns(draft);
    var found := ForbiddenIn(draft, rubric.forbiddenTerms);
    assert found == [] <==> forall t :: t in rubric.forbiddenTerms ==> !NamesTerm(draft, t) by {
      if found != [] { assert found[0] in found; }
    }
    forall t | t in rubric.forbiddenTerms && WordOnly(Strip(t)) && !NamesTerm(draft, t)
      ensures Lower(Strip(t)) !in Tokens(Lower(draft))
    {
      FoundIffToken(draft, Strip(t));
    }
  }

  /** A code draft is accepted exactly when it says something, does not define the entrypoint, is
    * at most 160 words long and no segment of it holds more than three lines of code. */
  lemma AcceptedCodeDraft(draft: string, rubric: Rubric)
    ensures VerifyCodeDraft(draft, rubric) == [] <==> FitsCode(draft, rubric)
  {
    hide ReadsAs;
    OneReading(draft);
    StripIsBlank(draft);
    ScanIsLongestSegment(Classes(SplitLines(draft)));
  }

  // The limit is per segment: six lines of code pass when prose stands between them, while an
  // opening fence does not separate the two lines before it from the two inside it.
  lemma SegmentsNotDrafts()
    ensures Scan([Code, Code, Code, Prose, Code, Code, Code], 7).longest == 3
    ensures Scan([Code, Code, Fence, Code, Code, Fence], 6).longest == 4
  {
    var a, b := [Code, Code, Code, Prose, Code, Code, Code], [Code, Code, Fence, Code, Code, Fence];
    assert Scan(a, 3) == ScanState(3, 3, false);
    assert Scan(a, 5) == ScanState(3, 1, false);
    assert Scan(b, 3) == ScanState(2, 2, true);
    assert Scan(b, 5) == ScanState(4, 4, true);
  }

  method FindCode(draft: string) returns (rejections: seq<Reason>)
    ensures rejections == CodeSigns(draft)
    ensures rejections == [] <==> !ShowsCode(draft)
  {
    rejections := Reject([], Contains(draft, CODE_FENCE), HasFence);
    rejections := Reject(rejections, HasLineMatch(draft, CodeLineAt), HasCodeLine);
    rejections := Reject(rejections, HasLineMatch(draft, BareReturnAt), HasBareReturn);
    rejections := Reject(rejections, HasLineMatch(draft, BareImportAt), HasBareImport);
    rejections := Reject(rejections, HasContainerAssign(draft), AssignsContainer);
    rejections := Reject(rejections, Contains(draft, "in range("), HasInRange);
    rejections := Reject(rejections, Contains(draft, ".get("), HasDotGet);
    NoSigns(draft);
  }

  /** The checks as the source runs them, one rejection appended after the other: none is left
    * exactly for the drafts that fit. */
  method CheckLogicDraft(draft: string, rubric: Rubric) returns (rejections: seq<Reason>)
    ensures rejections == [] <==> FitsLogic(draft, rubric)
    ensures forall r :: r in rejections && r.NamesTerms? ==>
              forall t :: t in r.terms <==> t in rubric.forbiddenTerms && NamesTerm(draft, t)
    ensures rejections == VerifyLogicDraft(draft, rubric)
  {
    AcceptedLogicDraft(draft, rubric);
    if Strip(draft) == "" {
      return Reject([], true, EmptyDraft);
    }
    rejections := FindCode(draft);
    SignsNameNothing(draft);
    var forbidden := FindForbiddenTerms(draft, rubric.forbiddenTerms);
    rejections := Reject(rejections, forbidden != [], NamesTerms(set t | t in forbidden));
    var words := |Words(draft)|;
    rejections := Reject(rejections, words > MAX_WORDS_LOGIC, TooManyWords(words, MAX_WORDS_LOGIC));
  }

  lemma SignsAreTrue(draft: string)
    ensures var r := CodeSigns(draft);
            && (HasFence in r <==> Contains(draft, "```"))
            && (HasCodeLine in r <==> HasLineMatch(draft, CodeLineAt))
            && (HasBareReturn in r <==> HasLineMatch(draft, BareReturnAt))
            && (HasBareImport in r <==> HasLineMatch(draft, BareImportAt))
            && (AssignsContainer in r <==> HasContainerAssign(draft))
            && (HasInRange in r <==> Contains(draft, "in range("))
            && (HasDotGet in r <==> Contains(draft, ".get("))
            && forall x :: x in r ==> !x.EmptyDraft? && !x.NamesTerms? && !x.TooManyWords?
  {
    hide Reject, Contains, HasLineMatch, HasContainerAssign;
    var r := Reject([], Contains(draft, CODE_FENCE), HasFence);
    RejectAdds([], Contains(draft, CODE_FENCE), HasFence);
    RejectAdds(r, HasLineMatch(draft, CodeLineAt), HasCodeLine);
    r := Reject(r, HasLineMatch(draft, CodeLineAt), HasCodeLine);
    RejectAdds(r, HasLineMatch(draft, BareReturnAt), HasBareReturn);
    r := Reject(r, HasLineMatch(draft, BareReturnAt), HasBareReturn);
    RejectAdds(r, HasLineMatch(draft, BareImportAt), HasBareImport);
    r := Reject(r, HasLineMatch(draft, BareImportAt), HasBareImport);
    RejectAdds(r, HasContainerAssign(draft), AssignsContainer);
    r := Reject(r, HasContainerAssign(draft), AssignsContainer);
    RejectAdds(r, Contains(draft, "in range("), HasInRange);
    r := Reject(r, Contains(draft, "in range("), HasInRange);
    RejectAdds(r, Contains(draft, ".get("), HasDotGet);
  }

  lemma RejectAdds(r: seq<Reason>, found: bool, reason: Reason)
    ensures forall x :: x in Reject(r, found, reason) <==> x in r || (found && x == reason)
  {
  }

  /** Each reason a logic draft is refused for is true of it, and each that is true is given. */
  lemma LogicReasonsAreTrue(draft: string, rubric: Rubric)
    ensures var r := VerifyLogicDraft(draft, rubric);
            && (EmptyDraft in r <==> !SaysSomething(draft))
            && (forall x :: x in CodeSigns(draft) && SaysSomething(draft) ==> x in r)
            && (forall x :: x in r ==>
                  match x
                  case EmptyDraft => true
                  case NamesTerms(ts) => forall t :: t in ts <==> t in rubric.forbiddenTerms && NamesTerm(draft, t)
                  case TooManyWords(n, limit) => n == |Words(draft)| > limit == 120
                  case _ => x in CodeSigns(draft))
            && (SaysSomething(draft) ==>
                  && ((exists t :: t in rubric.forbiddenTerms && NamesTerm(draft, t)) <==>
                        exists x :: x in r && x.NamesTerms?)
                  && (|Words(draft)| > 120 <==> exists x :: x in r && x.TooManyWords?))
  {
    hide CodeSigns, NamesTerm, Strip, Words, Reject;
    StripIsBlank(draft);
    SignsAreTrue(draft);
    if SaysSomething(draft) {
      var found, words := ForbiddenIn(draft, rubric.forbiddenTerms), |Words(draft)|;
      var named, many := NamesTerms(set t | t in found), TooManyWords(words, MAX_WORDS_LOGIC);
      var r := VerifyLogicDraft(draft, rubric);
      RejectAdds(CodeSigns(draft), found != [], named);
      RejectAdds(Reject(CodeSigns(draft), found != [], named), words > MAX_WORDS_LOGIC, many);
      assert found != [] ==> found[0] in found && named in r;
      assert words > 120 ==> many in r;
    }
  }

  lemma CodeReasonsAreTrue(draft: string, rubric: Rubric)
    ensures var r := VerifyCodeDraft(draft, rubric);
            && (EmptyDraft in r <==> !SaysSomething(draft))
            && (SaysSomething(draft) ==>
                  && (forall name :: DefinesEntry(name) in r <==>
                        name == rubric.entrypoint != "" && DefinesEntrypoint(draft, name))
                  && (forall n, limit :: LongBlock(n, limit) in r <==> n == LongestRun(draft) > limit == 3)
                  && (forall n, limit :: TooManyWords(n, limit) in r <==> n == |Words(draft)| > limit == 160))
  {
    hide DefinesEntrypoint, LongestRun, Strip, Words;
    StripIsBlank(draft);
  }

  lemma SignsNameNothing(draft: string)
    ensures forall r :: r in CodeSigns(draft) ==> !r.NamesTerms?
  {
  }

  ghost predicate HasSegment(ls: seq<Line>, n: nat) {
    exists i, j :: Unbroken(ls, i, j) && CodeCount(ls, i, j) == n
  }

  lemma LongestHasSegment(text: string)
    ensures forall ls :: ReadsAs(text, ls) ==> HasSegment(Classes(LinesOf(ls)), LongestRun(text))
  {
    hide ReadsAs;
    OneReading(text);
    ScanIsLongestSegment(Classes(SplitLines(text)));
  }

  method CheckCodeDraft(draft: string, rubric: Rubric) returns (rejections: seq<Reason>)
    ensures rejections == [] <==> FitsCode(draft, rubric)
    ensures forall r, ls :: r in rejections && r.LongBlock? && ReadsAs(draft, ls) ==>
              r.lines > MAX_CODE_BLOCK_LINES && HasSegment(Classes(LinesOf(ls)), r.lines)
    ensures HandsOverCode(draft) ==> rejections != []
    ensures rejections == VerifyCodeDraft(draft, rubric)
  {
    hide FitsCode, HasSegment, DefinesEntrypoint, Strip, HandsOverCode;
    AcceptedCodeDraft(draft, rubric);
    HandedOverIsRefused(draft, rubric);
    LongestHasSegment(draft);
    rejections := [];
    if Strip(draft) == "" {
      return Reject(rejections, true, EmptyDraft);
    }
    var defines := rubric.entrypoint != "" && DefinesEntrypoint(draft, rubric.entrypoint);
    rejections := Reject(rejections, defines, DefinesEntry(rubric.entrypoint));
    var run := LongestCodeRun(draft);
    rejections := Reject(rejections, run > MAX_CODE_BLOCK_LINES, LongBlock(run, MAX_CODE_BLOCK_LINES));
    var words := |Words(draft)|;
    rejections := Reject(rejections, words > MAX_WORDS_CODE, TooManyWords(words, MAX_WORDS_CODE));
  }

  // ---------------------------------------------------------------- refused on its characters

  // Lines of a text that are joined by newlines and say something.
  ghost predicate Lines(body: seq<string>) {
    forall l :: l in body ==> Solid(LineBreak, l) && SaysSomething(l)
  }

  // The text opens its first fence and has these lines after it, before any other.
  ghost predicate OpensWith(text: string, before: string, gap: string, tag: string, body: seq<string>, after: string) {
    && text == before + (gap + CODE_FENCE + tag + "\n") + (Join("\n", body) + after)
    && WholeLines(before) && !Contains(before, CODE_FENCE)
    && Solid(LineBreak, gap) && Strip(gap) == "" && Solid(LineBreak, tag)
    && Lines(body) && (forall l :: l in body ==> !Contains(l, CODE_FENCE))
    && EndsLine(after)
  }

  // The text has these lines of code somewhere.
  ghost predicate ShowsLines(text: string, before: string, body: seq<string>, after: string) {
    && text == before + (Join("\n", body) + after)
    && WholeLines(before)
    && (forall l :: l in body ==> Solid(LineBreak, l) && Classify(l) == Code)
    && EndsLine(after)
  }

  predicate WholeLines(before: string) {
    before == "" || before[|before| - 1] == '\n'
  }

  predicate EndsLine(after: string) {
    after == "" || IsLineBreak(after[0])
  }

  // More lines of code than the limit, in a fence or not; or of anything inside the first fence.
  ghost predicate HandsOverCode(text: string) {
    || (exists before, body, after :: ShowsLines(text, before, body, after) && |body| > MAX_CODE_BLOCK_LINES)
    || (exists before, gap, tag, body, after ::
          OpensWith(text, before, gap, tag, body, after) && |body| > MAX_CODE_BLOCK_LINES)
  }

  lemma {:induction false} CountAll(ls: seq<Line>, i: nat, j: nat)
    requires i <= j <= |ls| && forall k :: i <= k < j ==> CountsAsCode(ls, k)
    ensures CodeCount(ls, i, j) == j - i && Unbroken(ls, i, j)
    decreases j
  {
    if i < j {
      CountAll(ls, i, j - 1);
    }
  }

  lemma RunIsRefused(draft: string, rubric: Rubric, i: nat, j: nat)
    requires i + MAX_CODE_BLOCK_LINES < j <= |SplitLines(draft)|
    requires forall k :: i <= k < j ==> CountsAsCode(Classes(SplitLines(draft)), k)
    ensures VerifyCodeDraft(draft, rubric) != []
  {
    hide SplitLines, DefinesEntrypoint;
    var ls := Classes(SplitLines(draft));
    CountAll(ls, i, j);
    ScanIsLongestSegment(ls);
  }

  /** A draft that shows more than three lines of code in a row is refused, wherever they stand and
    * whatever fences are around them. */
  lemma LinesAreRefused(draft: string, before: string, body: seq<string>, after: string, rubric: Rubric)
    requires ShowsLines(draft, before, body, after) && |body| > MAX_CODE_BLOCK_LINES
    ensures VerifyCodeDraft(draft, rubric) != []
  {
    hide VerifyCodeDraft, SplitLines, Classify;
    var i := |SplitLines(before)|;
    forall l | l in body ensures l != "" {
      CodeIsNotEmpty(l);
    }
    assert forall k :: 0 <= k < |body| ==> body[k] in body;
    SplitAfterNewline(before, Join("\n", body) + after);
    JoinedLinesLead(body, after);
    var lines := SplitLines(draft);
    assert forall k :: 0 <= k < |body| ==> lines[i + k] == body[k];
    forall k | i <= k < i + |body| ensures CountsAsCode(Classes(lines), k) {
      assert lines[k] == body[k - i];
    }
    RunIsRefused(draft, rubric, i, i + |body|);
  }

  lemma CodeIsNotEmpty(l: string)
    requires Classify(l) == Code
    ensures l != ""
  {
    StripShape(l);
  }

  /** A draft whose first fence holds more than three non-blank lines in a row from its opening on is
    * refused, whatever they are. */
  lemma BlockIsRefused(draft: string, before: string, gap: string, tag: string, body: seq<string>,
                       after: string, rubric: Rubric)
    requires OpensWith(draft, before, gap, tag, body, after) && |body| > MAX_CODE_BLOCK_LINES
    ensures VerifyCodeDraft(draft, rubric) != []
  {
    hide VerifyCodeDraft, SplitLines, Contains, SaysSomething, OpensWith, InFence;
    var i, lines := |SplitLines(before)|, SplitLines(draft);
    BlockLines(draft, before, gap, tag, body, after);
    OutsideBefore(before);
    assert Classes(SplitLines(before)) == Classes(lines)[..i];
    StaysInFence(Classes(SplitLines(before)), Classes(lines), i + 1 + |body|);
    RunIsRefused(draft, rubric, i + 1, i + 1 + |body|);
  }

  // The lines of such a text: those before, the fence, and the block.
  lemma BlockLines(draft: string, before: string, gap: string, tag: string, body: seq<string>, after: string)
    requires OpensWith(draft, before, gap, tag, body, after)
    ensures !Contains(before, CODE_FENCE)
    ensures var lines, i := SplitLines(draft), |SplitLines(before)|;
            && i + 1 + |body| <= |lines| && lines[..i] == SplitLines(before) && Classify(lines[i]) == Fence
            && forall k :: i < k < i + 1 + |body| ==> Classify(lines[k]) != Fence && Classify(lines[k]) != Blank
  {
    hide SplitLines, Classify, Contains, SaysSomething;
    var fence, block := gap + CODE_FENCE + tag, Join("\n", body) + after;
    var i, lines := |SplitLines(before)|, SplitLines(draft);
    forall l | l in body ensures l != "" && Classify(l) != Fence && Classify(l) != Blank {
      BlockLine(l);
    }
    FenceLine(gap, tag);
    assert forall k :: 0 <= k < |body| ==> body[k] in body;
    SplitAfterNewline(before, fence + "\n" + block);
    assert draft == before + (fence + "\n" + block);
    LineThen(fence, "\n", block);
    JoinedLinesLead(body, after);
    LinesFollow(SplitLines(before), fence, body, SplitLines(block), lines);
  }

  lemma LinesFollow(before: seq<string>, fence: string, body: seq<string>, block: seq<string>, lines: seq<string>)
    requires lines == before + ([fence] + block) && body <= block
    ensures |before| + 1 + |body| <= |lines| && lines[..|before|] == before && lines[|before|] == fence
    ensures forall k :: |before| < k < |before| + 1 + |body| ==> lines[k] == body[k - |before| - 1]
  {
  }

  lemma BlockLine(l: string)
    requires SaysSomething(l) && !Contains(l, CODE_FENCE)
    ensures l != "" && Classify(l) != Fence && Classify(l) != Blank
  {
    StripIsBlank(l);
    NoFenceLine(l);
  }

  lemma FenceLine(gap: string, tag: string)
    requires Solid(LineBreak, gap) && Strip(gap) == "" && Solid(LineBreak, tag)
    ensures Classify(gap + CODE_FENCE + tag) == Fence
    ensures Solid(LineBreak, gap + CODE_FENCE + tag)
  {
    hide LooksLikeCodeLine, BareReturnAt, BareImportAt, DropLeading, DropTrailing, Splits;
    FenceStartsStripped(gap, tag);
    SolidFence(tag);
    SolidJoin(gap, CODE_FENCE + tag);
    assert gap + CODE_FENCE + tag == gap + (CODE_FENCE + tag);
  }

  lemma FenceStartsStripped(gap: string, tag: string)
    requires Strip(gap) == ""
    ensures CODE_FENCE <= Strip(gap + (CODE_FENCE + tag))
  {
    StripIsBlank(gap);
    DropGap(Space, gap, CODE_FENCE + tag);
    StripKeepsFence(tag);
  }

  lemma SolidFence(tag: string)
    requires Solid(LineBreak, tag)
    ensures Solid(LineBreak, CODE_FENCE + tag)
  {
    assert forall k :: 0 <= k < 3 ==> CODE_FENCE[k] == '`';
  }

  lemma SolidJoin(a: string, b: string)
    requires Solid(LineBreak, a) && Solid(LineBreak, b)
    ensures Solid(LineBreak, a + b)
  {
  }

  lemma StripKeepsFence(tag: string)
    ensures var t := CODE_FENCE + tag; DropLeading(Space, t) == t && CODE_FENCE <= DropTrailing(t)
  {
    var t := CODE_FENCE + tag;
    assert t[0] == t[1] == t[2] == '`';
  }

  // A line that starts with a fence has its characters somewhere.
  lemma NoFenceLine(l: string)
    requires !Contains(l, CODE_FENCE)
    ensures Classify(l) != Fence
  {
    if Classify(l) == Fence {
      DropLeadingShape(Space, l);
      var t := DropLeading(Space, l);
      assert t[..3] == CODE_FENCE;
      assert At(l, |l| - |t|, CODE_FENCE);
    }
  }

  lemma {:induction false} LineIsInText(ls: seq<Ended>, k: nat, w: string)
    requires k < |ls| && Contains(ls[k].line, w)
    ensures Contains(Glue(ls), w)
  {
    if k == 0 {
      Inside("", ls[0].line, ls[0].end + Glue(ls[1..]), w);
      assert "" + ls[0].line + (ls[0].end + Glue(ls[1..])) == Glue(ls);
    } else {
      LineIsInText(ls[1..], k - 1, w);
      Inside(ls[0].line + ls[0].end, Glue(ls[1..]), "", w);
      assert ls[0].line + ls[0].end + Glue(ls[1..]) + "" == Glue(ls);
    }
  }

  lemma OutsideBefore(before: string)
    requires !Contains(before, CODE_FENCE)
    ensures !InFence(Classes(SplitLines(before)), |SplitLines(before)|)
  {
    hide Contains, SplitLines, Classify;
    OneReading(before);
    var ls: seq<Ended> :| ReadsAs(before, ls);
    forall k | 0 <= k < |ls| ensures Classify(ls[k].line) != Fence {
      if Contains(ls[k].line, CODE_FENCE) {
        LineIsInText(ls, k, CODE_FENCE);
      } else {
        NoFenceLine(ls[k].line);
      }
    }
    NeverInFence(Classes(SplitLines(before)), |ls|);
  }

  lemma {:induction false} NeverInFence(ls: seq<Line>, n: nat)
    requires n <= |ls| && forall k :: 0 <= k < n ==> ls[k] != Fence
    ensures !InFence(ls, n)
  {
    if n > 0 {
      NeverInFence(ls, n - 1);
    }
  }

  // Lines outside every fence, an opening one, and no other up to line n.
  lemma {:induction false} StaysInFence(outer: seq<Line>, ls: seq<Line>, n: nat)
    requires |outer| < n <= |ls| && outer == ls[..|outer|] && !InFence(outer, |outer|)
    requires ls[|outer|] == Fence && forall k :: |outer| < k < n ==> ls[k] != Fence
    ensures forall k :: |outer| < k <= n ==> InFence(ls, k)
    decreases n
  {
    if n == |outer| + 1 {
      FenceOfPrefix(outer, ls, |outer|);
    } else {
      StaysInFence(outer, ls, n - 1);
    }
  }

  lemma {:induction false} FenceOfPrefix(outer: seq<Line>, ls: seq<Line>, k: nat)
    requires k <= |outer| <= |ls| && outer == ls[..|outer|]
    ensures InFence(outer, k) == InFence(ls, k)
  {
    if k > 0 {
      FenceOfPrefix(outer, ls, k - 1);
    }
  }

  lemma HandedOverIsRefused(draft: string, rubric: Rubric)
    ensures HandsOverCode(draft) ==> VerifyCodeDraft(draft, rubric) != []
  {
    hide VerifyCodeDraft, ShowsLines, OpensWith;
    if exists before, body, after :: ShowsLines(draft, before, body, after) && |body| > MAX_CODE_BLOCK_LINES {
      var before, body, after :| ShowsLines(draft, before, body, after) && |body| > MAX_CODE_BLOCK_LINES;
      LinesAreRefused(draft, before, body, after, rubric);
    } else if HandsOverCode(draft) {
      var before, gap, tag, body, after :|
        OpensWith(draft, before, gap, tag, body, after) && |body| > MAX_CODE_BLOCK_LINES;
      BlockIsRefused(draft, before, gap, tag, body, after, rubric);
    }
  }

  // ---------------------------------------------------------------- fallbacks

  const GENERIC_LOGIC_FALLBACK := "Walk me through what " + "happens on a small " + "example, step by step."
  const GENERIC_CODE_FALLBACK := "Run your function by hand " + "on the first failing public "
                                 + "example and compare each " + "step with your logic."

  function CounterFor(ms: seq<Misconception>, id: string): Option<string> {
    if ms == [] then None
    else if ms[0].id == id && ms[0].socraticCounter != "" then Some(ms[0].socraticCounter)
    else CounterFor(ms[1..], id)
  }

  function LogicFallback(rubric: Rubric, misconception: Option<string>): string {
    if misconception.Some? && misconception.value != "" then
      match CounterFor(rubric.misconceptions, misconception.value)
      case Some(counter) => counter
      case None => GENERIC_LOGIC_FALLBACK
    else GENERIC_LOGIC_FALLBACK
  }

  // The reply is the generic text or a non-empty counter the rubric lists.
  lemma {:induction false} CounterIsListed(ms: seq<Misconception>, id: string)
    ensures CounterFor(ms, id).Some? ==>
              var counter := CounterFor(ms, id).value;
              counter != "" && exists m :: m in ms && m.id == id && m.socraticCounter == counter
    ensures CounterFor(ms, id).None? ==> forall m :: m in ms && m.id == id ==> m.socraticCounter == ""
  {
    if ms != [] && !(ms[0].id == id && ms[0].socraticCounter != "") {
      CounterIsListed(ms[1..], id);
    }
  }

  // The first misconception of this id that has a counter.
  ghost predicate FirstCounter(ms: seq<Misconception>, id: string, k: int) {
    && 0 <= k < |ms| && ms[k].id == id && ms[k].socraticCounter != ""
    && forall n :: 0 <= n < k ==> !(ms[n].id == id && ms[n].socraticCounter != "")
  }

  lemma {:induction false} CounterIsFirst(ms: seq<Misconception>, id: string, k: int)
    requires FirstCounter(ms, id, k)
    ensures CounterFor(ms, id) == Some(ms[k].socraticCounter)
    decreases k
  {
    if k > 0 {
      assert !(ms[0].id == id && ms[0].socraticCounter != "");
      forall n | 0 <= n < k - 1 ensures !(ms[1..][n].id == id && ms[1..][n].socraticCounter != "") {
        assert ms[1..][n] == ms[n + 1];
      }
      CounterIsFirst(ms[1..], id, k - 1);
    }
  }

  /** The canned reply is the first counter the rubric lists for the diagnosed misconception, and the
    * generic one exactly when there is no diagnosis or no counter for it. */
  lemma FallbackIs(rubric: Rubric, misconception: Option<string>)
    ensures misconception.None? || misconception == Some("") ==>
              LogicFallback(rubric, misconception) == GENERIC_LOGIC_FALLBACK
    ensures misconception.Some? && misconception.value != "" ==>
              && (forall k :: FirstCounter(rubric.misconceptions, misconception.value, k) ==>
                    LogicFallback(rubric, misconception) == rubric.misconceptions[k].socraticCounter)
              && ((forall m :: m in rubric.misconceptions ==>
                     m.id == misconception.value ==> m.socraticCounter == "") ==>
                    LogicFallback(rubric, misconception) == GENERIC_LOGIC_FALLBACK)
  {
    if misconception.Some? && misconception.value != "" {
      var ms, id := rubric.misconceptions, misconception.value;
      CounterIsListed(ms, id);
      forall k | FirstCounter(ms, id, k)
        ensures LogicFallback(rubric, misconception) == ms[k].socraticCounter
      {
        CounterIsFirst(ms, id, k);
      }
    }
  }

  // ---------------------------------------------------------------- the generic replies

  // Characters without which nothing in a text reads as code.
  predicate Quiet(c: char) {
    c != '`' && c != ':' && c != '(' && c != '[' && c != '=' && c != '\n'
  }

  predicate AllQuiet(s: string) {
    forall k :: 0 <= k < |s| ==> Quiet(s[k])
  }

  lemma NeedsCharacter(s: string, w: string, k: nat)
    requires AllQuiet(s) && k < |w| && !Quiet(w[k])
    ensures forall i :: !At(s, i, w)
  {
    forall i ensures !At(s, i, w) {
      if 0 <= i && i + |w| <= |s| {
        assert s[i..i + |w|][k] == s[i + k];
      }
    }
  }

  lemma StartsOtherwise(s: string, w: string)
    requires s != "" && w != "" && s[0] != w[0]
    ensures !At(s, 0, w)
  {
    if |w| <= |s| {
      assert s[0..|w|][0] == s[0];
    }
  }

  lemma QuietShowsNoCode(s: string)
    requires AllQuiet(s) && s != "" && !IsSpace(s[0]) && s[0] != 'i'
    ensures !ShowsCode(s)
  {
    NeedsCharacter(s, CODE_FENCE, 0);
    NeedsCharacter(s, "=", 0);
    NeedsCharacter(s, "in range(", 8);
    NeedsCharacter(s, ".get(", 4);
    StartsOtherwise(s, "import");
    assert forall i :: 0 <= i <= |s| && LineStart(s, i) ==> i == 0;
    assert !CodeLineAt(s, 0) && !BareReturnAt(s, 0) && !BareImportAt(s, 0);
    assert forall i :: 0 <= i < |s| ==> !ContainerAssignAt(s, i);
  }

  // Every word but the last is followed by a space.
  lemma {:induction false} WordsAreFew(s: string)
    ensures 2 * |Words(s)| <= |s| + (if s != "" && !IsSpace(s[0]) then 1 else 0)
    decreases |s|
  {
    var d, h := FirstPieceOf(Space, s);
    if h != [] {
      var rest := s[d + |h|..];
      WordsAreFew(rest);
      assert rest != "" ==> rest[0] == s[d + |h|];
    }
  }

  lemma GenericLogicReplyIsQuiet()
    ensures AllQuiet(GENERIC_LOGIC_FALLBACK)
  {
    assert AllQuiet("Walk me through what ");
    assert AllQuiet("happens on a small ");
    assert AllQuiet("example, step by step.");
  }

  /** The generic logic reply passes the check of exactly the rubrics that name no word of it. */
  lemma GenericLogicReply(rubric: Rubric)
    ensures VerifyLogicDraft(GENERIC_LOGIC_FALLBACK, rubric) == [] <==>
            forall t :: t in rubric.forbiddenTerms ==> !NamesTerm(GENERIC_LOGIC_FALLBACK, t)
  {
    var text := GENERIC_LOGIC_FALLBACK;
    GenericLogicReplyIsQuiet();
    QuietShowsNoCode(text);
    WordsAreFew(text);
    assert !IsSpace(text[0]);
    AcceptedLogicDraft(text, rubric);
  }

  // No line ends at k, and no d there is followed by an e.
  predicate PlainAt(s: string, k: int) {
    0 <= k < |s| && !IsLineBreak(s[k]) && (s[k] == 'd' ==> k + 1 < |s| && s[k + 1] != 'e')
  }

  predicate PlainLine(s: string) {
    forall k :: 0 <= k < |s| ==> PlainAt(s, k)
  }

  lemma PlainJoin(a: string, b: string)
    requires PlainLine(a) && PlainLine(b)
    ensures PlainLine(a + b)
  {
    forall k | 0 <= k < |a + b| ensures PlainAt(a + b, k) {
      assert if k < |a| then PlainAt(a, k) else PlainAt(b, k - |a|);
    }
  }

  lemma FirstQuarterIsPlain()
    ensures PlainLine("Run your function by hand ")
  {
  }

  lemma SecondQuarterIsPlain()
    ensures PlainLine("on the first failing public ")
  {
  }

  lemma SecondHalfIsPlain()
    ensures PlainLine("example and compare each ")
    ensures PlainLine("step with your logic.")
  {
  }

  lemma GenericCodeReplyIsPlain()
    ensures PlainLine(GENERIC_CODE_FALLBACK)
  {
    hide PlainLine;
    var a, b := "Run your function by hand ", "on the first failing public ";
    var c, d := "example and compare each ", "step with your logic.";
    FirstQuarterIsPlain();
    SecondQuarterIsPlain();
    SecondHalfIsPlain();
    PlainJoin(a, b);
    PlainJoin(a + b, c);
    PlainJoin(a + b + c, d);
  }

  lemma PlainDefinesNothing(s: string, i: int)
    requires PlainLine(s)
    ensures !At(s, i, "def")
  {
    if 0 <= i && i + 3 <= |s| {
      var w := s[i..i + 3];
      assert PlainAt(s, i) && w[0] == s[i] && w[1] == s[i + 1];
    }
  }

  lemma {:induction false} ScanIsShort(ls: seq<Line>, n: nat)
    requires n <= |ls|
    ensures Scan(ls, n).run <= n && Scan(ls, n).longest <= n
  {
    if n > 0 {
      ScanIsShort(ls, n - 1);
    }
  }

  lemma OneLine(s: string)
    requires forall k :: 0 <= k < |s| ==> !IsLineBreak(s[k])
    ensures LongestRun(s) <= 1
  {
    if s != [] {
      HeadIs(LineBreak, s, "");
      assert s + "" == s;
      assert s[|s|..] == [];
      assert SplitLines(s) == [s];
    }
    ScanIsShort(Classes(SplitLines(s)), |SplitLines(s)|);
  }

  lemma PlainTextPasses(text: string, rubric: Rubric)
    requires PlainLine(text) && 0 < |text| <= MAX_WORDS_CODE && !IsSpace(text[0])
    ensures VerifyCodeDraft(text, rubric) == []
  {
    forall i ensures !At(text, i, "def") {
      PlainDefinesNothing(text, i);
    }
    forall k | 0 <= k < |text| ensures !IsLineBreak(text[k]) {
      assert PlainAt(text, k);
    }
    OneLine(text);
    WordsAreFew(text);
    StripIsBlank(text);
  }

  /** The generic code reply passes the check of every rubric. */
  lemma GenericCodeReply(rubric: Rubric)
    ensures VerifyCodeDraft(GENERIC_CODE_FALLBACK, rubric) == []
  {
    hide PlainLine, VerifyCodeDraft;
    GenericCodeReplyIsPlain();
    PlainTextPasses(GENERIC_CODE_FALLBACK, rubric);
  }
}
