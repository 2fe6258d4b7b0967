/** What the verifier's line patterns match, said of positions in the text: for each of them, the
  * scan that skips white space as far as it goes finds a match exactly when there is one. */
module LinePatterns {
  import opened Text
  import opened Verifier

  // \s* from i to j
  ghost predicate Spaces(s: string, i: int, j: int) {
    0 <= i <= j <= |s| && forall m :: i <= m < j ==> IsSpace(s[m])
  }

  // \s*$ from i
  ghost predicate BlankTail(s: string, i: int) {
    exists e :: Spaces(s, i, e) && (e == |s| || s[e] == '\n')
  }

  lemma SkipsTo(s: string, i: int, j: int)
    requires Spaces(s, i, j) && j < |s| && !IsSpace(s[j])
    ensures SkipSpaces(s, i) == j
  {
    var k := SkipSpaces(s, i);
  }

  lemma SpacesEnd(s: string, i: int, e: int)
    requires Spaces(s, i, e)
    ensures e <= SkipSpaces(s, i)
  {
    var k := SkipSpaces(s, i);
  }

  lemma BlankTailIff(s: string, i: int)
    requires 0 <= i <= |s|
    ensures BlankToLineEnd(s, i) <==> BlankTail(s, i)
  {
    var k := SkipSpaces(s, i);
    forall e | i <= e <= k ensures Spaces(s, i, e) {
    }
    if e :| Spaces(s, i, e) && (e == |s| || s[e] == '\n') {
      SpacesEnd(s, i, e);
      assert LineEnd(s, e);
    }
  }

  lemma StartsSolid(s: string, j: int, w: string)
    requires At(s, j, w) && w != "" && !IsSpace(w[0])
    ensures j < |s| && !IsSpace(s[j])
  {
    assert s[j..j + |w|][0] == s[j];
  }

  // ---------------------------------------------------------------- ^\s*(def|for|...)\b.*:\s*$

  ghost predicate BlockLine(s: string, i: int, j: int, w: string, k: int) {
    && Spaces(s, i, j) && w in ["def", "for", "while", "if", "elif", "return", "import", "class"]
    && At(s, j, w) && !WordAt(s, j + |w|)
    && j + |w| <= k < |s| && s[k] == ':' && '\n' !in s[j + |w|..k] && BlankTail(s, k + 1)
  }

  lemma CodeLineIff(s: string, i: int)
    requires 0 <= i <= |s|
    ensures CodeLineAt(s, i) <==> exists j, w, k :: BlockLine(s, i, j, w, k)
  {
    hide BlockLine, BlockOpens;
    if n :| 0 <= n < |BLOCK_KEYWORDS| && BlockOpens(s, SkipSpaces(s, i), BLOCK_KEYWORDS[n]) {
      OpensAt(s, i, n);
    }
    if j, w, k :| BlockLine(s, i, j, w, k) {
      LineOpens(s, i, j, w, k);
    }
  }

  lemma OpensAt(s: string, i: int, n: int)
    requires 0 <= i <= |s| && 0 <= n < |BLOCK_KEYWORDS| && BlockOpens(s, SkipSpaces(s, i), BLOCK_KEYWORDS[n])
    ensures exists k :: BlockLine(s, i, SkipSpaces(s, i), BLOCK_KEYWORDS[n], k)
  {
    hide BlankToLineEnd, BlankTail, WordAt, At;
    var j, w := SkipSpaces(s, i), BLOCK_KEYWORDS[n];
    var k :| j + |w| <= k < |s| && s[k] == ':' && '\n' !in s[j + |w|..k] && BlankToLineEnd(s, k + 1);
    BlankTailIff(s, k + 1);
    assert BlockLine(s, i, j, w, k);
  }

  lemma LineOpens(s: string, i: int, j: int, w: string, k: int)
    requires 0 <= i <= |s| && BlockLine(s, i, j, w, k)
    ensures exists n :: 0 <= n < |BLOCK_KEYWORDS| && BlockOpens(s, SkipSpaces(s, i), BLOCK_KEYWORDS[n])
  {
    hide BlankToLineEnd, BlankTail, WordAt;
    var n :| 0 <= n < |BLOCK_KEYWORDS| && BLOCK_KEYWORDS[n] == w;
    StartsSolid(s, j, w);
    SkipsTo(s, i, j);
    BlankTailIff(s, k + 1);
  }

  // ---------------------------------------------------------------- ^\s*return\s*[\[\(]

  ghost predicate ReturnLine(s: string, i: int, j: int, k: int) {
    Spaces(s, i, j) && At(s, j, "return") && Spaces(s, j + 6, k) && k < |s| && (s[k] == '[' || s[k] == '(')
  }

  lemma BareReturnIff(s: string, i: int)
    requires 0 <= i <= |s|
    ensures BareReturnAt(s, i) <==> exists j, k :: ReturnLine(s, i, j, k)
  {
    if BareReturnAt(s, i) {
      var j := SkipSpaces(s, i);
      assert ReturnLine(s, i, j, SkipSpaces(s, j + 6));
    }
    if j, k :| ReturnLine(s, i, j, k) {
      StartsSolid(s, j, "return");
      SkipsTo(s, i, j);
      SkipsTo(s, j + 6, k);
    }
  }

  // ---------------------------------------------------------------- ^\s*import\s+\w+\s*$

  ghost predicate ImportLine(s: string, i: int, j: int, k: int, m: int) {
    && Spaces(s, i, j) && At(s, j, "import") && Spaces(s, j + 6, k) && j + 6 < k < m
    && m <= |s| && (forall q :: k <= q < m ==> IsWord(s[q])) && BlankTail(s, m)
  }

  lemma {:induction false} SkipsWord(s: string, k: int, m: int)
    requires 0 <= k <= m <= |s| && (forall q :: k <= q < m ==> IsWord(s[q])) && !WordAt(s, m)
    ensures SkipWord(s, k) == m
    decreases m - k
  {
    if k < m {
      SkipsWord(s, k + 1, m);
    }
  }

  lemma {:induction false} WordSkipped(s: string, k: int)
    requires 0 <= k <= |s|
    ensures var m := SkipWord(s, k); (forall q :: k <= q < m ==> IsWord(s[q])) && !WordAt(s, m)
    decreases |s| - k
  {
    if WordAt(s, k) {
      WordSkipped(s, k + 1);
    }
  }

  lemma BareImportIff(s: string, i: int)
    requires 0 <= i <= |s|
    ensures BareImportAt(s, i) <==> exists j, k, m :: ImportLine(s, i, j, k, m)
  {
    hide BlankToLineEnd;
    if BareImportAt(s, i) {
      var j := SkipSpaces(s, i);
      var k := SkipSpaces(s, j + 6);
      WordSkipped(s, k);
      BlankTailIff(s, SkipWord(s, k));
      assert ImportLine(s, i, j, k, SkipWord(s, k));
    }
    if j, k, m :| ImportLine(s, i, j, k, m) {
      StartsSolid(s, j, "import");
      SkipsTo(s, i, j);
      assert IsWord(s[k]) && !IsSpace(s[k]);
      SkipsTo(s, j + 6, k);
      EndsNoWord(s, m);
      SkipsWord(s, k, m);
      BlankTailIff(s, m);
    }
  }

  lemma EndsNoWord(s: string, m: int)
    requires BlankTail(s, m)
    ensures !WordAt(s, m)
  {
    var e :| Spaces(s, m, e) && (e == |s| || s[e] == '\n');
    assert m < e ==> IsSpace(s[m]);
  }

  // ---------------------------------------------------------------- \w+\s*=\s*(\{\}|\[\]|dict\(|set\()

  ghost predicate AssignAt(s: string, i: int, j: int, k: int) {
    && WordAt(s, i) && Spaces(s, i + 1, j) && j < |s| && s[j] == '=' && Spaces(s, j + 1, k)
    && (At(s, k, "{}") || At(s, k, "[]") || At(s, k, "dict(") || At(s, k, "set("))
  }

  lemma EqualsAt(s: string, j: int)
    requires 0 <= j
    ensures At(s, j, "=") <==> j < |s| && s[j] == '='
  {
    if j < |s| && s[j] == '=' {
      assert s[j..j + 1] == "=";
    }
    if At(s, j, "=") {
      assert s[j..j + 1][0] == s[j];
    }
  }

  lemma ContainerAssignIff(s: string)
    ensures HasContainerAssign(s) <==> exists i, j, k :: AssignAt(s, i, j, k)
  {
    hide ContainerAssignAt, AssignAt;
    if i :| 0 <= i < |s| && ContainerAssignAt(s, i) {
      AssignIsMatch(s, i);
    }
    if i, j, k :| AssignAt(s, i, j, k) {
      MatchIsAssign(s, i, j, k);
    }
  }

  lemma AssignIsMatch(s: string, i: int)
    requires ContainerAssignAt(s, i)
    ensures exists j, k :: AssignAt(s, i, j, k)
  {
    hide At, IsWord;
    var j := SkipSpaces(s, i + 1);
    EqualsAt(s, j);
    assert AssignAt(s, i, j, SkipSpaces(s, j + 1));
  }

  lemma MatchIsAssign(s: string, i: int, j: int, k: int)
    requires AssignAt(s, i, j, k)
    ensures 0 <= i < |s| && ContainerAssignAt(s, i)
  {
    hide At, IsWord;
    EqualsAt(s, j);
    SkipsTo(s, i + 1, j);
    ContainerSolid(s, k);
    SkipsTo(s, j + 1, k);
  }

  lemma ContainerSolid(s: string, k: int)
    requires At(s, k, "{}") || At(s, k, "[]") || At(s, k, "dict(") || At(s, k, "set(")
    ensures 0 <= k < |s| && !IsSpace(s[k])
  {
    var w := if At(s, k, "{}") then "{}" else if At(s, k, "[]") then "[]"
             else if At(s, k, "dict(") then "dict(" else "set(";
    StartsSolid(s, k, w);
  }

  // ---------------------------------------------------------------- \w+\[[^\]]*\]\s*(=[^=]|==)

  ghost predicate SubscriptAt(s: string, i: int, j: int, k: int) {
    && WordAt(s, i) && i + 1 < j < |s| && s[i + 1] == '[' && s[j] == ']'
    && (forall q :: i + 2 <= q < j ==> s[q] != ']')
    && Spaces(s, j + 1, k) && k + 1 < |s| && s[k] == '='
  }

  lemma SubscriptIff(s: string)
    ensures (exists i :: 0 <= i < |s| && SubscriptUseAt(s, i)) <==> exists i, j, k :: SubscriptAt(s, i, j, k)
  {
    hide SubscriptUseAt, SubscriptAt;
    if i :| 0 <= i < |s| && SubscriptUseAt(s, i) {
      UseIsMatch(s, i);
    }
    if i, j, k :| SubscriptAt(s, i, j, k) {
      MatchIsUse(s, i, j, k);
    }
  }

  lemma UseIsMatch(s: string, i: int)
    requires SubscriptUseAt(s, i)
    ensures exists j, k :: SubscriptAt(s, i, j, k)
  {
    hide IsWord;
    var j :| i + 2 <= j < |s| && s[j] == ']' && ']' !in s[i + 2..j]
             && var k := SkipSpaces(s, j + 1); k + 1 < |s| && s[k] == '=';
    var inner := s[i + 2..j];
    forall q | i + 2 <= q < j ensures s[q] != ']' {
      assert s[q] == inner[q - i - 2];
    }
    assert s[i + 1..i + 2][0] == s[i + 1];
    assert SubscriptAt(s, i, j, SkipSpaces(s, j + 1));
  }

  lemma MatchIsUse(s: string, i: int, j: int, k: int)
    requires SubscriptAt(s, i, j, k)
    ensures 0 <= i < |s| && SubscriptUseAt(s, i)
  {
    hide IsWord;
    SkipsTo(s, j + 1, k);
    assert s[i + 1..i + 2] == "[";
    assert ']' !in s[i + 2..j];
  }

  // ---------------------------------------------------------------- a line of code

  ghost predicate ReadsAsCode(line: string) {
    || (exists j, w, k :: BlockLine(line, 0, j, w, k))
    || (exists j, k :: ReturnLine(line, 0, j, k))
    || (exists j, k, m :: ImportLine(line, 0, j, k, m))
    || (exists i, j, k :: AssignAt(line, i, j, k))
    || Contains(line, "in range(") || Contains(line, ".get(")
    || (exists i, j, k :: SubscriptAt(line, i, j, k))
  }

  /** A line outside the fences counts as code exactly when one of the patterns matches it and it is
    * no fence line itself. */
  lemma CodeIffPatternMatches(line: string)
    ensures Classify(line) == Code <==> !(CODE_FENCE <= Strip(line)) && ReadsAsCode(line)
  {
    hide CodeLineAt, BareReturnAt, BareImportAt, HasContainerAssign, SubscriptUseAt, Strip, Contains;
    hide BlockLine, ReturnLine, ImportLine, AssignAt, SubscriptAt;
    CodeLineIff(line, 0);
    BareReturnIff(line, 0);
    BareImportIff(line, 0);
    ContainerAssignIff(line);
    SubscriptIff(line);
    if ReadsAsCode(line) {
      MatchIsNotBlank(line);
    }
  }

  lemma MatchIsNotBlank(line: string)
    requires ReadsAsCode(line)
    ensures Strip(line) != ""
  {
    StripIsBlank(line);
    if j, w, k :| BlockLine(line, 0, j, w, k) {
      assert !IsSpace(line[k]);
    } else if j, k :| ReturnLine(line, 0, j, k) {
      assert !IsSpace(line[k]);
    } else if j, k, m :| ImportLine(line, 0, j, k, m) {
      assert !IsSpace(line[k]);
    } else if i, j, k :| AssignAt(line, i, j, k) {
      assert !IsSpace(line[i]);
    } else if i, j, k :| SubscriptAt(line, i, j, k) {
      assert !IsSpace(line[i]);
    } else {
      var w := if Contains(line, "in range(") then "in range(" else ".get(";
      var i :| 0 <= i <= |line| && At(line, i, w);
      StartsSolid(line, i, w);
    }
  }

  // The search tries every line of the text, and a match may run on over white space.
  ghost predicate LineReadsAsCode(text: string, i: int) {
    && 0 <= i <= |text| && (i == 0 || text[i - 1] == '\n')
    && (|| (exists j, w, k :: BlockLine(text, i, j, w, k))
        || (exists j, k :: ReturnLine(text, i, j, k))
        || (exists j, k, m :: ImportLine(text, i, j, k, m)))
  }

  /** A text shows code to the logic check exactly when it holds a fence, one of the patterns matches
    * at the start of a line, or one of the others anywhere. */
  lemma ShowsCodeIff(text: string)
    ensures ShowsCode(text) <==>
            || Contains(text, "```") || Contains(text, "in range(") || Contains(text, ".get(")
            || (exists i, j, k :: AssignAt(text, i, j, k))
            || (exists i :: LineReadsAsCode(text, i))
  {
    hide CodeLineAt, BareReturnAt, BareImportAt, HasContainerAssign, Contains;
    hide BlockLine, ReturnLine, ImportLine, AssignAt;
    ContainerAssignIff(text);
    forall i | 0 <= i <= |text|
      ensures LineReadsAsCode(text, i) <==>
              LineStart(text, i) && (CodeLineAt(text, i) || BareReturnAt(text, i) || BareImportAt(text, i))
    {
      CodeLineIff(text, i);
      BareReturnIff(text, i);
      BareImportIff(text, i);
    }
  }

  // ---------------------------------------------------------------- \bdef\s+name\b

  // The definition of a name starts at i: no longer word ends in its def, and no longer name follows.
  ghost predicate Defines(text: string, name: string, i: int, j: int) {
    && At(text, i, "def") && !(0 < i <= |text| && IsWord(text[i - 1]))
    && Spaces(text, i + 3, j) && i + 3 < j && At(text, j, name)
    && !(j + |name| < |text| && IsWord(text[j + |name|]))
  }

  lemma DefinesIff(text: string, name: string)
    requires name != "" && IsWord(name[|name| - 1])
    ensures DefinesEntrypoint(text, name) <==> exists i, j :: Defines(text, name, i, j)
  {
    hide IsWord, IsSpace;
    if i :| 0 <= i <= |text| && DefinitionAt(text, name, i) {
      var j :| i + 4 <= j <= SkipSpaces(text, i + 3) && At(text, j, name) && Boundary(text, j + |name|);
      EndsInWord(text, name, j);
      assert Defines(text, name, i, j);
    }
    if i, j :| Defines(text, name, i, j) {
      SpacesEnd(text, i + 3, j);
      EndsInWord(text, name, j);
      assert DefinitionAt(text, name, i);
    }
  }

  lemma EndsInWord(text: string, name: string, j: int)
    requires At(text, j, name) && name != "" && IsWord(name[|name| - 1])
    ensures WordAt(text, j + |name| - 1)
  {
    assert text[j..j + |name|][|name| - 1] == text[j + |name| - 1];
  }

  // ---------------------------------------------------------------- \bterm\b, ignoring case

  /** A term that begins and ends with a word character, whatever is between, is named exactly when
    * it stands in the text, up to case, inside no longer word. */
  lemma NamesTermIff(text: string, term: string)
    requires var t := Strip(term); t != "" && IsWord(t[0]) && IsWord(t[|t| - 1])
    ensures var t := Strip(term);
            NamesTerm(text, term) <==>
            exists i :: At(Lower(text), i, Lower(t)) && !WordAt(text, i - 1) && !WordAt(text, i + |t|)
  {
    hide Strip, OccursAt, WordAt, IsWord, Lower;
    var t := Strip(term);
    forall i ensures OccursAt(text, t, i) <==>
                     At(Lower(text), i, Lower(t)) && !WordAt(text, i - 1) && !WordAt(text, i + |t|)
    {
      OccursIff(text, t, i);
    }
    if i :| At(Lower(text), i, Lower(t)) && !WordAt(text, i - 1) && !WordAt(text, i + |t|) {
      assert 0 <= i <= |text| && OccursAt(text, t, i);
    }
  }

  lemma OccursIff(text: string, t: string, i: int)
    requires t != "" && IsWord(t[0]) && IsWord(t[|t| - 1])
    ensures OccursAt(text, t, i) <==>
            At(Lower(text), i, Lower(t)) && !WordAt(text, i - 1) && !WordAt(text, i + |t|)
  {
    hide IsWord, Lower;
    if At(Lower(text), i, Lower(t)) {
      TermIsOfWords(text, t, i);
    }
  }

  lemma TermIsOfWords(text: string, t: string, i: int)
    requires t != "" && IsWord(t[0]) && IsWord(t[|t| - 1]) && At(Lower(text), i, Lower(t))
    ensures WordAt(text, i) && WordAt(text, i + |t| - 1)
  {
    var low, w := Lower(text), Lower(t);
    assert low[i..i + |w|][0] == low[i] && low[i..i + |w|][|w| - 1] == low[i + |w| - 1];
    LowerKeepsWords(text);
    LowerKeepsWords(t);
  }

  // A line the pattern's own comment calls prose is code to it.
  lemma EachNumberIsCode()
    ensures Classify("for each number:") == Code
  {
    var s := "for each number:";
    assert |s| == 16 && s[15] == ':';
    assert s[0..3] == "for";
    assert s[3..15] == " each number";
    assert Spaces(s, 0, 0) && At(s, 0, "for") && Spaces(s, 16, 16);
    assert BlankTail(s, 16);
    assert BlockLine(s, 0, 0, "for", 15);
    NoFenceInside(s);
    CodeIffPatternMatches(s);
  }

  lemma NoFenceInside(s: string)
    requires s != "" && s[0] != '`' && !IsSpace(s[0])
    ensures !(CODE_FENCE <= Strip(s))
  {
    assert DropLeading(Space, s) == s;
    assert CODE_FENCE[0] == '`';
  }
}
