/** The rubric the seed ships: its own counters and the generic reply pass the checks it asks for. */
module SeedRubric {
  import opened Text
  import opened Verifier
  import opened SessionSafety

  const PAIRS_COUNTER :=
    "Agar array mein 20,000 " + "numbers hon, toh tumhara " + "approach kitne pairs "
    + "check karega? Kya har " + "pair ko dekhna sach mein " + "zaroori hai?"
  const POSITIONS_COUNTER :=
    "Question dhyan se padho " + "\U{2014} woh numbers maang " + "raha hai, ya unki " + "positions?"
  const TWICE_COUNTER :=
    "Agar target 6 hai aur " + "array mein sirf ek 3 hai, " + "kya tumhara logic galti " + "se 3 + 3 bana dega?"
  const SORTING_COUNTER :=
    "Sort karne ke baad, kya " + "har number ki position " + "wahi rehti hai jo " + "original array mein thi?"

  const RUBRIC := Rubric(
    "two_sum",
    [Misconception("nested-loop", PAIRS_COUNTER),
     Misconception("returns-values", POSITIONS_COUNTER),
     Misconception("same-element-twice", TWICE_COUNTER),
     Misconception("sort-loses-indices", SORTING_COUNTER)],
    ["hashmap", "hash map", "hash table", "dictionary", "dict",
     "complement", "two pointer", "two pointers", "two-pointer"])

  // Two letters in a row that every forbidden term has somewhere.
  predicate Telling(a: char, b: char) {
    (LowerChar(a) == 's' && LowerChar(b) == 'h')
    || (LowerChar(b) == 't' && (LowerChar(a) == 'c' || LowerChar(a) == 'n'))
  }

  predicate Opens(a: char) {
    LowerChar(a) == 's' || LowerChar(a) == 'c' || LowerChar(a) == 'n'
  }

  predicate MildAt(s: string, k: int) {
    0 <= k < |s| && Quiet(s[k]) && if k + 1 < |s| then !Telling(s[k], s[k + 1]) else !Opens(s[k])
  }

  // Nothing in the text reads as code, and no two letters are telling.
  predicate Mild(s: string) {
    forall k :: 0 <= k < |s| ==> MildAt(s, k)
  }

  lemma MildJoin(a: string, b: string)
    requires Mild(a) && Mild(b)
    ensures Mild(a + b)
  {
    forall k | 0 <= k < |a + b| ensures MildAt(a + b, k) {
      assert if k < |a| then MildAt(a, k) else MildAt(b, k - |a|);
    }
  }

  // A mild text names no term that has two telling letters in a row.
  lemma MildNamesNot(text: string, term: string, k: nat)
    requires Mild(text) && Strip(term) == term && k + 1 < |term| && Telling(term[k], term[k + 1])
    ensures !NamesTerm(text, term)
  {
    forall i ensures !At(Lower(text), i, Lower(term)) {
      if 0 <= i && i + |term| <= |text| {
        var w := Lower(text)[i..i + |term|];
        assert MildAt(text, i + k);
        assert w[k] == LowerChar(text[i + k]) && w[k + 1] == LowerChar(text[i + k + 1]);
        assert Lower(term)[k] == LowerChar(term[k]) && Lower(term)[k + 1] == LowerChar(term[k + 1]);
      }
    }
  }

  lemma TermsAreTelling(t: string) returns (k: nat)
    requires t in RUBRIC.forbiddenTerms
    ensures Strip(t) == t && k + 1 < |t| && Telling(t[k], t[k + 1])
  {
    StripKeeps(t);
    k := if t == "hashmap" || t == "hash map" || t == "hash table" then 2
         else if t == "dictionary" || t == "dict" then 2
         else if t == "complement" then 8
         else 7;
  }

  lemma StripKeeps(t: string)
    requires t != "" && !IsSpace(t[0]) && !IsSpace(t[|t| - 1])
    ensures Strip(t) == t
  {
  }

  /** A mild text that is not too long passes this rubric's logic check. */
  lemma MildPasses(text: string)
    requires Mild(text) && 0 < |text| < 2 * MAX_WORDS_LOGIC && !IsSpace(text[0]) && text[0] != 'i'
    ensures VerifyLogicDraft(text, RUBRIC) == []
    ensures forall t :: t in RUBRIC.forbiddenTerms ==> !NamesTerm(text, t)
  {
    hide Strip, NamesTerm, Telling;
    assert AllQuiet(text) by {
      forall k | 0 <= k < |text| ensures Quiet(text[k]) { assert MildAt(text, k); }
    }
    QuietShowsNoCode(text);
    WordsAreFew(text);
    forall t | t in RUBRIC.forbiddenTerms ensures !NamesTerm(text, t) {
      var k := TermsAreTelling(t);
      MildNamesNot(text, t, k);
    }
    AcceptedLogicDraft(text, RUBRIC);
  }

  // ---------------------------------------------------------------- the texts are mild

  lemma GenericIsMild()
    ensures Mild(GENERIC_LOGIC_FALLBACK)
  {
    hide Mild;
    GenericPieces();
    var a, b := "Walk me through what ", "happens on a small ";
    MildJoin(a, b);
    MildJoin(a + b, "example, step by step.");
  }

  lemma GenericPieces()
    ensures Mild("Walk me through what ")
    ensures Mild("happens on a small ")
    ensures Mild("example, step by step.")
  {
  }

  lemma PairsPieces()
    ensures Mild("Agar array mein 20,000 ")
    ensures Mild("numbers hon, toh tumhara ")
  {
  }

  lemma MorePairsPieces()
    ensures Mild("approach kitne pairs ")
    ensures Mild("check karega? Kya har ")
  {
  }

  lemma LastPairsPieces()
    ensures Mild("pair ko dekhna sach mein ")
    ensures Mild("zaroori hai?")
  {
  }

  lemma PairsCounterIsMild()
    ensures Mild(PAIRS_COUNTER)
  {
    hide Mild;
    PairsPieces();
    MorePairsPieces();
    LastPairsPieces();
    var a, b, c := "Agar array mein 20,000 ", "numbers hon, toh tumhara ", "approach kitne pairs ";
    var d, e := "check karega? Kya har ", "pair ko dekhna sach mein ";
    MildJoin(a, b);
    MildJoin(a + b, c);
    MildJoin(a + b + c, d);
    MildJoin(a + b + c + d, e);
    MildJoin(a + b + c + d + e, "zaroori hai?");
  }

  lemma PositionsPieces()
    ensures Mild("Question dhyan se padho ")
    ensures Mild("\U{2014} woh numbers maang ")
  {
  }

  lemma MorePositionsPieces()
    ensures Mild("raha hai, ya unki ")
    ensures Mild("positions?")
  {
  }

  lemma PositionsCounterIsMild()
    ensures Mild(POSITIONS_COUNTER)
  {
    hide Mild;
    PositionsPieces();
    MorePositionsPieces();
    var a, b, c := "Question dhyan se padho ", "\U{2014} woh numbers maang ", "raha hai, ya unki ";
    MildJoin(a, b);
    MildJoin(a + b, c);
    MildJoin(a + b + c, "positions?");
  }

  lemma TwicePieces()
    ensures Mild("Agar target 6 hai aur ")
    ensures Mild("array mein sirf ek 3 hai, ")
  {
  }

  lemma MoreTwicePieces()
    ensures Mild("kya tumhara logic galti ")
    ensures Mild("se 3 + 3 bana dega?")
  {
  }

  lemma TwiceCounterIsMild()
    ensures Mild(TWICE_COUNTER)
  {
    hide Mild;
    TwicePieces();
    MoreTwicePieces();
    var a, b, c := "Agar target 6 hai aur ", "array mein sirf ek 3 hai, ", "kya tumhara logic galti ";
    MildJoin(a, b);
    MildJoin(a + b, c);
    MildJoin(a + b + c, "se 3 + 3 bana dega?");
  }

  lemma SortingPieces()
    ensures Mild("Sort karne ke baad, kya ")
    ensures Mild("har number ki position ")
  {
  }

  lemma MoreSortingPieces()
    ensures Mild("wahi rehti hai jo ")
    ensures Mild("original array mein thi?")
  {
  }

  lemma SortingCounterIsMild()
    ensures Mild(SORTING_COUNTER)
  {
    hide Mild;
    SortingPieces();
    MoreSortingPieces();
    var a, b, c := "Sort karne ke baad, kya ", "har number ki position ", "wahi rehti hai jo ";
    MildJoin(a, b);
    MildJoin(a + b, c);
    MildJoin(a + b + c, "original array mein thi?");
  }

  // ---------------------------------------------------------------- the rubric is self-consistent

  lemma CounterPasses(text: string)
    requires text == PAIRS_COUNTER || text == POSITIONS_COUNTER || text == TWICE_COUNTER || text == SORTING_COUNTER
    ensures VerifyLogicDraft(text, RUBRIC) == []
  {
    hide Mild, VerifyLogicDraft, NamesTerm;
    PairsCounterIsMild();
    PositionsCounterIsMild();
    TwiceCounterIsMild();
    SortingCounterIsMild();
    assert 0 < |text| < 240 && !IsSpace(text[0]) && text[0] != 'i';
    MildPasses(text);
  }

  /** Every counter of the seed's rubric passes its check, and it forbids no word of the generic
    * reply: with this rubric all that is proved of self-consistent ones holds. */
  lemma SeedRubricIsSelfConsistent()
    ensures SelfConsistent(RUBRIC)
    ensures forall m :: m in RUBRIC.misconceptions ==> m.socraticCounter != ""
  {
    hide Mild, VerifyLogicDraft, NamesTerm;
    GenericIsMild();
    assert !IsSpace(GENERIC_LOGIC_FALLBACK[0]) && GENERIC_LOGIC_FALLBACK[0] != 'i' && |GENERIC_LOGIC_FALLBACK| < 240;
    MildPasses(GENERIC_LOGIC_FALLBACK);
    forall m | m in RUBRIC.misconceptions ensures VerifyLogicDraft(m.socraticCounter, RUBRIC) == [] {
      CounterPasses(m.socraticCounter);
    }
  }
}
