/** The seed generator: the large test, the checks every test must pass, and SQL quoting. */
module SeedGenerator {
  import opened Text
  import opened TwoSum
  import opened Json

  // ---------------------------------------------------------------- Python's negative indices

  // s[k], where a negative k counts from the end.
  function Element(s: seq<int>, k: int): Option<int> {
    if 0 <= k < |s| then Some(s[k]) else if -|s| <= k < 0 then Some(s[|s| + k]) else None
  }

  // s[:k]
  function UpTo(s: seq<int>, k: int): seq<int> {
    if k > |s| then s else if k >= 0 then s[..k] else if |s| + k >= 0 then s[..|s| + k] else []
  }

  // ---------------------------------------------------------------- the large test

  const POOL_SIZE: nat := 60_000
  const PARTNER := 1_000_003

  function Pool(): seq<int> {
    seq(POOL_SIZE, k => 1 + 4 * k)
  }

  datatype Problem = Problem(nums: seq<int>, target: int, answer: (int, int))

  // The large test of size n cut from a shuffled pool.
  function LargeTest(n: int, pool: seq<int>): Problem
    requires 2 <= n <= |pool| + 1
  {
    var a := pool[n - 2];
    Problem(pool[..n - 2] + [a, PARTNER], a + PARTNER, (n - 2, n - 1))
  }

  predicate Draws(picks: seq<nat>, size: nat) {
    |picks| == size && forall i :: 0 <= i < size ==> picks[i] <= i
  }

  /** Fisher-Yates, from the back, driven by one draw for each position. */
  method Shuffle(a: array<int>, picks: seq<nat>)
    requires Draws(picks, a.Length)
    modifies a
    ensures multiset(a[..]) == multiset(old(a[..]))
  {
    var i := a.Length;
    while i > 1
      invariant multiset(a[..]) == multiset(old(a[..]))
    {
      i := i - 1;
      a[i], a[picks[i]] := a[picks[i]], a[i];
    }
  }

  /** None stands for the index error or the failed assertion. */
  method BuildLargeTest(n: int, picks: seq<nat>) returns (r: Option<Problem>)
    requires Draws(picks, POOL_SIZE)
    ensures r.Some? <==> 2 <= n <= POOL_SIZE + 1
    ensures r.Some? ==> exists pool :: multiset(pool) == multiset(Pool())
                                       && |pool| == POOL_SIZE && r.value == LargeTest(n, pool)
  {
    var shuffled := new int[POOL_SIZE](k => 1 + 4 * k);
    assert shuffled[..] == Pool();
    Shuffle(shuffled, picks);
    var pool := shuffled[..];
    r := CutLargeTest(n, pool);
  }

  method CutLargeTest(n: int, pool: seq<int>) returns (r: Option<Problem>)
    requires multiset(pool) == multiset(Pool()) && |pool| == POOL_SIZE
    ensures r == if 2 <= n <= |pool| + 1 then Some(LargeTest(n, pool)) else None
  {
    ShuffledPool(pool);
    var fillers, a, b := UpTo(pool, n - 2), Element(pool, n - 2), PARTNER;
    if a.None? { return None; }
    var target := a.value + b;
    var nums := fillers + [a.value, b];
    if |nums| != n { return None; }
    if a.value % 4 != 1 || b % 4 != 3 || target % 4 != 0 { return None; }
    if nums[n - 2] + nums[n - 1] != target { return None; }
    r := Some(Problem(nums, target, (n - 2, n - 1)));
  }

  lemma {:induction false} DistinctOnce(s: seq<int>)
    requires forall i, j :: 0 <= i < j < |s| ==> s[i] != s[j]
    ensures forall x :: multiset(s)[x] <= 1
  {
    if s != [] {
      var m := |s| - 1;
      DistinctOnce(s[..m]);
      assert s == s[..m] + [s[m]];
      assert s[m] !in s[..m];
    }
  }

  lemma OnceDistinct(s: seq<int>, i: int, j: int)
    requires forall x :: multiset(s)[x] <= 1
    requires 0 <= i < j < |s|
    ensures s[i] != s[j]
  {
    assert s == s[..j] + s[j..];
    var x := s[i];
    assert multiset(s)[x] == multiset(s[..j])[x] + multiset(s[j..])[x];
    assert x == s[..j][i] && x in multiset(s[..j]);
    assert s[j] == s[j..][0] && s[j] in multiset(s[j..]);
  }

  // A shuffled pool has no value twice, and only values that are 1 modulo 4.
  lemma ShuffledPool(pool: seq<int>)
    requires multiset(pool) == multiset(Pool())
    ensures forall i :: 0 <= i < |pool| ==> pool[i] % 4 == 1
    ensures forall i, j :: 0 <= i < j < |pool| ==> pool[i] != pool[j]
  {
    DistinctOnce(Pool());
    forall i | 0 <= i < |pool| ensures pool[i] % 4 == 1 {
      assert pool[i] in multiset(pool) && pool[i] in Pool();
    }
    forall i, j | 0 <= i < j < |pool| ensures pool[i] != pool[j] {
      OnceDistinct(pool, i, j);
    }
  }

  /** Whatever the shuffle did, the last two positions hold the only pair. */
  lemma LargeTestHasOnePair(n: int, pool: seq<int>, i: int, j: int)
    requires multiset(pool) == multiset(Pool()) && 2 <= n <= |pool| + 1
    ensures var t := LargeTest(n, pool);
            IsPair(t.nums, t.target, i, j) <==> (i, j) == t.answer
  {
    ShuffledPool(pool);
    var t := LargeTest(n, pool);
    if 0 <= i < j < n {
      assert t.nums[i] == pool[i] || i == n - 1;
      assert j < n - 1 ==> t.nums[j] == pool[j];
    }
  }

  // ---------------------------------------------------------------- adding a test

  datatype Refusal = NotUnique | NoSuchIndex | WrongSum | SameElement

  datatype Row = Row(idx: int, name: string, isPublic: bool, stdin: string, expected: string)

  // json.dumps(sorted(indices))
  function ExpectedFor(p: (int, int)): string {
    var (lo, hi) := if p.0 <= p.1 then p else (p.1, p.0);
    "[" + Decimal(lo) + ", " + Decimal(hi) + "]"
  }

  // The assertions of add, in order.
  function Refused(nums: seq<int>, target: int, answer: (int, int)): Option<Refusal> {
    var x, y := Element(nums, answer.0), Element(nums, answer.1);
    if PairCount(nums, target) != 1 then Some(NotUnique)
    else if x.None? || y.None? then Some(NoSuchIndex)
    else if x.value + y.value != target then Some(WrongSum)
    else if answer.0 == answer.1 then Some(SameElement)
    else None
  }

  /** Whatever the shuffle did, the large test passes every assertion. */
  lemma LargeTestPasses(n: int, pool: seq<int>)
    requires multiset(pool) == multiset(Pool()) && 2 <= n <= |pool| + 1
    ensures var t := LargeTest(n, pool); Refused(t.nums, t.target, t.answer).None?
    ensures IsPair(LargeTest(n, pool).nums, LargeTest(n, pool).target, n - 2, n - 1)
  {
    var t := LargeTest(n, pool);
    forall i, j ensures IsPair(t.nums, t.target, i, j) <==> (i, j) == t.answer {
      LargeTestHasOnePair(n, pool, i, j);
    }
    CountOneIsUnique(t.nums, t.target, n - 2, n - 1);
  }

  /** On every such test both programs answer with the last two positions, the nested loops
    * after testing every one of the n (n - 1) / 2 pairs. */
  lemma LargeTestForcesFullScan(n: int, pool: seq<int>, fast: Option<(int, int)>,
                                slow: Option<(int, int)>, tests: nat)
    requires multiset(pool) == multiset(Pool()) && 2 <= n <= |pool| + 1
    requires var t := LargeTest(n, pool);
             && SinglePassAnswer(t.nums, t.target, fast)
             && NestedLoopAnswer(t.nums, t.target, slow, tests)
    ensures fast == slow == Some((n - 2, n - 1))
    ensures 2 * tests == n * (n - 1)
  {
    var t := LargeTest(n, pool);
    LargeTestPasses(n, pool);
    OnePairDecides(t.nums, t.target, n - 2, n - 1, fast, slow, tests);
    assert (n - 2) * (2 * n - 1 - (n - 2)) + 2 == n * (n - 1);
  }

  class TestList {
    var tests: seq<Row>

    constructor ()
      ensures tests == []
    {
      tests := [];
    }

    // A stored test's input reads back as the list and the target, and its expected output as the
    // two stated indices, the lower one first.
    method Add(idx: int, name: string, isPublic: bool, nums: seq<int>, target: int, answer: (int, int))
      returns (refusal: Option<Refusal>)
      modifies this
      ensures refusal == Refused(nums, target, answer)
      ensures refusal.Some? ==> tests == old(tests)
      ensures refusal.None? ==>
                && |tests| == |old(tests)| + 1 && tests[..|old(tests)|] == old(tests)
                && var row := tests[|old(tests)|];
                && row.idx == idx && row.name == name && row.isPublic == isPublic
                && ReadData(row.stdin) == Some((nums, target))
                && row == Row(idx, name, isPublic, DumpData(nums, target), ExpectedFor(answer))
                && exists lo, hi :: lo < hi && {lo, hi} == {answer.0, answer.1}
                                    && ReadList(row.expected) == Some(([lo, hi], ""))
    {
      DataReadsBack(nums, target);
      ExpectedReadsBack(answer);
      var pairs := CountPairs(nums, target);
      PairCountIsCardinality(nums, target);
      if pairs != 1 { return Some(NotUnique); }
      var x, y := Element(nums, answer.0), Element(nums, answer.1);
      if x.None? || y.None? { return Some(NoSuchIndex); }
      if x.value + y.value != target { return Some(WrongSum); }
      if answer.0 == answer.1 { return Some(SameElement); }
      tests := tests + [Row(idx, name, isPublic, DumpData(nums, target), ExpectedFor(answer))];
      refusal := None;
    }
  }

  // ---------------------------------------------------------------- the harness

  // sorted(list(...))
  function Sorted(xs: seq<int>): seq<int> {
    if xs == [] then [] else Insert(xs[0], Sorted(xs[1..]))
  }

  function Insert(x: int, ys: seq<int>): seq<int> {
    if ys == [] || x <= ys[0] then [x] + ys else [ys[0]] + Insert(x, ys[1..])
  }

  /** What the harness prints for the list of indices a program returns. */
  function PrintedLine(returned: seq<int>): string {
    DumpList(Sorted(returned)) + "\n"
  }

  /** The harness: the test's input is read, handed to the program, and its answer printed. None is
    * an input that cannot be read. */
  function HarnessPrints(solve: (seq<int>, int) -> seq<int>, stdin: string): Option<string> {
    match ReadData(stdin)
    case None => None
    case Some((nums, target)) => Some(PrintedLine(solve(nums, target)))
  }

  lemma {:induction false} InsertSorts(x: int, ys: seq<int>)
    requires forall i, j :: 0 <= i < j < |ys| ==> ys[i] <= ys[j]
    ensures var zs := Insert(x, ys);
            && multiset(zs) == multiset(ys) + multiset{x}
            && forall i, j :: 0 <= i < j < |zs| ==> zs[i] <= zs[j]
  {
    if ys != [] && x > ys[0] {
      InsertSorts(x, ys[1..]);
      LeadsInserted(x, ys);
      assert ys == [ys[0]] + ys[1..];
    }
  }

  lemma LeadsInserted(x: int, ys: seq<int>)
    requires ys != [] && ys[0] < x && forall j :: 0 < j < |ys| ==> ys[0] <= ys[j]
    requires var rest := Insert(x, ys[1..]); multiset(rest) == multiset(ys[1..]) + multiset{x}
    ensures forall k :: 0 <= k < |Insert(x, ys[1..])| ==> ys[0] <= Insert(x, ys[1..])[k]
  {
    hide Insert;
    var rest := Insert(x, ys[1..]);
    forall k | 0 <= k < |rest| ensures ys[0] <= rest[k] {
      assert rest[k] in multiset(rest);
      assert rest[k] == x || rest[k] in ys[1..];
    }
  }

  lemma {:induction false} SortedSorts(xs: seq<int>)
    ensures multiset(Sorted(xs)) == multiset(xs)
    ensures forall i, j :: 0 <= i < j < |Sorted(xs)| ==> Sorted(xs)[i] <= Sorted(xs)[j]
  {
    if xs != [] {
      SortedSorts(xs[1..]);
      InsertSorts(xs[0], Sorted(xs[1..]));
      assert xs == [xs[0]] + xs[1..];
    }
  }

  // The expected text of two indices, read as a list.
  lemma ExpectedReadsBack(answer: (int, int))
    ensures var lo, hi := Min(answer.0, answer.1), Max(answer.0, answer.1);
            && ExpectedFor(answer) == DumpList([lo, hi])
            && ReadList(ExpectedFor(answer)) == Some(([lo, hi], ""))
  {
    hide ReadList, Decimal;
    var lo, hi := Min(answer.0, answer.1), Max(answer.0, answer.1);
    DumpPair(lo, hi);
    ListReadsBack([lo, hi], "");
    assert DumpList([lo, hi]) + "" == DumpList([lo, hi]);
  }

  lemma DumpPair(lo: int, hi: int)
    ensures DumpList([lo, hi]) == "[" + Decimal(lo) + ", " + Decimal(hi) + "]"
  {
    hide Decimal;
    JoinTwo(Decimal(lo), Decimal(hi));
    assert Decimals([lo, hi]) == [Decimal(lo), Decimal(hi)];
    assert "[" + (Decimal(lo) + ", " + Decimal(hi)) + "]" == "[" + Decimal(lo) + ", " + Decimal(hi) + "]";
  }

  lemma JoinTwo(a: string, b: string)
    ensures Join(", ", [a, b]) == a + ", " + b
  {
    assert [a, b][1..] == [b];
  }

  function Min(a: int, b: int): int {
    if a <= b then a else b
  }

  function Max(a: int, b: int): int {
    if a <= b then b else a
  }

  // Two numbers in order are what sorting gives exactly when they are the two there are.
  lemma SortedPair(xs: seq<int>, lo: int, hi: int)
    requires lo <= hi
    ensures Sorted(xs) == [lo, hi] <==> multiset(xs) == multiset{lo, hi}
  {
    SortedSorts(xs);
    if multiset(xs) == multiset{lo, hi} {
      var ys := Sorted(xs);
      assert |multiset(ys)| == |ys| == 2;
      assert ys == [ys[0], ys[1]];
      assert multiset(ys) == multiset{ys[0], ys[1]};
      assert ys[0] in multiset(ys) && ys[1] in multiset(ys);
      assert lo in multiset(ys) && hi in multiset(ys);
    }
  }

  lemma StripsToLine(s: string)
    requires s != "" && !IsSpace(s[0]) && !IsSpace(s[|s| - 1])
    ensures Strip(s) == s && Strip(s + "\n") == s
  {
    assert (s + "\n")[..|s|] == s;
    assert s[..|s|] == s;
  }

  /** A program passes a stored test, its output compared without the white space around it, exactly
    * when it returns the two stated indices, in either order. */
  lemma PassesIff(nums: seq<int>, target: int, answer: (int, int), solve: (seq<int>, int) -> seq<int>)
    ensures var printed := HarnessPrints(solve, DumpData(nums, target));
            && printed.Some?
            && (Strip(printed.value) == Strip(ExpectedFor(answer))
                <==> multiset(solve(nums, target)) == multiset{answer.0, answer.1})
  {
    hide ReadData, ReadList, DumpData, DumpList, Strip, Sorted;
    var lo, hi := Min(answer.0, answer.1), Max(answer.0, answer.1);
    var returned := Sorted(solve(nums, target));
    DataReadsBack(nums, target);
    ExpectedReadsBack(answer);
    DumpIsALine(returned);
    DumpIsALine([lo, hi]);
    StripsToLine(DumpList(returned));
    StripsToLine(DumpList([lo, hi]));
    DumpInjective(returned, [lo, hi]);
    SortedPair(solve(nums, target), lo, hi);
    assert multiset{lo, hi} == multiset{answer.0, answer.1};
  }

  lemma DumpIsALine(xs: seq<int>)
    ensures var s := DumpList(xs); s != "" && !IsSpace(s[0]) && !IsSpace(s[|s| - 1])
  {
  }

  // The two numbers can be read back from their brackets.
  lemma BracketInjective(a: string, b: string, c: string, d: string)
    requires ',' !in a && ',' !in c
    requires "[" + a + ", " + b + "]" == "[" + c + ", " + d + "]"
    ensures a == c && b == d
  {
    var x, y := " " + b + "]", " " + d + "]";
    assert "[" + a + ", " + b + "]" == ['['] + (a + [','] + x);
    assert "[" + c + ", " + d + "]" == ['['] + (c + [','] + y);
    assert (['['] + (a + [','] + x))[1..] == a + [','] + x;
    assert (['['] + (c + [','] + y))[1..] == c + [','] + y;
    SeparatorInjective(',', a, x, c, y);
    assert b == x[1..|x| - 1] && d == y[1..|y| - 1];
  }

  lemma ExpectedInjective(p: (int, int), q: (int, int))
    requires p.0 <= p.1 && q.0 <= q.1
    ensures ExpectedFor(p) == ExpectedFor(q) <==> p == q
  {
    if ExpectedFor(p) == ExpectedFor(q) {
      BracketInjective(Decimal(p.0), Decimal(p.1), Decimal(q.0), Decimal(q.1));
      DecimalInjective(p.0, q.0);
      DecimalInjective(p.1, q.1);
    }
  }

  /** A test that passes the assertions is answered by both programs with the same pair, and what
    * the harness prints for it, whichever way round it is returned, is the expected output exactly
    * when the stated indices are not negative. */
  lemma AddedTestIsAnswered(nums: seq<int>, target: int, answer: (int, int),
                            fast: Option<(int, int)>, slow: Option<(int, int)>, tests: nat)
    requires Refused(nums, target, answer).None?
    requires SinglePassAnswer(nums, target, fast)
    requires NestedLoopAnswer(nums, target, slow, tests)
    ensures fast.Some? && fast == slow
    ensures var (i, j) := fast.value;
            && PrintedLine([i, j]) == PrintedLine([j, i])
            && (PrintedLine([i, j]) == ExpectedFor(answer) + "\n" <==> answer.0 >= 0 && answer.1 >= 0)
  {
    var (i, j) := OnlyPair(nums, target);
    OnePairDecides(nums, target, i, j, fast, slow, tests);
    CountOneIsUnique(nums, target, i, j);
    var p := (Min(answer.0, answer.1), Max(answer.0, answer.1));
    PrintsPair(i, j);
    ExpectedReadsBack(answer);
    DumpInjective([i, j], [p.0, p.1]);
    assert [i, j][0] == i && [i, j][1] == j;
    assert DumpList([i, j]) == (DumpList([i, j]) + "\n")[..|DumpList([i, j])|];
    assert ExpectedFor(answer) == (ExpectedFor(answer) + "\n")[..|ExpectedFor(answer)|];
    if p.0 >= 0 {
      assert IsPair(nums, target, p.0, p.1);
    }
  }

  lemma PrintsPair(i: int, j: int)
    requires i < j
    ensures PrintedLine([i, j]) == PrintedLine([j, i]) == DumpList([i, j]) + "\n"
  {
    SortedPair([i, j], i, j);
    SortedPair([j, i], i, j);
  }

  ghost function OnlyPair(nums: seq<int>, target: int): (p: (int, int))
    requires PairCount(nums, target) == 1
    ensures IsPair(nums, target, p.0, p.1)
  {
    PairCountIsCardinality(nums, target);
    var p :| p in PairSet(nums, target);
    InPairSet(nums, target, p.0, p.1);
    p
  }

  /** Stated from the front, an answer is accepted exactly when it is the only pair of the list, in
    * either order; and a list without exactly one pair is refused as such, whatever is stated. */
  lemma AcceptedIffOnlyPair(nums: seq<int>, target: int, answer: (int, int))
    ensures Refused(nums, target, answer) == Some(NotUnique) <==> |PairSet(nums, target)| != 1
    ensures answer.0 >= 0 && answer.1 >= 0 ==>
              var (lo, hi) := (Min(answer.0, answer.1), Max(answer.0, answer.1));
              Refused(nums, target, answer).None? <==>
                IsPair(nums, target, lo, hi) && forall i, j :: IsPair(nums, target, i, j) ==> (i, j) == (lo, hi)
  {
    PairCountIsCardinality(nums, target);
    var lo, hi := Min(answer.0, answer.1), Max(answer.0, answer.1);
    if IsPair(nums, target, lo, hi) {
      CountOneIsUnique(nums, target, lo, hi);
    }
  }

  // Each other refusal is true of the test: an index names no element, or the two elements do not
  // sum to the target, or the two indices are the same.
  lemma RefusalIsTrue(nums: seq<int>, target: int, answer: (int, int))
    ensures var n, (i, j), r := |nums|, answer, Refused(nums, target, answer);
            var (a, b) := (if i < 0 then n + i else i, if j < 0 then n + j else j);
            && (r == Some(NoSuchIndex) ==> !(-n <= i < n && -n <= j < n))
            && (r == Some(WrongSum) ==> 0 <= a < n && 0 <= b < n && nums[a] + nums[b] != target)
            && (r == Some(SameElement) ==> i == j && 0 <= a < n && nums[a] + nums[a] == target)
            && (r == None ==> i != j && 0 <= a < n && 0 <= b < n && nums[a] + nums[b] == target)
  {
  }

  // A negative index slips past the same-element assertion: one element is used twice.
  lemma NegativeIndexSlipsThrough()
    ensures Refused([4, 6, 5], 10, (2, -1)).None?
    ensures Element([4, 6, 5], 2) == Element([4, 6, 5], -1)
    ensures IsPair([4, 6, 5], 10, 0, 1)
  {
    assert [4, 6, 5][..2] == [4, 6] && [4, 6][..1] == [4] && [4][..0] == [];
    assert Occurs([4, 6], 5) == 0 && Occurs([4], 4) == 1 && Occurs([], 6) == 0;
  }

  // ---------------------------------------------------------------- dollar quoting

  function Marker(tag: string): string {
    "$" + tag + "$"
  }

  // None stands for the failed assertion.
  function DollarQuote(value: string, tag: string): (r: Option<string>)
    ensures r.Some? <==> !Contains(value, Marker(tag))
    ensures r.Some? ==>
              var m := |Marker(tag)|;
              && |r.value| == |value| + 2 * m && r.value[m..|r.value| - m] == value
              && Marker(tag) <= r.value && EndsWith(r.value, Marker(tag))
  {
    if Contains(value, Marker(tag)) then None else Some(Marker(tag) + value + Marker(tag))
  }

  // Where w first stands in s, from position i on.
  function FirstAt(s: string, w: string, i: nat): (r: Option<nat>)
    requires i <= |s|
    ensures r.Some? ==> i <= r.value <= |s| && At(s, r.value, w)
    ensures forall k :: i <= k <= |s| && At(s, k, w) ==> r.Some? && r.value <= k
    decreases |s| - i
  {
    if At(s, i, w) then Some(i) else if i == |s| then None else FirstAt(s, w, i + 1)
  }

  /** Reading a dollar-quoted constant: its text runs from the opening marker to the first
    * place the marker stands again. The rest of the input follows. */
  function ReadBack(text: string, tag: string): Option<(string, string)> {
    var m := Marker(tag);
    if !At(text, 0, m) then None else
      var end := FirstAt(text, m, |m|);
      if end.None? then None else Some((text[|m|..end.value], text[end.value + |m|..]))
  }

  predicate EndsWith(s: string, w: string) {
    |w| <= |s| && s[|s| - |w|..] == w
  }

  /** What was quoted is what is read back, whatever follows, unless the value ends in the
    * opening part of its own marker: the assertion alone does not exclude that. */
  lemma QuotedReadsBack(value: string, tag: string, rest: string)
    requires '$' !in tag && DollarQuote(value, tag).Some?
    ensures ReadBack(DollarQuote(value, tag).value + rest, tag) == Some((value, rest))
            <==> !EndsWith(value, "$" + tag)
  {
    var m := Marker(tag);
    var text := m + value + m + rest;
    var close := |m| + |value|;
    assert text == DollarQuote(value, tag).value + rest;
    assert text[..|m|] == m;
    assert text[close..close + |m|] == m;
    assert text[|m|..close] == value && text[close + |m|..] == rest;
    assert At(text, 0, m) && At(text, close, m);
    if EndsWith(value, "$" + tag) {
      MarkerStraddles(value, tag, rest);
    } else {
      forall k | |m| <= k < close && At(text, k, m) ensures false {
        EarlyMarker(value, tag, rest, k);
      }
      assert FirstAt(text, m, |m|) == Some(close);
    }
  }

  // The value's end and the closing marker's first dollar form a marker too soon.
  lemma MarkerStraddles(value: string, tag: string, rest: string)
    requires EndsWith(value, "$" + tag)
    ensures var m := Marker(tag);
            At(m + value + m + rest, |value| + 1, m) && |m| <= |value| + 1
  {
    var m := Marker(tag);
    var text := m + value + m + rest;
    assert |m| == |tag| + 2;
    var k := |value| + 1;
    assert text[k..k + |m|] == value[|value| - |tag| - 1..] + [m[0]];
    assert m == ("$" + tag) + ['$'];
  }

  lemma MarkerInside(value: string, tag: string, rest: string, k: int)
    requires var m := Marker(tag);
             |m| <= k <= |value| && At(m + value + m + rest, k, m)
    ensures Contains(value, Marker(tag))
  {
    var m := Marker(tag);
    assert (m + value + m + rest)[k..k + |m|] == value[k - |m|..k];
    assert At(value, k - |m|, m);
  }

  // A marker that starts inside the value ends on the first dollar of the closing one.
  lemma EarlyMarker(value: string, tag: string, rest: string, k: int)
    requires '$' !in tag && !Contains(value, Marker(tag))
    requires var m := Marker(tag);
             |m| <= k < |m| + |value| && At(m + value + m + rest, k, m)
    ensures EndsWith(value, "$" + tag)
  {
    var m := Marker(tag);
    var text := m + value + m + rest;
    var close := |m| + |value|;
    assert forall q :: k <= q < k + |m| ==> text[q] == text[k..k + |m|][q - k] == m[q - k];
    assert forall q :: |m| <= q < close ==> text[q] == value[q - |m|];
    assert text[close] == m[0];
    assert forall d :: 0 < d < |m| - 1 ==> m[d] == tag[d - 1];
    if k + |m| <= close {
      MarkerInside(value, tag, rest, k);
    } else if close == k + |m| - 1 {
      assert |value[k - |m|..]| == |m| - 1;
      assert forall d :: 0 <= d < |m| - 1 ==> value[k - |m|..][d] == text[k + d] == m[d];
      assert value[k - |m|..] == m[..|m| - 1];
      assert m[..|m| - 1] == "$" + tag;
    }
  }

  // A value that passes the assertion and is still cut short.
  lemma CutShort(rest: string)
    ensures DollarQuote("cost$t", "t").Some?
    ensures ReadBack(DollarQuote("cost$t", "t").value + rest, "t") != Some(("cost$t", rest))
  {
    var value, m := "cost$t", "$t$";
    assert Marker("t") == m;
    assert forall i :: 0 <= i <= |value| && At(value, i, m) ==> value[i..i + |m|][0] == '$';
    assert value[4..] == "$" + "t";
    QuotedReadsBack(value, "t", rest);
  }
}
