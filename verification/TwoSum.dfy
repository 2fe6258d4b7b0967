/** The two reference solutions of Two Sum and the counter that checks a test for uniqueness. */
module TwoSum {
  import opened Text

  predicate IsPair(nums: seq<int>, target: int, i: int, j: int) {
    0 <= i < j < |nums| && nums[i] + nums[j] == target
  }

  // ---------------------------------------------------------------- the two programs

  // What the single pass returns: the least j that closes a pair, with the greatest i below it.
  ghost predicate SinglePassAnswer(nums: seq<int>, target: int, r: Option<(int, int)>) {
    match r
    case None => forall i, j :: !IsPair(nums, target, i, j)
    case Some(p) =>
      && IsPair(nums, target, p.0, p.1)
      && forall i, j :: IsPair(nums, target, i, j) ==> p.1 <= j && (j == p.1 ==> i <= p.0)
  }

  method SinglePass(nums: seq<int>, target: int) returns (r: Option<(int, int)>)
    ensures SinglePassAnswer(nums, target, r)
  {
    var seen: map<int, int> := map[];
    for n := 0 to |nums|
      invariant forall x :: x in seen ==> 0 <= seen[x] < n && nums[seen[x]] == x
      invariant forall k :: 0 <= k < n ==> nums[k] in seen && k <= seen[nums[k]]
      invariant forall i, j :: IsPair(nums, target, i, j) ==> n <= j
    {
      var x := nums[n];
      if target - x in seen {
        assert IsPair(nums, target, seen[target - x], n);
        return Some((seen[target - x], n));
      }
      seen := seen[x := n];
    }
    r := None;
  }

  // Sum tests made on the rows before row i of the nested loops.
  function TestsBefore(n: nat, i: nat): nat
    requires i <= n
  {
    if i == 0 then 0 else TestsBefore(n, i - 1) + (n - i)
  }

  // What the nested loops return: the first pair in reading order, and the sums tested for it.
  ghost predicate NestedLoopAnswer(nums: seq<int>, target: int, r: Option<(int, int)>, tests: nat) {
    match r
    case None => (forall i, j :: !IsPair(nums, target, i, j)) && tests == TestsBefore(|nums|, |nums|)
    case Some(p) =>
      && IsPair(nums, target, p.0, p.1)
      && tests == TestsBefore(|nums|, p.0) + (p.1 - p.0)
      && forall i, j :: IsPair(nums, target, i, j) ==> p.0 <= i && (i == p.0 ==> p.1 <= j)
  }

  method NestedLoops(nums: seq<int>, target: int) returns (r: Option<(int, int)>, tests: nat)
    ensures NestedLoopAnswer(nums, target, r, tests)
  {
    tests := 0;
    for a := 0 to |nums|
      invariant tests == TestsBefore(|nums|, a)
      invariant forall i, j :: IsPair(nums, target, i, j) ==> a <= i
    {
      for b := a + 1 to |nums|
        invariant tests == TestsBefore(|nums|, a) + (b - a - 1)
        invariant forall i, j :: IsPair(nums, target, i, j) ==> a <= i && (i == a ==> b <= j)
      {
        tests := tests + 1;
        if nums[a] + nums[b] == target {
          assert IsPair(nums, target, a, b);
          return Some((a, b)), tests;
        }
      }
    }
    r := None;
  }

  lemma {:induction false} TestsClosedForm(n: nat, i: nat)
    requires i <= n
    ensures 2 * TestsBefore(n, i) == i * (2 * n - 1 - i)
  {
    if i > 0 {
      TestsClosedForm(n, i - 1);
      assert (i - 1) * (2 * n - i) + 2 * (n - i) == i * (2 * n - 1 - i);
    }
  }

  // ---------------------------------------------------------------- counting pairs

  function Occurs(s: seq<int>, x: int): nat {
    if s == [] then 0 else Occurs(s[..|s| - 1], x) + if s[|s| - 1] == x then 1 else 0
  }

  // Pairs counted by their later element.
  function PairCount(s: seq<int>, target: int): nat {
    if s == [] then 0 else
      PairCount(s[..|s| - 1], target) + Occurs(s[..|s| - 1], target - s[|s| - 1])
  }

  ghost function PairSet(s: seq<int>, target: int): set<(int, int)> {
    set i, j | 0 <= i < |s| && 0 <= j < |s| && IsPair(s, target, i, j) :: (i, j)
  }

  // The pairs of s that end at an occurrence of x, if the later element is put at n.
  ghost function EndingAt(s: seq<int>, x: int, n: int): set<(int, int)> {
    set i | 0 <= i < |s| && s[i] == x :: (i, n)
  }

  lemma {:induction false} OccursIsCardinality(s: seq<int>, x: int, n: int)
    ensures |EndingAt(s, x, n)| == Occurs(s, x)
  {
    if s == [] {
      assert EndingAt(s, x, n) == {};
    } else {
      var m := |s| - 1;
      OccursIsCardinality(s[..m], x, n);
      var more := if s[m] == x then {(m, n)} else {};
      assert EndingAt(s, x, n) == EndingAt(s[..m], x, n) + more;
    }
  }

  lemma InPairSet(s: seq<int>, target: int, i: int, j: int)
    ensures (i, j) in PairSet(s, target) <==> IsPair(s, target, i, j)
  {
  }

  lemma PairsSplit(s: seq<int>, target: int)
    requires s != []
    ensures var m := |s| - 1;
            PairSet(s, target) == PairSet(s[..m], target) + EndingAt(s[..m], target - s[m], m)
    ensures var m := |s| - 1;
            PairSet(s[..m], target) !! EndingAt(s[..m], target - s[m], m)
  {
    var m := |s| - 1;
    var t := s[..m];
    forall i, j
      ensures (i, j) in PairSet(s, target) <==>
              (i, j) in PairSet(t, target) || (i, j) in EndingAt(t, target - s[m], m)
    {
      InPairSet(s, target, i, j);
      InPairSet(t, target, i, j);
      assert (i, j) in EndingAt(t, target - s[m], m) <==> j == m && 0 <= i < m && t[i] == target - s[m];
    }
  }

  // PairCount is the number of index pairs i < j whose elements sum to the target.
  lemma {:induction false} PairCountIsCardinality(s: seq<int>, target: int)
    ensures |PairSet(s, target)| == PairCount(s, target)
  {
    if s == [] {
      assert PairSet(s, target) == {};
    } else {
      var m := |s| - 1;
      PairCountIsCardinality(s[..m], target);
      OccursIsCardinality(s[..m], target - s[m], m);
      PairsSplit(s, target);
    }
  }

  function Least(a: int, b: int): int {
    if a <= b then a else b
  }

  // The pairs whose smaller value lies in vs, counted by their later element.
  ghost function CountIn(s: seq<int>, target: int, vs: set<int>): nat {
    if s == [] then 0 else
      var m := |s| - 1;
      CountIn(s[..m], target, vs)
      + if Least(s[m], target - s[m]) in vs then Occurs(s[..m], target - s[m]) else 0
  }

  lemma {:induction false} CountInAdds(s: seq<int>, target: int, vs: set<int>, v: int)
    requires v !in vs
    ensures CountIn(s, target, vs + {v}) == CountIn(s, target, vs) + CountIn(s, target, {v})
  {
    if s != [] {
      CountInAdds(s[..|s| - 1], target, vs, v);
    }
  }

  lemma {:induction false} CountInNone(s: seq<int>, target: int)
    ensures CountIn(s, target, {}) == 0
  {
    if s != [] {
      CountInNone(s[..|s| - 1], target);
    }
  }

  lemma {:induction false} CountInAll(s: seq<int>, target: int, vs: set<int>)
    requires forall x :: x in s ==> x in vs
    ensures CountIn(s, target, vs) == PairCount(s, target)
  {
    if s != [] {
      var m := |s| - 1;
      CountInAll(s[..m], target, vs);
      assert s[m] in s;
      if target - s[m] !in vs {
        OccursNever(s[..m], target - s[m]);
      }
    }
  }

  lemma {:induction false} OccursNever(s: seq<int>, x: int)
    ensures Occurs(s, x) == 0 <==> x !in s
  {
    if s != [] {
      OccursNever(s[..|s| - 1], x);
      assert s == s[..|s| - 1] + [s[|s| - 1]];
    }
  }

  // The contribution of one value v, by the rule of the counter.
  function Contribution(s: seq<int>, target: int, v: int): nat {
    var w := target - v;
    if w == v then Choose2(Occurs(s, v)) else if v < w then Occurs(s, v) * Occurs(s, w) else 0
  }

  function Choose2(c: nat): nat {
    c * (c - 1) / 2
  }

  lemma Choose2Step(c: nat)
    ensures Choose2(c + 1) == Choose2(c) + c
  {
    assert (c + 1) * c == c * (c - 1) + 2 * c;
  }

  lemma Grows(c: nat, d: nat)
    ensures (c + 1) * d == c * d + d && c * (d + 1) == c * d + c
  {
  }

  // How the contribution of v grows when x is appended.
  lemma ContributionStep(s: seq<int>, target: int, v: int, x: int)
    ensures Contribution(s + [x], target, v) == Contribution(s, target, v) +
              if Least(x, target - x) == v then Occurs(s, target - x) else 0
  {
    var w := target - v;
    var cv, cw := Occurs(s, v), Occurs(s, w);
    assert (s + [x])[..|s|] == s;
    assert Occurs(s + [x], v) == cv + if x == v then 1 else 0;
    assert Occurs(s + [x], w) == cw + if x == w then 1 else 0;
    if w == v {
      Choose2Step(cv);
    } else if v < w {
      Grows(cv, cw);
    }
  }

  lemma {:induction false} ContributionCounts(s: seq<int>, target: int, v: int)
    ensures CountIn(s, target, {v}) == Contribution(s, target, v)
  {
    if s != [] {
      var m := |s| - 1;
      ContributionCounts(s[..m], target, v);
      ContributionStep(s[..m], target, v, s[m]);
      assert s[..m] + [s[m]] == s;
    }
  }

  // Each value of nums, once.
  ghost predicate Lists(order: seq<int>, nums: seq<int>) {
    (forall x :: x in order <==> x in nums)
    && forall i, j :: 0 <= i < j < |order| ==> order[i] != order[j]
  }

  /** Counting the values: the counter, and its keys in the order they were first met. */
  method Tally(nums: seq<int>) returns (counts: map<int, nat>, keys: seq<int>)
    ensures forall x :: x in counts <==> x in nums
    ensures forall x :: x in counts ==> counts[x] == Occurs(nums, x)
    ensures Lists(keys, nums)
  {
    counts, keys := map[], [];
    for n := 0 to |nums|
      invariant forall x :: x in counts <==> x in nums[..n]
      invariant forall x :: x in counts ==> counts[x] == Occurs(nums[..n], x)
      invariant Lists(keys, nums[..n])
    {
      var x := nums[n];
      OccursNever(nums[..n], x);
      assert nums[..n + 1] == nums[..n] + [x];
      assert nums[..n + 1][..n] == nums[..n];
      if x in counts {
        counts := counts[x := counts[x] + 1];
      } else {
        counts, keys := counts[x := 1], keys + [x];
      }
    }
    assert nums[..|nums|] == nums;
  }

  /** The linear-time sum over the counter, for every order in which its values can be visited. */
  method AddUp(nums: seq<int>, target: int, counts: map<int, nat>, order: seq<int>) returns (total: nat)
    requires forall x :: x in counts <==> x in nums
    requires forall x :: x in counts ==> counts[x] == Occurs(nums, x)
    requires Lists(order, nums)
    ensures total == PairCount(nums, target)
  {
    total := 0;
    ghost var done: set<int> := {};
    CountInNone(nums, target);
    for n := 0 to |order|
      invariant forall x :: x in done <==> x in order[..n]
      invariant total == CountIn(nums, target, done)
    {
      var v := order[n];
      assert v in order;
      CountInAdds(nums, target, done, v);
      ContributionCounts(nums, target, v);
      done := done + {v};
      var cv, w := counts[v], target - v;
      if w !in counts {
        OccursNever(nums, w);
        assert Contribution(nums, target, v) == 0;
        continue;
      }
      if w == v {
        total := total + Choose2(cv);
      } else if v < w {
        total := total + cv * counts[w];
      }
    }
    assert order[..|order|] == order;
    CountInAll(nums, target, done);
  }

  /** The counter's answer is the number of index pairs. */
  method CountPairs(nums: seq<int>, target: int) returns (total: nat)
    ensures total == |PairSet(nums, target)|
  {
    var counts, keys := Tally(nums);
    total := AddUp(nums, target, counts, keys);
    PairCountIsCardinality(nums, target);
  }

  // A count of one means one pair and no other.
  lemma CountOneIsUnique(nums: seq<int>, target: int, i: int, j: int)
    requires IsPair(nums, target, i, j)
    ensures PairCount(nums, target) == 1 <==> forall a, b :: IsPair(nums, target, a, b) ==> a == i && b == j
  {
    PairCountIsCardinality(nums, target);
    var ps := PairSet(nums, target);
    InPairSet(nums, target, i, j);
    if |ps| == 1 {
      assert |ps - {(i, j)}| == 0;
      assert ps == {(i, j)} by {
        assert ps - {(i, j)} == {};
      }
      forall a, b | IsPair(nums, target, a, b) ensures a == i && b == j {
        InPairSet(nums, target, a, b);
      }
    }
    if forall a, b :: IsPair(nums, target, a, b) ==> a == i && b == j {
      assert ps == {(i, j)};
    }
  }

  // With one pair only, both programs find it, and the number of sums tested is known.
  lemma OnePairDecides(nums: seq<int>, target: int, i: int, j: int,
                       fast: Option<(int, int)>, slow: Option<(int, int)>, tests: nat)
    requires IsPair(nums, target, i, j) && PairCount(nums, target) == 1
    requires SinglePassAnswer(nums, target, fast)
    requires NestedLoopAnswer(nums, target, slow, tests)
    ensures fast == slow == Some((i, j))
    ensures 2 * tests == i * (2 * |nums| - 1 - i) + 2 * (j - i)
  {
    CountOneIsUnique(nums, target, i, j);
    TestsClosedForm(|nums|, i);
  }

  // The answers are not only allowed by the descriptions above but fixed by them.
  lemma AnswersAreFixed(nums: seq<int>, target: int, r: Option<(int, int)>, r': Option<(int, int)>,
                        tests: nat, tests': nat)
    ensures SinglePassAnswer(nums, target, r) && SinglePassAnswer(nums, target, r') ==> r == r'
    ensures NestedLoopAnswer(nums, target, r, tests) && NestedLoopAnswer(nums, target, r', tests') ==>
              r == r' && tests == tests'
  {
    if r.Some? {
      assert SinglePassAnswer(nums, target, r) ==> IsPair(nums, target, r.value.0, r.value.1);
      assert NestedLoopAnswer(nums, target, r, tests) ==> IsPair(nums, target, r.value.0, r.value.1);
    }
    if r'.Some? {
      assert SinglePassAnswer(nums, target, r') ==> IsPair(nums, target, r'.value.0, r'.value.1);
      assert NestedLoopAnswer(nums, target, r', tests') ==> IsPair(nums, target, r'.value.0, r'.value.1);
    }
  }
}
