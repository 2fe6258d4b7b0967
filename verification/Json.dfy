/** The JSON that passes between the seed, the sandbox and the harness: integers, lists of them, and
  * the object that holds one test's input. */
module Json {
  import opened Text

  // ---------------------------------------------------------------- writing, as json.dumps does

  function Decimals(xs: seq<int>): (r: seq<string>)
    ensures |r| == |xs|
  {
    seq(|xs|, i requires 0 <= i < |xs| => Decimal(xs[i]))
  }

  function DumpList(xs: seq<int>): string {
    "[" + Join(", ", Decimals(xs)) + "]"
  }

  const NUMS := "{\"nums\": "
  const TARGET := ", \"target\": "

  function DumpData(nums: seq<int>, target: int): string {
    NUMS + DumpList(nums) + (TARGET + Decimal(target) + "}")
  }

  // ---------------------------------------------------------------- reading, digit by digit

  function Value(s: string): nat
    requires Solid(NonDigit, s)
  {
    if s == "" then 0 else 10 * Value(s[..|s| - 1]) + (s[|s| - 1] as int - '0' as int)
  }

  // A leading zero is no numeral.
  predicate Numeral(s: string) {
    s != "" && Solid(NonDigit, s) && (s[0] == '0' ==> |s| == 1)
  }

  function ReadNat(s: string): Option<(int, string)> {
    var d := Head(NonDigit, s);
    if Numeral(d) then Some((Value(d), s[|d|..])) else None
  }

  // The number a text starts with, and what follows it.
  function ReadInt(s: string): (r: Option<(int, string)>)
    ensures r.Some? ==> |r.value.1| < |s|
  {
    if "-" <= s then
      var n := ReadNat(s[1..]);
      if n.Some? then Some((-n.value.0, n.value.1)) else None
    else ReadNat(s)
  }

  function ReadItems(s: string): Option<(seq<int>, string)>
    decreases |s|
  {
    match ReadInt(s)
    case None => None
    case Some((n, rest)) =>
      if ", " <= rest then
        match ReadItems(rest[2..])
        case None => None
        case Some((more, after)) => Some(([n] + more, after))
      else if "]" <= rest then Some(([n], rest[1..]))
      else None
  }

  // The list a text starts with, in the spacing json.dumps uses.
  function ReadList(s: string): Option<(seq<int>, string)> {
    if "[]" <= s then Some(([], s[2..]))
    else if "[" <= s then ReadItems(s[1..])
    else None
  }

  function ReadData(s: string): Option<(seq<int>, int)> {
    if !(NUMS <= s) then None else
      match ReadList(s[|NUMS|..])
      case None => None
      case Some((nums, rest)) =>
        if !(TARGET <= rest) then None else
          match ReadInt(rest[|TARGET|..])
          case None => None
          case Some((target, end)) => if end == "}" then Some((nums, target)) else None
  }

  // ---------------------------------------------------------------- round trips

  lemma DigitValue(d: nat)
    requires d < 10
    ensures !Splits(NonDigit, Digit(d)) && Digit(d) as int - '0' as int == d && (Digit(d) == '0' <==> d == 0)
  {
  }

  /** A number's digits evaluate to it, and it has no leading zero. */
  lemma {:induction false} DecimalValue(n: nat)
    ensures Numeral(DecimalNat(n)) && Value(DecimalNat(n)) == n
    ensures DecimalNat(n)[0] == '0' <==> n == 0
  {
    DigitValue(n % 10);
    if n >= 10 {
      DecimalValue(n / 10);
      var front, s := DecimalNat(n / 10), DecimalNat(n);
      assert s[..|s| - 1] == front && s[0] == front[0];
    } else {
      assert DecimalNat(n)[..0] == "";
    }
  }

  /** And every numeral is the decimal of its value. */
  lemma {:induction false} NumeralIsDecimal(s: string)
    requires Numeral(s)
    ensures DecimalNat(Value(s)) == s
    ensures s[0] != '0' ==> Value(s) > 0
    decreases |s|
  {
    var front, d := s[..|s| - 1], s[|s| - 1];
    assert !Splits(NonDigit, d);
    assert s == front + [d];
    if |s| == 1 {
      assert Value(front) == 0;
    } else {
      assert front[0] == s[0];
      NumeralIsDecimal(front);
    }
  }

  lemma NatReadsBack(n: nat, rest: string)
    requires rest == "" || Splits(NonDigit, rest[0])
    ensures ReadNat(DecimalNat(n) + rest) == Some((n, rest))
  {
    DecimalValue(n);
    HeadIs(NonDigit, DecimalNat(n), rest);
    assert (DecimalNat(n) + rest)[|DecimalNat(n)|..] == rest;
  }

  lemma SignedReads(t: string)
    ensures ReadInt("-" + t) == if ReadNat(t).None? then None else Some((-ReadNat(t).value.0, ReadNat(t).value.1))
  {
    assert ("-" + t)[1..] == t;
  }

  lemma IntReadsBack(n: int, rest: string)
    requires rest == "" || Splits(NonDigit, rest[0])
    ensures ReadInt(Decimal(n) + rest) == Some((n, rest))
  {
    hide ReadNat, DecimalNat, Splits;
    if n < 0 {
      NatReadsBack(-n, rest);
      SignedReads(DecimalNat(-n) + rest);
      assert Decimal(n) + rest == "-" + (DecimalNat(-n) + rest);
    } else {
      NatReadsBack(n, rest);
      SignShows(n);
      assert (Decimal(n) + rest)[0] == Decimal(n)[0];
    }
  }

  lemma LastItem(n: int, rest: string)
    ensures ReadItems(Decimal(n) + ("]" + rest)) == Some(([n], rest))
  {
    hide ReadInt;
    IntReadsBack(n, "]" + rest);
    assert ("]" + rest)[1..] == rest;
  }

  lemma NextItem(n: int, more: string)
    ensures var r := ReadItems(more);
            ReadItems(Decimal(n) + (", " + more)) == if r.None? then None else Some(([n] + r.value.0, r.value.1))
  {
    hide ReadInt;
    IntReadsBack(n, ", " + more);
    assert (", " + more)[2..] == more;
  }

  lemma {:induction false} ItemsReadBack(xs: seq<int>, rest: string)
    requires xs != []
    ensures ReadItems(Join(", ", Decimals(xs)) + ("]" + rest)) == Some((xs, rest))
    decreases |xs|
  {
    hide ReadItems, Decimal;
    if |xs| == 1 {
      LastItem(xs[0], rest);
      assert Join(", ", Decimals(xs)) == Decimal(xs[0]) && xs == [xs[0]];
    } else {
      var more := Join(", ", Decimals(xs[1..])) + ("]" + rest);
      NextItem(xs[0], more);
      ItemsReadBack(xs[1..], rest);
      JoinFirst(xs, "]" + rest);
      assert [xs[0]] + xs[1..] == xs;
    }
  }

  lemma JoinFirst(xs: seq<int>, rest: string)
    requires |xs| > 1
    ensures Join(", ", Decimals(xs)) + rest == Decimal(xs[0]) + (", " + (Join(", ", Decimals(xs[1..])) + rest))
  {
    assert Decimals(xs)[1..] == Decimals(xs[1..]);
    var a, b := Decimal(xs[0]), Join(", ", Decimals(xs[1..]));
    assert a + ", " + b + rest == a + (", " + (b + rest));
  }

  /** A list that was written is read back, whatever follows. */
  lemma ListReadsBack(xs: seq<int>, rest: string)
    ensures ReadList(DumpList(xs) + rest) == Some((xs, rest))
  {
    var s := DumpList(xs) + rest;
    if xs == [] {
      assert s == "[]" + rest;
    } else {
      var items := Join(", ", Decimals(xs)) + ("]" + rest);
      assert s == "[" + items && s[1..] == items;
      ItemsReadBack(xs, rest);
      FirstOfItems(xs, rest);
    }
  }

  // A number does not start with a bracket.
  lemma FirstOfItems(xs: seq<int>, rest: string)
    requires xs != []
    ensures var items := Join(", ", Decimals(xs)) + ("]" + rest); items[0] != ']'
  {
    DecimalValue(if xs[0] < 0 then -xs[0] else xs[0]);
    assert Join(", ", Decimals(xs))[0] == Decimal(xs[0])[0];
  }

  lemma DumpInjective(xs: seq<int>, ys: seq<int>)
    ensures DumpList(xs) == DumpList(ys) <==> xs == ys
  {
    ListReadsBack(xs, "");
    ListReadsBack(ys, "");
  }

  /** The input of a test is read back whole. */
  lemma DataReadsBack(nums: seq<int>, target: int)
    ensures ReadData(DumpData(nums, target)) == Some((nums, target))
  {
    hide ReadList, ReadInt, DumpList;
    var end := Decimal(target) + "}";
    var rest := TARGET + end;
    assert TARGET + Decimal(target) + "}" == rest;
    DropFront(NUMS, DumpList(nums), rest);
    ListReadsBack(nums, rest);
    DropFront(TARGET, end, "");
    IntReadsBack(target, "}");
  }

  lemma DropFront(a: string, b: string, c: string)
    ensures a <= a + b + c && (a + b + c)[|a|..] == b + c
    ensures a <= a + b && (a + b)[|a|..] == b
  {
  }
}
