/** The ASCII text primitives the services share: whitespace, case, words, lines.
  *
  * Characters outside ASCII are ordinary characters here: neither whitespace nor
  * word characters, and unchanged by lowering.
  */
module Text {

  datatype Option<+T> = None | Some(value: T)

  // ---------------------------------------------------------------- characters

  predicate IsSpace(c: char) {
    c == ' ' || '\t' <= c <= '\r' || '\U{1C}' <= c <= '\U{1F}'
  }

  predicate IsWord(c: char) {
    'a' <= c <= 'z' || 'A' <= c <= 'Z' || '0' <= c <= '9' || c == '_'
  }

  function LowerChar(c: char): char {
    if 'A' <= c <= 'Z' then (c as int + 32) as char else c
  }

  function Lower(s: string): (r: string)
    ensures |r| == |s|
    ensures forall i :: 0 <= i < |s| ==> r[i] == LowerChar(s[i])
  {
    seq(|s|, i requires 0 <= i < |s| => LowerChar(s[i]))
  }

  lemma LowerConcat(a: string, b: string)
    ensures Lower(a + b) == Lower(a) + Lower(b)
  {
  }

  // ---------------------------------------------------------------- splitting

  // What a text is split at: whitespace, anything but a word character, line breaks, anything but
  // a digit.
  datatype Separator = Space | NonWord | LineBreak | NonDigit

  predicate Splits(sep: Separator, c: char) {
    match sep
    case Space => IsSpace(c)
    case NonWord => !IsWord(c)
    case LineBreak => IsLineBreak(c)
    case NonDigit => !('0' <= c <= '9')
  }

  // Drops the leading separators.
  function DropLeading(sep: Separator, s: string): (r: string)
    ensures |r| <= |s|
    ensures r == [] || !Splits(sep, r[0])
  {
    if s == [] || !Splits(sep, s[0]) then s else DropLeading(sep, s[1..])
  }

  lemma {:induction false} DropLeadingShape(sep: Separator, s: string)
    ensures var r := DropLeading(sep, s);
            && r == s[|s| - |r|..]
            && forall i :: 0 <= i < |s| - |r| ==> Splits(sep, s[i])
    decreases |s|
  {
    if s != [] && Splits(sep, s[0]) {
      DropLeadingShape(sep, s[1..]);
      var r := DropLeading(sep, s);
      forall i | 0 <= i < |s| - |r| ensures Splits(sep, s[i]) {
        if i > 0 { assert s[1..][i - 1] == s[i]; }
      }
    }
  }

  // No character of w is a separator.
  predicate Solid(sep: Separator, w: string) {
    forall k :: 0 <= k < |w| ==> !Splits(sep, w[k])
  }

  // The longest prefix without a separator.
  function Head(sep: Separator, s: string): (w: string)
    ensures |w| <= |s|
    ensures w == [] <==> s == [] || Splits(sep, s[0])
  {
    if s == [] || Splits(sep, s[0]) then [] else [s[0]] + Head(sep, s[1..])
  }

  lemma {:induction false} HeadShape(sep: Separator, s: string)
    ensures var w := Head(sep, s);
            && w == s[..|w|] && Solid(sep, w)
            && (|w| == |s| || Splits(sep, s[|w|]))
    decreases |s|
  {
    if s != [] && !Splits(sep, s[0]) {
      HeadShape(sep, s[1..]);
      var tail := Head(sep, s[1..]);
      assert Head(sep, s) == [s[0]] + tail;
      if |tail| < |s| - 1 { assert s[1..][|tail|] == s[1 + |tail|]; }
    }
  }

  // The maximal separator-free pieces, in order.
  function Pieces(sep: Separator, s: string): seq<string>
    decreases |s|
  {
    var t := DropLeading(sep, s);
    if t == [] then [] else
      var w := Head(sep, t);
      [w] + Pieces(sep, t[|w|..])
  }

  // str.split() with no argument.
  function Words(s: string): seq<string> {
    Pieces(Space, s)
  }

  // The maximal runs of word characters.
  function Tokens(s: string): seq<string> {
    Pieces(NonWord, s)
  }

  // w stands at position i of s with a separator, or an end of s, on either side.
  ghost predicate StandsAt(sep: Separator, s: string, w: string, i: int) {
    && At(s, i, w) && w != [] && Solid(sep, w)
    && (i == 0 || Splits(sep, s[i - 1]))
    && (i + |w| == |s| || Splits(sep, s[i + |w|]))
  }

  // The splitter returns exactly the words that stand somewhere in the text.
  lemma PieceStands(sep: Separator, s: string, w: string)
    ensures w in Pieces(sep, s) <==> exists i :: StandsAt(sep, s, w, i)
  {
    if w in Pieces(sep, s) {
      var i := PieceHasPlace(sep, s, w);
    }
    if i :| StandsAt(sep, s, w, i) {
      PlaceHasPiece(sep, s, w, i);
    }
  }

  // s without its leading separators, its first piece h, and what follows h.
  ghost predicate FirstPiece(sep: Separator, s: string, d: nat, h: string) {
    && d + |h| <= |s|
    && Solid(sep, h)
    && s[d..d + |h|] == h
    && (forall k :: 0 <= k < d ==> Splits(sep, s[k]))
    && (d + |h| == |s| || Splits(sep, s[d + |h|]))
    && (h == [] ==> d == |s|)
  }

  lemma FirstPieceEnds(sep: Separator, s: string, d: nat, h: string)
    requires FirstPiece(sep, s, d, h)
    ensures d + |h| <= |s| && (d + |h| == |s| || Splits(sep, s[d + |h|]))
  {
  }

  lemma FirstPieceOf(sep: Separator, s: string) returns (d: nat, h: string)
    ensures FirstPiece(sep, s, d, h)
    ensures Pieces(sep, s) == if h == [] then [] else [h] + Pieces(sep, s[d + |h|..])
  {
    var t := DropLeading(sep, s);
    DropLeadingShape(sep, s);
    HeadShape(sep, t);
    d, h := |s| - |t|, Head(sep, t);
    assert t[|h|..] == s[d + |h|..];
    assert t[..|h|] == s[d..d + |h|];
    if |h| < |t| { assert t[|h|] == s[d + |h|]; }
  }

  lemma {:induction false} PieceHasPlace(sep: Separator, s: string, w: string) returns (i: int)
    requires w in Pieces(sep, s)
    ensures StandsAt(sep, s, w, i)
    decreases |s|
  {
    hide Splits, Solid, FirstPiece, StandsAt, Pieces;
    var d, h, later := FirstOrLater(sep, s, w);
    FirstPieceEnds(sep, s, d, h);
    var off := d + |h|;
    if later {
      var k := PieceHasPlace(sep, s[off..], w);
      ShiftPlace(sep, s, off, w, k);
      i := off + k;
    } else {
      i := d;
    }
  }

  // A piece is the first one, which stands where it was found, or a piece of what follows.
  lemma FirstOrLater(sep: Separator, s: string, w: string) returns (d: nat, h: string, later: bool)
    requires w in Pieces(sep, s)
    ensures FirstPiece(sep, s, d, h) && h != []
    ensures if later then w in Pieces(sep, s[d + |h|..]) else StandsAt(sep, s, w, d)
  {
    d, h := FirstPieceOf(sep, s);
    later := w != h;
  }

  lemma ShiftPlace(sep: Separator, s: string, off: nat, w: string, k: int)
    requires off <= |s| && (off == |s| || Splits(sep, s[off]))
    ensures StandsAt(sep, s[off..], w, k) ==> StandsAt(sep, s, w, off + k)
    ensures k > 0 && StandsAt(sep, s, w, off + k) ==> StandsAt(sep, s[off..], w, k)
  {
    var rest := s[off..];
    if 0 <= k && k + |w| <= |rest| {
      assert rest[k..k + |w|] == s[off + k..off + k + |w|];
      if w != [] {
        assert rest[k..k + |w|][0] == rest[k];
      }
    }
  }

  lemma {:induction false} PlaceHasPiece(sep: Separator, s: string, w: string, i: int)
    requires StandsAt(sep, s, w, i)
    ensures w in Pieces(sep, s)
    decreases |s|
  {
    hide Splits, Solid, FirstPiece, StandsAt, Pieces;
    var d, h := FirstPieceOf(sep, s);
    PlaceIsFirstOrLater(sep, s, w, i, d, h);
    FirstPieceEnds(sep, s, d, h);
    if w != h {
      var off := d + |h|;
      ShiftPlace(sep, s, off, w, i - off);
      PlaceHasPiece(sep, s[off..], w, i - off);
    }
  }

  lemma PlaceIsFirstOrLater(sep: Separator, s: string, w: string, i: int, d: nat, h: string)
    requires StandsAt(sep, s, w, i)
    requires FirstPiece(sep, s, d, h)
    ensures h != [] && (w == h || i > d + |h|)
  {
    assert forall k :: i <= k < i + |w| ==> s[k] == s[i..i + |w|][k - i] == w[k - i];
    assert forall k :: d <= k < d + |h| ==> s[k] == s[d..d + |h|][k - d] == h[k - d];
    assert !Splits(sep, s[i]);
    if i < d + |h| {
      assert i == d;
      assert |w| == |h|;
      assert w == h;
    } else {
      assert i != d + |h|;
    }
  }

  // Separators in front change nothing, and a leading piece splits off whole.
  lemma PiecesAfter(sep: Separator, gap: string, w: string, rest: string)
    requires forall k :: 0 <= k < |gap| ==> Splits(sep, gap[k])
    requires w != [] && Solid(sep, w)
    requires rest == [] || Splits(sep, rest[0])
    ensures Pieces(sep, gap + w + rest) == [w] + Pieces(sep, rest)
  {
    var s, t := gap + w + rest, w + rest;
    assert s == gap + t;
    DropGap(sep, gap, t);
    assert t[0] == w[0];
    assert DropLeading(sep, s) == t;
    HeadIs(sep, w, rest);
    assert t[|w|..] == rest;
  }

  lemma {:induction false} DropGap(sep: Separator, gap: string, s: string)
    requires forall k :: 0 <= k < |gap| ==> Splits(sep, gap[k])
    ensures DropLeading(sep, gap + s) == DropLeading(sep, s)
    decreases |gap|
  {
    if gap == [] {
      assert gap + s == s;
    } else {
      assert (gap + s)[1..] == gap[1..] + s;
      DropGap(sep, gap[1..], s);
    }
  }

  lemma {:induction false} HeadIs(sep: Separator, w: string, rest: string)
    requires Solid(sep, w)
    requires rest == [] || Splits(sep, rest[0])
    ensures Head(sep, w + rest) == w
    decreases |w|
  {
    if w == [] {
      assert w + rest == rest;
    } else {
      assert (w + rest)[1..] == w[1..] + rest;
      HeadIs(sep, w[1..], rest);
    }
  }

  // ---------------------------------------------------------------- strip

  function DropTrailing(s: string): (r: string)
    ensures |r| <= |s| && r == s[..|r|]
    ensures r == [] || !IsSpace(r[|r| - 1])
    ensures forall i :: |r| <= i < |s| ==> IsSpace(s[i])
  {
    if s == [] || !IsSpace(s[|s| - 1]) then s else DropTrailing(s[..|s| - 1])
  }

  // str.strip()
  function Strip(s: string): string {
    DropTrailing(DropLeading(Space, s))
  }

  lemma StripShape(s: string)
    ensures |Strip(s)| <= |s|
    ensures Strip(s) == [] <==> forall k :: 0 <= k < |s| ==> IsSpace(s[k])
    ensures Strip(s) != [] ==> !IsSpace(Strip(s)[0]) && !IsSpace(Strip(s)[|Strip(s)| - 1])
  {
    var t := DropLeading(Space, s);
    var r := DropTrailing(t);
    DropLeadingShape(Space, s);
    if t != [] {
      assert t[0] == s[|s| - |t|];
      assert exists k :: 0 <= k < |t| && !IsSpace(t[k]);
    }
  }

  // What is between the white space at the two ends is what is left.
  lemma StripIs(a: string, t: string, b: string)
    requires forall k :: 0 <= k < |a| ==> IsSpace(a[k])
    requires forall k :: 0 <= k < |b| ==> IsSpace(b[k])
    requires t == "" || (!IsSpace(t[0]) && !IsSpace(t[|t| - 1]))
    ensures Strip(a + t + b) == t
  {
    var s := a + t + b;
    if t == "" {
      StripShape(s);
    } else {
      DropGap(Space, a, t + b);
      assert s == a + (t + b);
      assert DropLeading(Space, t + b) == t + b;
      var r := DropTrailing(t + b);
      assert (t + b)[|t| - 1] == t[|t| - 1];
      assert forall k :: |t| <= k < |t + b| ==> IsSpace((t + b)[k]);
      assert |r| == |t|;
      assert (t + b)[..|t|] == t;
    }
  }

  lemma StripIsBlank(s: string)
    ensures Strip(s) == "" <==> forall k :: 0 <= k < |s| ==> IsSpace(s[k])
  {
    StripShape(s);
  }

  // Some character of the text is not white space.
  ghost predicate SaysSomething(s: string) {
    exists k :: 0 <= k < |s| && !IsSpace(s[k])
  }

  // ---------------------------------------------------------------- substrings

  predicate At(s: string, i: int, w: string) {
    0 <= i && i + |w| <= |s| && s[i..i + |w|] == w
  }

  predicate Contains(s: string, w: string) {
    exists i :: 0 <= i <= |s| && At(s, i, w)
  }

  lemma Inside(a: string, s: string, b: string, w: string)
    requires Contains(s, w)
    ensures Contains(a + s + b, w)
  {
    var i :| 0 <= i <= |s| && At(s, i, w);
    assert (a + s + b)[|a| + i..|a| + i + |w|] == s[i..i + |w|];
    assert At(a + s + b, |a| + i, w);
  }

  function SkipSpaces(s: string, i: int): (j: int)
    requires 0 <= i <= |s|
    ensures i <= j <= |s|
    ensures forall k :: i <= k < j ==> IsSpace(s[k])
    ensures j == |s| || !IsSpace(s[j])
    decreases |s| - i
  {
    if i == |s| || !IsSpace(s[i]) then i else SkipSpaces(s, i + 1)
  }

  // ---------------------------------------------------------------- lines

  predicate IsLineBreak(c: char) {
    '\n' <= c <= '\r' || '\U{1C}' <= c <= '\U{1E}'
  }

  // str.splitlines(): a carriage return followed by a newline is one break, and a
  // final break opens no further line.
  function SplitLines(s: string): seq<string>
    decreases |s|
  {
    if s == [] then [] else
      var h := Head(LineBreak, s);
      var rest := s[|h|..];
      if rest == [] then [h]
      else if At(rest, 0, "\r\n") then [h] + SplitLines(rest[2..])
      else [h] + SplitLines(rest[1..])
  }

  // A line with the break that ends it.
  datatype Ended = Ended(line: string, end: string)

  predicate IsBreak(end: string) {
    end == "\r\n" || (|end| == 1 && IsLineBreak(end[0]))
  }

  function Glue(ls: seq<Ended>): string {
    if ls == [] then "" else ls[0].line + ls[0].end + Glue(ls[1..])
  }

  function LinesOf(ls: seq<Ended>): (lines: seq<string>)
    ensures |lines| == |ls|
    ensures forall k :: 0 <= k < |ls| ==> lines[k] == ls[k].line
  {
    seq(|ls|, i requires 0 <= i < |ls| => ls[i].line)
  }

  // Only the last line may lack a break, if there is something on it; and no break is one half
  // of a longer one.
  predicate WellEnded(ls: seq<Ended>) {
    ls == [] || (
      && Solid(LineBreak, ls[0].line) && WellEnded(ls[1..])
      && if |ls| == 1 && ls[0].end == "" then ls[0].line != ""
         else IsBreak(ls[0].end) && !(ls[0].end == "\r" && "\n" <= Glue(ls[1..])))
  }

  // A line and its break, whichever it is, split off whole.
  lemma LineThen(h: string, end: string, rest: string)
    requires Solid(LineBreak, h) && IsBreak(end) && !(end == "\r" && "\n" <= rest)
    ensures SplitLines(h + end + rest) == [h] + SplitLines(rest)
  {
    var s, t := h + end + rest, end + rest;
    assert s == h + t && IsLineBreak(t[0]);
    HeadIs(LineBreak, h, t);
    assert s[|h|..] == t;
    CarriageReturn(t);
    assert rest != "" && rest[0] == '\n' ==> "\n" <= rest;
    assert if |end| == 2 then t[2..] == rest else t[1..] == rest;
  }

  lemma CarriageReturn(t: string)
    ensures At(t, 0, "\r\n") <==> |t| >= 2 && t[0] == '\r' && t[1] == '\n'
  {
    if |t| >= 2 && t[0] == '\r' && t[1] == '\n' {
      assert t[0..2] == "\r\n";
    }
  }

  // The first line of a text, the break that ends it, and what follows.
  lemma FirstLine(s: string) returns (h: string, end: string, rest: string)
    requires s != ""
    ensures s == h + end + rest && SplitLines(s) == [h] + SplitLines(rest)
    ensures Solid(LineBreak, h)
    ensures if end == "" then rest == "" && h != "" else IsBreak(end) && !(end == "\r" && "\n" <= rest)
  {
    HeadShape(LineBreak, s);
    h := Head(LineBreak, s);
    var t := s[|h|..];
    end := if t == "" then "" else if At(t, 0, "\r\n") then "\r\n" else t[..1];
    rest := t[|end|..];
    CarriageReturn(t);
    assert t == end + rest && s == h + t;
    assert rest != "" ==> t[|end|] == rest[0];
  }

  lemma LastLine(h: string)
    requires Solid(LineBreak, h) && h != ""
    ensures SplitLines(h) == [h]
  {
    HeadIs(LineBreak, h, "");
    assert h + "" == h && h[|h|..] == "";
  }

  /** The lines of a text, each with its break, are read back from it, whatever the breaks. */
  lemma {:induction false} LinesReadBack(ls: seq<Ended>)
    requires WellEnded(ls)
    ensures SplitLines(Glue(ls)) == LinesOf(ls)
    decreases |ls|
  {
    if ls != [] {
      var h, end := ls[0].line, ls[0].end;
      if |ls| == 1 && end == "" {
        LastLine(h);
        assert Glue(ls[1..]) == "" && Glue(ls) == h;
      } else {
        LineThen(h, end, Glue(ls[1..]));
        LinesReadBack(ls[1..]);
      }
    }
  }

  /** And every text is such lines. */
  lemma {:induction false} EveryTextIsLines(s: string) returns (ls: seq<Ended>)
    ensures WellEnded(ls) && Glue(ls) == s
    decreases |s|
  {
    ls := [];
    if s != "" {
      var h, end, rest := FirstLine(s);
      var more := EveryTextIsLines(rest);
      ls := [Ended(h, end)] + more;
      assert ls[1..] == more;
    }
  }

  // A text that ends in a newline: its first line has a break, and the rest, if any, ends in one.
  lemma NewlineEnds(h: string, end: string, rest: string)
    requires var a := h + end + rest; a != "" && a[|a| - 1] == '\n'
    requires Solid(LineBreak, h) && (end == "" ==> rest == "")
    ensures end != "" && if rest == "" then end[|end| - 1] == '\n' else rest[|rest| - 1] == '\n'
  {
    var a := h + end + rest;
    assert h != "" ==> !Splits(LineBreak, h[|h| - 1]);
    assert end == "" ==> a == h;
    if rest != "" {
      assert a[|a| - 1] == rest[|rest| - 1];
    } else if end != "" {
      assert a[|a| - 1] == end[|end| - 1];
    } else {
      assert false;
    }
  }

  // A break stays whole when text follows the rest.
  lemma BreakStaysWhole(end: string, rest: string, b: string)
    requires !(end == "\r" && "\n" <= rest)
    requires rest == "" && end != "" ==> end[|end| - 1] == '\n'
    ensures !(end == "\r" && "\n" <= rest + b)
  {
    if rest != "" && "\n" <= rest + b {
      assert (rest + b)[0] == rest[0];
    }
  }

  // The same line splits off when text follows the rest.
  lemma LineStays(h: string, end: string, rest: string, b: string)
    requires Solid(LineBreak, h) && IsBreak(end) && !(end == "\r" && "\n" <= rest + b)
    ensures SplitLines(h + end + rest + b) == [h] + SplitLines(rest + b)
  {
    assert h + end + rest + b == h + end + (rest + b);
    LineThen(h, end, rest + b);
  }

  // The text reads as these lines.
  ghost predicate ReadsAs(s: string, ls: seq<Ended>) {
    WellEnded(ls) && Glue(ls) == s
  }

  // In one way only: the one the splitter finds.
  lemma OneReading(s: string)
    ensures exists ls :: ReadsAs(s, ls)
    ensures forall ls :: ReadsAs(s, ls) ==> LinesOf(ls) == SplitLines(s)
  {
    var some := EveryTextIsLines(s);
    assert ReadsAs(s, some);
    forall ls | ReadsAs(s, ls) ensures LinesOf(ls) == SplitLines(s) {
      LinesReadBack(ls);
    }
  }

  // Splitting after a newline changes nothing.
  lemma {:induction false} SplitAfterNewline(a: string, b: string)
    requires a == "" || a[|a| - 1] == '\n'
    ensures SplitLines(a + b) == SplitLines(a) + SplitLines(b)
    decreases |a|
  {
    hide SplitLines;
    if a == "" {
      NoLineInFront(b);
    } else {
      var h, rest := SplitFirst(a, b);
      SplitAfterNewline(rest, b);
      Associate([h], SplitLines(rest), SplitLines(b));
    }
  }

  lemma Associate<T>(a: seq<T>, b: seq<T>, c: seq<T>)
    ensures a + (b + c) == a + b + c
  {
  }

  lemma NoLineInFront(b: string)
    ensures SplitLines("" + b) == SplitLines("") + SplitLines(b)
  {
    assert "" + b == b;
  }

  lemma SplitFirst(a: string, b: string) returns (h: string, rest: string)
    requires a != "" && a[|a| - 1] == '\n'
    ensures |rest| < |a| && (rest == "" || rest[|rest| - 1] == '\n')
    ensures SplitLines(a) == [h] + SplitLines(rest) && SplitLines(a + b) == [h] + SplitLines(rest + b)
  {
    hide SplitLines, Solid, IsBreak;
    var end;
    h, end, rest := FirstLine(a);
    NewlineEnds(h, end, rest);
    BreakStaysWhole(end, rest, b);
    LineStays(h, end, rest, b);
  }

  // Lines joined by newlines are read back, and what follows does not touch them.
  lemma {:induction false} JoinedLinesLead(lines: seq<string>, after: string)
    requires forall k :: 0 <= k < |lines| ==> Solid(LineBreak, lines[k]) && lines[k] != ""
    requires after == "" || IsLineBreak(after[0])
    ensures lines <= SplitLines(Join("\n", lines) + after)
    decreases |lines|
  {
    if |lines| == 1 {
      LineLeads(lines[0], after);
    } else if |lines| > 1 {
      hide SplitLines, Solid;
      LineStays(lines[0], "\n", Join("\n", lines[1..]), after);
      JoinedLinesLead(lines[1..], after);
    }
  }

  lemma LineLeads(h: string, after: string)
    requires Solid(LineBreak, h) && h != ""
    requires after == "" || IsLineBreak(after[0])
    ensures [h] <= SplitLines(h + after)
  {
    HeadIs(LineBreak, h, after);
    assert (h + after)[|h|..] == after;
  }

  // ---------------------------------------------------------------- numbers

  function Digit(d: int): char
    requires 0 <= d < 10
  {
    ('0' as int + d) as char
  }

  function DecimalNat(n: nat): (s: string)
    ensures s != [] && forall c :: c in s ==> '0' <= c <= '9'
  {
    if n < 10 then [Digit(n)] else DecimalNat(n / 10) + [Digit(n % 10)]
  }

  // str(n) for an integer.
  function Decimal(n: int): (s: string)
    ensures s != [] && ':' !in s && ',' !in s
  {
    if n < 0 then "-" + DecimalNat(-n) else DecimalNat(n)
  }

  lemma {:induction false} DecimalNatInjective(a: nat, b: nat)
    requires DecimalNat(a) == DecimalNat(b)
    ensures a == b
  {
    var s, t := DecimalNat(a), DecimalNat(b);
    assert |s| == 1 <==> a < 10;
    assert |t| == 1 <==> b < 10;
    assert s[|s| - 1] == Digit(a % 10) && t[|t| - 1] == Digit(b % 10);
    if a >= 10 {
      assert s[..|s| - 1] == DecimalNat(a / 10) && t[..|t| - 1] == DecimalNat(b / 10);
      DecimalNatInjective(a / 10, b / 10);
    }
  }

  lemma SignShows(n: int)
    ensures Decimal(n)[0] == '-' <==> n < 0
  {
    if n >= 0 {
      assert DecimalNat(n)[0] in DecimalNat(n);
    }
  }

  lemma DecimalInjective(a: int, b: int)
    requires Decimal(a) == Decimal(b)
    ensures a == b
  {
    SignShows(a);
    SignShows(b);
    if a < 0 {
      assert Decimal(a)[1..] == DecimalNat(-a) && Decimal(b)[1..] == DecimalNat(-b);
      DecimalNatInjective(-a, -b);
    } else {
      DecimalNatInjective(a, b);
    }
  }

  // ---------------------------------------------------------------- joining

  // What stands before and after a separator can be read back when the part before it
  // does not contain the separator.
  lemma SeparatorInjective(c: char, a: string, b: string, a': string, b': string)
    requires c !in a && c !in a'
    requires a + [c] + b == a' + [c] + b'
    ensures a == a' && b == b'
  {
    var s, s' := a + [c] + b, a' + [c] + b';
    assert s[|a|] == c && s'[|a'|] == c;
    assert forall k :: 0 <= k < |a| ==> s[k] == a[k] && s[k] != c;
    assert forall k :: 0 <= k < |a'| ==> s'[k] == a'[k] && s'[k] != c;
    assert |a| == |a'|;
    assert s[..|a|] == a && s'[..|a'|] == a';
    assert s[|a| + 1..] == b && s'[|a'| + 1..] == b';
  }

  function Join(sep: string, parts: seq<string>): string {
    if parts == [] then "" else if |parts| == 1 then parts[0] else parts[0] + sep + Join(sep, parts[1..])
  }
}
