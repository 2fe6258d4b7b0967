/** Joined keys: the cache key and the thread key, before hashing. */
module Keys {
  import opened Text

  // "a:b", the way every key of the system is joined.
  function Colon(a: string, b: string): string {
    a + ":" + b
  }

  // The parts can be read back when the first one holds no colon.
  lemma ColonInjective(a: string, b: string, a': string, b': string)
    requires ':' !in a && ':' !in a'
    requires Colon(a, b) == Colon(a', b')
    ensures a == a' && b == b'
  {
    SeparatorInjective(':', a, b, a', b');
  }

  // ---------------------------------------------------------------- normal form

  // re.sub(r"\s+", " ", s)
  function Collapse(s: string): string
    decreases |s|
  {
    if s == [] then ""
    else if IsSpace(s[0]) then " " + Collapse(DropLeading(Space, s))
    else [s[0]] + Collapse(s[1..])
  }

  function Normalize(text: string): string {
    Collapse(Lower(Strip(text)))
  }

  ghost predicate SolidWords(ws: seq<string>) {
    forall j :: 0 <= j < |ws| ==> ws[j] != [] && Solid(Space, ws[j])
  }

  lemma {:induction false} WordsAreSolid(s: string)
    ensures SolidWords(Words(s))
    decreases |s|
  {
    var d, h := FirstPieceOf(Space, s);
    if h != [] {
      WordsAreSolid(s[d + |h|..]);
    }
  }

  lemma {:induction false} WordsOfJoin(ws: seq<string>)
    requires SolidWords(ws)
    ensures Words(Join(" ", ws)) == ws
  {
    if |ws| == 1 {
      OneWord(ws[0]);
    } else if |ws| > 1 {
      WordsOfJoin(ws[1..]);
      FirstWord(ws[0], Join(" ", ws[1..]));
    }
  }

  lemma OneWord(w: string)
    requires w != [] && Solid(Space, w)
    ensures Words(w) == [w]
  {
    PiecesAfter(Space, "", w, "");
    assert "" + w + "" == w;
    assert Words("") == [];
  }

  lemma FirstWord(w: string, tail: string)
    requires w != [] && Solid(Space, w)
    ensures Words(w + " " + tail) == [w] + Words(tail)
  {
    PiecesAfter(Space, "", w, " " + tail);
    assert "" + w + (" " + tail) == w + " " + tail;
    DropGap(Space, " ", tail);
  }

  lemma {:induction false} CollapseWord(w: string, rest: string)
    requires Solid(Space, w)
    ensures Collapse(w + rest) == w + Collapse(rest)
    decreases |w|
  {
    if w == [] {
      assert w + rest == rest;
    } else {
      assert (w + rest)[1..] == w[1..] + rest;
      CollapseWord(w[1..], rest);
    }
  }

  // A gap collapses to one space and separates nothing from nothing.
  lemma AfterGap(rest: string) returns (next: string)
    requires rest != [] && IsSpace(rest[0]) && !IsSpace(rest[|rest| - 1])
    ensures next != [] && |next| < |rest| && !IsSpace(next[0]) && !IsSpace(next[|next| - 1])
    ensures Collapse(rest) == " " + Collapse(next)
    ensures Words(rest) == Words(next) != []
  {
    next := DropLeading(Space, rest);
    DropLeadingShape(Space, rest);
    assert next[|next| - 1] == rest[|rest| - 1];
    assert DropLeading(Space, next) == next;
  }

  // A stripped text begins with its first word, and a gap follows unless it ends there.
  lemma StrippedBeginsWithWord(s: string) returns (h: string, rest: string)
    requires s != [] && !IsSpace(s[0]) && !IsSpace(s[|s| - 1])
    ensures h != [] && s == h + rest && Solid(Space, h)
    ensures Words(s) == [h] + Words(rest)
    ensures rest != [] ==> IsSpace(rest[0]) && !IsSpace(rest[|rest| - 1])
  {
    var d;
    d, h := FirstPieceOf(Space, s);
    assert d == 0;
    rest := s[|h|..];
    assert s == h + rest;
    if rest != [] {
      assert rest[0] == s[|h|] && rest[|rest| - 1] == s[|s| - 1];
    }
  }

  // On a stripped text, collapsing the gaps is joining the words with single spaces.
  lemma {:induction false} CollapseJoinsWords(s: string)
    requires s == [] || (!IsSpace(s[0]) && !IsSpace(s[|s| - 1]))
    ensures Collapse(s) == Join(" ", Words(s))
    decreases |s|
  {
    if s != [] {
      var h, rest := StrippedBeginsWithWord(s);
      CollapseWord(h, rest);
      if rest == [] {
        assert Words(rest) == [];
      } else {
        var next := AfterGap(rest);
        CollapseJoinsWords(next);
        JoinMore(h, Words(next));
      }
    }
  }

  lemma JoinMore(h: string, ws: seq<string>)
    requires ws != []
    ensures Join(" ", [h] + ws) == h + " " + Join(" ", ws)
  {
    assert ([h] + ws)[1..] == ws;
  }

  lemma OnlyGap(s: string)
    requires forall k :: 0 <= k < |s| ==> IsSpace(s[k])
    ensures Words(s) == []
  {
    DropGap(Space, s, "");
    assert s + "" == s;
  }

  lemma {:induction false} WordsIgnoreGap(s: string, gap: string)
    requires forall k :: 0 <= k < |gap| ==> IsSpace(gap[k])
    ensures Words(s + gap) == Words(s)
    decreases |s|
  {
    hide Pieces, Words, IsSpace;
    var lead, h, rest := FirstWordOf(s);
    if h == [] {
      OnlyGap(s);
      OnlyGap(s + gap);
    } else {
      WordsIgnoreGap(rest, gap);
      assert s + gap == lead + h + (rest + gap);
      WordThenRest(lead, h, rest + gap);
      WordThenRest(lead, h, rest);
    }
  }

  // A text is white space, its first word, and what follows the word.
  lemma FirstWordOf(s: string) returns (lead: string, h: string, rest: string)
    ensures s == lead + h + rest && Solid(Space, h)
    ensures forall k :: 0 <= k < |lead| ==> IsSpace(lead[k])
    ensures rest == [] || IsSpace(rest[0])
    ensures h == [] ==> s == lead
  {
    hide Pieces;
    var d;
    d, h := FirstPieceOf(Space, s);
    lead, rest := s[..d], s[d + |h|..];
  }

  lemma WordThenRest(lead: string, h: string, rest: string)
    requires forall k :: 0 <= k < |lead| ==> IsSpace(lead[k])
    requires h != [] && Solid(Space, h) && (rest == [] || IsSpace(rest[0]))
    ensures Words(lead + h + rest) == [h] + Words(rest)
  {
    PiecesAfter(Space, lead, h, rest);
  }

  lemma WordsOfStrip(s: string)
    ensures Words(Strip(s)) == Words(s)
  {
    var t := DropLeading(Space, s);
    var r := DropTrailing(t);
    WordsIgnoreGap(r, t[|r|..]);
    assert t == r + t[|r|..];
    assert DropLeading(Space, t) == t;
  }

  lemma {:induction false} LowerDropLeading(s: string)
    ensures Lower(DropLeading(Space, s)) == DropLeading(Space, Lower(s))
    decreases |s|
  {
    if s != [] {
      LowerDropLeading(s[1..]);
      assert Lower(s)[1..] == Lower(s[1..]);
    }
  }

  lemma {:induction false} LowerDropTrailing(s: string)
    ensures Lower(DropTrailing(s)) == DropTrailing(Lower(s))
    decreases |s|
  {
    if s != [] {
      var last := |s| - 1;
      assert IsSpace(Lower(s)[last]) <==> IsSpace(s[last]);
      if IsSpace(s[last]) {
        LowerDropTrailing(s[..last]);
        assert Lower(s)[..last] == Lower(s[..last]);
      }
    }
  }

  // The normal form is the lowercased words, joined by single spaces.
  lemma NormalFormIsWords(text: string)
    ensures Normalize(text) == Join(" ", Words(Lower(text)))
  {
    var t := DropLeading(Space, text);
    LowerDropLeading(text);
    LowerDropTrailing(t);
    assert Lower(Strip(text)) == Strip(Lower(text));
    StripShape(Lower(text));
    CollapseJoinsWords(Strip(Lower(text)));
    WordsOfStrip(Lower(text));
  }

  // Two texts share a normal form exactly when their lowercased words agree.
  lemma SameNormalForm(a: string, b: string)
    ensures Normalize(a) == Normalize(b) <==> Words(Lower(a)) == Words(Lower(b))
  {
    NormalFormIsWords(a);
    NormalFormIsWords(b);
    WordsAreSolid(Lower(a));
    WordsAreSolid(Lower(b));
    WordsOfJoin(Words(Lower(a)));
    WordsOfJoin(Words(Lower(b)));
  }

  lemma {:induction false} CollapseStaysLower(s: string)
    requires Lower(s) == s
    ensures Lower(Collapse(s)) == Collapse(s)
    decreases |s|
  {
    if s != [] {
      assert forall i :: 0 <= i < |s| ==> LowerChar(s[i]) == Lower(s)[i] == s[i];
      if IsSpace(s[0]) {
        var t := DropLeading(Space, s);
        DropLeadingShape(Space, s);
        assert Lower(t) == t;
        CollapseStaysLower(t);
        LowerConcat(" ", Collapse(t));
      } else {
        assert Lower(s[1..]) == s[1..];
        CollapseStaysLower(s[1..]);
        LowerConcat([s[0]], Collapse(s[1..]));
      }
    }
  }

  lemma NormalizeIdempotent(text: string)
    ensures Normalize(Normalize(text)) == Normalize(text)
  {
    var low := Lower(Strip(text));
    assert Lower(low) == low;
    CollapseStaysLower(low);
    NormalFormIsWords(text);
    WordsAreSolid(Lower(text));
    WordsOfJoin(Words(Lower(text)));
    NormalFormIsWords(Normalize(text));
  }

  // ---------------------------------------------------------------- the cache key

  /** The text that is hashed. Hashing is modelled as an injective function, so the raw
    * text stands for the key. */
  function CacheKey(kind: string, problemId: string, version: int, text: string): string {
    Colon(kind, Colon(problemId, Colon(Decimal(version), Normalize(text))))
  }

  lemma CacheKeyDecodes(kind: string, p: string, v: int, text: string,
                        kind': string, p': string, v': int, text': string)
    requires ':' !in kind && ':' !in kind' && ':' !in p && ':' !in p'
    ensures CacheKey(kind, p, v, text) == CacheKey(kind', p', v', text')
            <==> kind == kind' && p == p' && v == v' && Words(Lower(text)) == Words(Lower(text'))
  {
    SameNormalForm(text, text');
    if CacheKey(kind, p, v, text) == CacheKey(kind', p', v', text') {
      var n, n' := Normalize(text), Normalize(text');
      var t, t' := Colon(Decimal(v), n), Colon(Decimal(v'), n');
      ColonInjective(kind, Colon(p, t), kind', Colon(p', t'));
      ColonInjective(p, t, p', t');
      ColonInjective(Decimal(v), n, Decimal(v'), n');
      DecimalInjective(v, v');
    }
  }

  // Lower case, single spaces only between other characters.
  predicate IsNormal(s: string) {
    && SingleSpaced(s)
    && (s != "" ==> !IsSpace(s[0]))
  }

  predicate SingleSpaced(s: string) {
    && (forall i :: 0 <= i < |s| ==> LowerChar(s[i]) == s[i] && (IsSpace(s[i]) ==> s[i] == ' '))
    && (forall i :: 0 < i < |s| && IsSpace(s[i]) ==> !IsSpace(s[i - 1]))
    && (s != "" ==> !IsSpace(s[|s| - 1]))
  }

  lemma RestIsSingle(s: string)
    requires SingleSpaced(s) && s != ""
    ensures SingleSpaced(s[1..])
    ensures IsSpace(s[0]) ==> s[0] == ' ' && |s| > 1 && !IsSpace(s[1])
  {
    var rest := s[1..];
    assert forall i :: 0 <= i < |rest| ==> rest[i] == s[i + 1];
  }

  lemma {:induction false} CollapseKeepsSingle(s: string)
    requires SingleSpaced(s)
    ensures Collapse(s) == s
    decreases |s|
  {
    hide SingleSpaced, IsSpace;
    if s != "" {
      var rest := s[1..];
      RestIsSingle(s);
      CollapseKeepsSingle(rest);
      if IsSpace(s[0]) {
        assert rest[0] == s[1];
        assert DropLeading(Space, rest) == rest;
        assert DropLeading(Space, s) == rest;
        assert Collapse(s) == " " + rest;
      }
      assert s == [s[0]] + rest;
    }
  }

  lemma LowerSuffix(s: string, k: nat)
    requires k <= |s| && Lower(s) == s
    ensures Lower(s[k..]) == s[k..]
  {
    assert forall i :: 0 <= i < |s| ==> Lower(s)[i] == LowerChar(s[i]);
  }

  lemma NothingIsSingle()
    ensures SingleSpaced("")
  {
  }

  lemma {:induction false} CollapseMakesSingle(s: string)
    requires Lower(s) == s && (s != "" ==> !IsSpace(s[|s| - 1]))
    ensures SingleSpaced(Collapse(s))
    ensures s != "" ==> Collapse(s) != "" && (IsSpace(Collapse(s)[0]) <==> IsSpace(s[0]))
    decreases |s|
  {
    hide SingleSpaced;
    NothingIsSingle();
    if s != "" {
      assert LowerChar(s[0]) == Lower(s)[0];
      if IsSpace(s[0]) {
        var t := DropLeading(Space, s);
        DropLeadingShape(Space, s);
        LowerSuffix(s, |s| - |t|);
        assert t != "" && t[|t| - 1] == s[|s| - 1];
        CollapseMakesSingle(t);
        OneMoreChar(' ', Collapse(t));
      } else {
        var rest := s[1..];
        LowerSuffix(s, 1);
        assert rest != "" ==> rest[|rest| - 1] == s[|s| - 1];
        CollapseMakesSingle(rest);
        OneMoreChar(s[0], Collapse(rest));
      }
    }
  }

  lemma OneMoreChar(c: char, rest: string)
    requires SingleSpaced(rest) && LowerChar(c) == c
    requires IsSpace(c) ==> c == ' ' && rest != "" && !IsSpace(rest[0])
    ensures SingleSpaced([c] + rest)
  {
    var s := [c] + rest;
    assert forall i :: 0 < i < |s| ==> s[i] == rest[i - 1];
  }

  // The normal forms are exactly the texts in lower case with single spaces inside.
  lemma NormalIff(s: string)
    ensures IsNormal(Normalize(s))
    ensures IsNormal(s) ==> Normalize(s) == s
  {
    StripShape(s);
    var low := Lower(Strip(s));
    assert Lower(low) == low;
    CollapseMakesSingle(low);
    if IsNormal(s) {
      assert DropLeading(Space, s) == s && DropTrailing(s) == s;
      assert Lower(s) == s;
      CollapseKeepsSingle(s);
    }
  }

  ghost predicate CanCollide(kind: string, p: string, p': string) {
    exists v, text, v', text' :: SameKey(kind, p, v, text, p', v', text')
  }

  predicate SameKey(kind: string, p: string, v: int, text: string, p': string, v': int, text': string) {
    CacheKey(kind, p, v, text) == CacheKey(kind, p', v', text')
  }

  // p' is p, a colon and an integer, and then nothing or a colon and the beginning of a normal form.
  ghost predicate Extends(p: string, p': string) {
    exists v, q :: ExtendsBy(p, p', v, q)
  }

  predicate ExtendsBy(p: string, p': string, v: int, q: string) {
    p' + ":" == p + ":" + Decimal(v) + ":" + q && IsNormal(q + "0:")
  }

  /** Two problem ids can share a cache key exactly when one extends the other in this way; so ids
    * without a colon never do. */
  lemma CollideIff(kind: string, p: string, p': string)
    requires p != p'
    ensures CanCollide(kind, p, p') <==> Extends(p, p') || Extends(p', p)
  {
    if CanCollide(kind, p, p') {
      var v, text, v', text' :| SameKey(kind, p, v, text, p', v', text');
      var x, x' := Colon(Decimal(v), Normalize(text)), Colon(Decimal(v'), Normalize(text'));
      assert CacheKey(kind, p, v, text)[|kind| + 1..] == p + ":" + x;
      assert CacheKey(kind, p', v', text')[|kind| + 1..] == p' + ":" + x';
      if |p| <= |p'| {
        CollisionExtends(p, v, text, p', x');
      } else {
        CollisionExtends(p', v', text', p, x);
      }
    }
    if v, q :| ExtendsBy(p, p', v, q) {
      ExtensionCollides(kind, p, p', v, q);
      assert SameKey(kind, p, v, q + "0:", p', 0, "");
    }
    if v, q :| ExtendsBy(p', p, v, q) {
      ExtensionCollides(kind, p', p, v, q);
      assert SameKey(kind, p, 0, "", p', v, q + "0:");
    }
  }

  lemma ExtensionCollides(kind: string, p: string, p': string, v: int, q: string)
    requires ExtendsBy(p, p', v, q)
    ensures CacheKey(kind, p, v, q + "0:") == CacheKey(kind, p', 0, "")
  {
    hide IsNormal, Normalize, Decimal;
    NormalIff(q + "0:");
    ShortestTail();
    assert p' + ":" + ("0" + ":" + "") == (p' + ":") + "0:";
    assert p + ":" + (Decimal(v) + ":" + (q + "0:")) == (p + ":" + Decimal(v) + ":" + q) + "0:";
  }

  lemma ShortestTail()
    ensures Normalize("") == "" && Decimal(0) == "0"
  {
  }

  lemma CollisionExtends(p: string, v: int, text: string, p': string, x': string)
    requires p != p' && |p| <= |p'|
    requires p + ":" + Colon(Decimal(v), Normalize(text)) == p' + ":" + x'
    ensures Extends(p, p')
  {
    hide IsNormal, Normalize, Decimal;
    var d, n := Decimal(v), Normalize(text);
    var s := p + ":" + (d + ":" + n);
    assert s == p' + ":" + x';
    assert s[..|p|] == p && s[..|p'|] == p';
    assert |p| < |p'|;
    assert s[|p'|] == ':';
    var dot := |p| + 1 + |d|;
    assert forall i :: |p| < i < dot ==> s[i] == d[i - |p| - 1];
    assert |p'| >= dot;
    var q := n[..|p'| - dot];
    assert s[..|p'| + 1] == p' + ":";
    assert s[..|p'| + 1] == p + ":" + d + ":" + q;
    assert q != "" ==> q[|q| - 1] == s[|p'|] == ':';
    NormalIff(text);
    PrefixOfNormal(n, q);
    assert ExtendsBy(p, p', v, q);
  }

  lemma PrefixOfNormal(n: string, q: string)
    requires IsNormal(n) && q <= n && (q != "" ==> q[|q| - 1] == ':')
    ensures IsNormal(q + "0:")
  {
    var s := q + "0:";
    assert forall i :: 0 <= i < |q| ==> s[i] == q[i] == n[i];
    assert s[|q|] == '0' && s[|q| + 1] == ':';
  }

  // ---------------------------------------------------------------- the thread key

  function ThreadKey(userId: string, problemId: string): string {
    Colon(userId, problemId)
  }

  // One user's key can be taken for another pair's exactly when one of its parts holds a colon.
  lemma ThreadKeyUniqueIff(user: string, problem: string)
    ensures (forall u, p :: ThreadKey(u, p) == ThreadKey(user, problem) ==> u == user && p == problem)
            <==> ':' !in user && ':' !in problem
  {
    if ':' in user {
      var k :| 0 <= k < |user| && user[k] == ':';
      var u, p := user[..k], user[k + 1..] + ":" + problem;
      assert user == u + ":" + user[k + 1..];
      assert ThreadKey(u, p) == ThreadKey(user, problem);
      assert u != user;
    } else if ':' in problem {
      var k :| 0 <= k < |problem| && problem[k] == ':';
      var u, p := user + ":" + problem[..k], problem[k + 1..];
      assert problem == problem[..k] + ":" + p;
      assert ThreadKey(u, p) == ThreadKey(user, problem);
      assert |u| > |user|;
    } else {
      forall u, p | ThreadKey(u, p) == ThreadKey(user, problem) ensures u == user && p == problem {
        OneColonKey(user, problem, u, p);
      }
    }
  }

  lemma OneColonKey(user: string, problem: string, u: string, p: string)
    requires ':' !in user && ':' !in problem
    requires ThreadKey(u, p) == ThreadKey(user, problem)
    ensures u == user && p == problem
  {
    var s := ThreadKey(user, problem);
    assert s == ThreadKey(u, p);
    assert s[|u|] == ':';
    assert forall k :: 0 <= k < |user| ==> s[k] == user[k];
    assert forall k :: |user| < k < |s| ==> s[k] == problem[k - |user| - 1];
    assert |u| == |user|;
    assert s[..|u|] == u && s[..|user|] == user;
    assert s[|u| + 1..] == p && s[|user| + 1..] == problem;
  }

  // Among users without a colon, the key names one user and one problem.
  lemma ThreadKeyDecodes(user: string, problem: string, user': string, problem': string)
    requires ':' !in user && ':' !in user'
    ensures ThreadKey(user, problem) == ThreadKey(user', problem') <==> user == user' && problem == problem'
  {
    if ThreadKey(user, problem) == ThreadKey(user', problem') {
      ColonInjective(user, problem, user', problem');
    }
  }
}
