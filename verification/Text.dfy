/**
  String operations the chunkers and the segmenter use, and what they preserve: the
  "ink" of a string, its non-whitespace characters in order, and its words.
*/
module Text {
  // str.isspace() and \s for one character.
  predicate IsSpace(c: char) {
    '\t' <= c <= '\r' || '\U{1c}' <= c <= ' ' || c == '\U{85}' || c == '\U{a0}' || c == '\U{1680}'
    || '\U{2000}' <= c <= '\U{200a}' || c == '\U{2028}' || c == '\U{2029}' || c == '\U{202f}'
    || c == '\U{205f}' || c == '\U{3000}'
  }

  function Ink(s: string): string {
    if s == [] then []
    else (if IsSpace(s[0]) then [] else [s[0]]) + Ink(s[1..])
  }

  function InkAll(parts: seq<string>): string {
    if parts == [] then [] else InkAll(parts[..|parts| - 1]) + Ink(parts[|parts| - 1])
  }

  lemma {:induction false} InkFirst(s: string)
    requires s != []
    ensures Ink(s) == (if IsSpace(s[0]) then [] else [s[0]]) + Ink(s[1..])
  {
  }

  lemma Regroup(a: string, b: string, c: string)
    ensures a + (b + c) == (a + b) + c
  {
  }

  lemma {:induction false} InkConcat(a: string, b: string)
    ensures Ink(a + b) == Ink(a) + Ink(b)
  {
    var c := a + b;
    if a == [] {
      assert c == b;
    } else {
      InkFirst(a);
      InkFirst(c);
      assert c[0] == a[0] && c[1..] == a[1..] + b;
      hide Ink, IsSpace;
      InkConcat(a[1..], b);
      Regroup(if IsSpace(a[0]) then [] else [a[0]], Ink(a[1..]), Ink(b));
    }
  }

  lemma {:induction false} InkOfSpaces(s: string)
    requires forall i :: 0 <= i < |s| ==> IsSpace(s[i])
    ensures Ink(s) == []
  {
    if s != [] { InkOfSpaces(s[1..]); }
  }

  lemma {:induction false} InkAllConcat(a: seq<string>, b: seq<string>)
    ensures InkAll(a + b) == InkAll(a) + InkAll(b)
  {
    if b == [] {
      assert a + b == a;
    } else {
      var init := b[..|b| - 1];
      assert (a + b)[..|a + b| - 1] == a + init;
      InkAllConcat(a, init);
    }
  }

  lemma InkAllOne(s: string)
    ensures InkAll([s]) == Ink(s)
  {
    assert [s][..0] == [];
  }

  // ---- strip --------------------------------------------------------------

  function LStrip(s: string): (r: string)
    ensures |r| <= |s|
  {
    if s != [] && IsSpace(s[0]) then LStrip(s[1..]) else s
  }

  function RStrip(s: string): (r: string)
    ensures |r| <= |s|
  {
    if s != [] && IsSpace(s[|s| - 1]) then RStrip(s[..|s| - 1]) else s
  }

  function Strip(s: string): (r: string)
    ensures |r| <= |s|
  {
    RStrip(LStrip(s))
  }

  // What is left is a suffix that starts with no whitespace; what is dropped is whitespace.
  lemma {:induction false} LStripIs(s: string)
    ensures LStrip(s) == s[|s| - |LStrip(s)|..]
    ensures LStrip(s) != [] ==> !IsSpace(LStrip(s)[0])
    ensures forall i :: 0 <= i < |s| - |LStrip(s)| ==> IsSpace(s[i])
  {
    if s != [] && IsSpace(s[0]) {
      LStripIs(s[1..]);
      assert forall i :: 0 < i < |s| ==> s[i] == s[1..][i - 1];
    }
  }

  lemma {:induction false} RStripIs(s: string)
    ensures RStrip(s) == s[..|RStrip(s)|]
    ensures RStrip(s) != [] ==> !IsSpace(RStrip(s)[|RStrip(s)| - 1])
    ensures forall i :: |RStrip(s)| <= i < |s| ==> IsSpace(s[i])
  {
    if s != [] && IsSpace(s[|s| - 1]) { RStripIs(s[..|s| - 1]); }
  }

  lemma StripEnds(s: string)
    ensures Strip(s) != [] ==> !IsSpace(Strip(s)[0]) && !IsSpace(Strip(s)[|Strip(s)| - 1])
  {
    hide LStrip, RStrip, IsSpace;
    LStripIs(s);
    RStripIs(LStrip(s));
  }

  // Nothing to strip.
  lemma StripKeeps(s: string)
    requires s != "" && !IsSpace(s[0]) && !IsSpace(s[|s| - 1])
    ensures Strip(s) == s
  {
  }

  lemma LStripInk(s: string)
    ensures Ink(LStrip(s)) == Ink(s)
  {
    hide LStrip, Ink;
    LStripIs(s);
    var k := |s| - |LStrip(s)|;
    assert s == s[..k] + s[k..];
    InkConcat(s[..k], s[k..]);
    InkOfSpaces(s[..k]);
  }

  lemma RStripInk(s: string)
    ensures Ink(RStrip(s)) == Ink(s)
  {
    hide RStrip, Ink;
    RStripIs(s);
    var k := |RStrip(s)|;
    assert s == s[..k] + s[k..];
    InkConcat(s[..k], s[k..]);
    InkOfSpaces(s[k..]);
  }

  lemma StripInk(s: string)
    ensures Ink(Strip(s)) == Ink(s)
  {
    LStripInk(s);
    RStripInk(LStrip(s));
  }

  // ---- join -----------------------------------------------------------------

  function Join(parts: seq<string>): string {
    if parts == [] then []
    else if |parts| == 1 then parts[0]
    else Join(parts[..|parts| - 1]) + " " + parts[|parts| - 1]
  }

  lemma {:induction false} JoinInk(parts: seq<string>)
    ensures Ink(Join(parts)) == InkAll(parts)
  {
    if |parts| == 1 {
      assert parts[..0] == [];
    } else if |parts| > 1 {
      var init, last := parts[..|parts| - 1], parts[|parts| - 1];
      JoinInk(init);
      InkConcat(Join(init) + " ", last);
      InkConcat(Join(init), " ");
      InkOfSpaces(" ");
    }
  }

  // ---- whitespace runs --------------------------------------------------------

  // The end of the whitespace run that starts at i.
  function RunEnd(s: string, i: nat): (e: nat)
    requires i <= |s|
    ensures i <= e <= |s|
    ensures forall k :: i <= k < e ==> IsSpace(s[k])
    ensures e < |s| ==> !IsSpace(s[e])
    decreases |s| - i
  {
    if i < |s| && IsSpace(s[i]) then RunEnd(s, i + 1) else i
  }

  method SkipSpaces(s: string, i: nat) returns (e: nat)
    requires i <= |s|
    ensures e == RunEnd(s, i)
  {
    e := i;
    while e < |s| && IsSpace(s[e])
      invariant i <= e <= |s| && RunEnd(s, e) == RunEnd(s, i)
    {
      e := e + 1;
    }
  }

  lemma InkAllStep(parts: seq<string>, piece: string)
    ensures InkAll(parts + [piece]) == InkAll(parts) + Ink(piece)
  {
    InkAllConcat(parts, [piece]);
    InkAllOne(piece);
  }

  lemma InkNone()
    ensures Ink([]) == [] && InkAll([]) == []
  {
  }

  // ---- words ------------------------------------------------------------------

  function WordEnd(s: string, i: nat): (e: nat)
    requires i <= |s|
    ensures i <= e <= |s|
    ensures forall k :: i <= k < e ==> !IsSpace(s[k])
    ensures e < |s| ==> IsSpace(s[e])
    decreases |s| - i
  {
    if i < |s| && !IsSpace(s[i]) then WordEnd(s, i + 1) else i
  }

  // str.split(): the maximal runs of non-whitespace.
  function Words(s: string, i: nat): seq<string>
    requires i <= |s|
    decreases |s| - i
  {
    var b := RunEnd(s, i);
    if b == |s| then []
    else
      var e := WordEnd(s, b);
      [s[b..e]] + Words(s, e)
  }

  function WordsOf(s: string): seq<string> {
    Words(s, 0)
  }

  function WordsAll(parts: seq<string>): seq<string> {
    if parts == [] then [] else WordsAll(parts[..|parts| - 1]) + WordsOf(parts[|parts| - 1])
  }

  ghost predicate AllSpace(s: string) {
    forall k :: 0 <= k < |s| ==> IsSpace(s[k])
  }

  ghost predicate IsWord(w: string) {
    w != [] && forall k :: 0 <= k < |w| ==> !IsSpace(w[k])
  }

  lemma {:induction false} RunEndSuffix(s: string, i: nat, k: nat)
    requires k <= i <= |s|
    ensures RunEnd(s, i) == k + RunEnd(s[k..], i - k)
    decreases |s| - i
  {
    if i < |s| { RunEndSuffix(s, i + 1, k); }
  }

  lemma {:induction false} WordEndSuffix(s: string, i: nat, k: nat)
    requires k <= i <= |s|
    ensures WordEnd(s, i) == k + WordEnd(s[k..], i - k)
    decreases |s| - i
  {
    if i < |s| { WordEndSuffix(s, i + 1, k); }
  }

  lemma WordsAt(s: string, i: nat)
    requires i <= |s|
    ensures var b := RunEnd(s, i);
      Words(s, i) == if b == |s| then [] else [s[b..WordEnd(s, b)]] + Words(s, WordEnd(s, b))
    ensures RunEnd(s, i) < |s| ==> RunEnd(s, i) < WordEnd(s, RunEnd(s, i))
  {
  }

  lemma SliceOfRest(s: string, k: nat, b: nat, e: nat)
    requires k <= b <= e <= |s|
    ensures s[k..][b - k..e - k] == s[b..e]
  {
  }

  // The words from i on are those of the rest.
  lemma {:induction false} WordsSuffix(s: string, i: nat, k: nat)
    requires k <= i <= |s|
    ensures Words(s, i) == Words(s[k..], i - k)
    decreases |s| - i
  {
    hide *;
    RunEndSuffix(s, i, k);
    WordsAt(s, i);
    WordsAt(s[k..], i - k);
    var b := RunEnd(s, i);
    if b < |s| {
      WordEndSuffix(s, b, k);
      SliceOfRest(s, k, b, WordEnd(s, b));
      WordsSuffix(s, WordEnd(s, b), k);
    }
  }

  lemma WordsHere(s: string)
    requires s != [] && !IsSpace(s[0])
    ensures WordEnd(s, 0) == WordEnd(s, 1)
    ensures WordsOf(s) == [s[..WordEnd(s, 1)]] + Words(s, WordEnd(s, 1))
  {
    hide IsSpace;
  }

  lemma WordsBehindSpace(s: string)
    requires s != [] && IsSpace(s[0])
    ensures WordsOf(s) == WordsOf(s[1..])
  {
    hide IsSpace;
    WordsSuffix(s, 1, 1);
    assert RunEnd(s, 0) == RunEnd(s, 1);
  }

  lemma WordsOfLetter(s: string)
    requires s != [] && !IsSpace(s[0]) && (|s| == 1 || IsSpace(s[1]))
    ensures WordsOf(s) == [[s[0]]] + WordsOf(s[1..])
  {
    WordsHere(s);
    hide IsSpace, Words;
    WordsSuffix(s, 1, 1);
    assert WordEnd(s, 1) == 1 && s[..1] == [s[0]];
  }

  lemma WordsGrow(s: string)
    requires |s| > 1 && !IsSpace(s[0]) && !IsSpace(s[1])
    ensures WordsOf(s[1..]) != []
    ensures WordsOf(s) == [[s[0]] + WordsOf(s[1..])[0]] + WordsOf(s[1..])[1..]
  {
    var t := s[1..];
    assert t[0] == s[1];
    WordsHere(s);
    WordsHere(t);
    WordEndSuffix(s, 1, 1);
    hide IsSpace, Words, WordsOf, RunEnd, WordEnd;
    var e := WordEnd(s, 1);
    WordsSuffix(s, e, 1);
    assert s[..e] == [s[0]] + t[..e - 1];
    assert WordsOf(t) == [t[..e - 1]] + Words(t, e - 1);
  }

  // Nothing is glued together where a meets b.
  predicate Apart(a: string, b: string) {
    a == [] || b == [] || IsSpace(a[|a| - 1]) || IsSpace(b[0])
  }

  lemma NoWords()
    ensures WordsOf([]) == [] && WordsAll([]) == []
  {
  }

  /** The words of a concatenation: those of the parts, or one fewer where a word goes on
      from one to the other. */
  lemma {:induction false} WordsConcat(a: string, b: string)
    ensures Apart(a, b) ==> WordsOf(a + b) == WordsOf(a) + WordsOf(b)
    ensures !Apart(a, b) ==> |WordsOf(a + b)| + 1 == |WordsOf(a)| + |WordsOf(b)|
  {
    hide WordsOf, IsSpace;
    NoWords();
    if |a| <= 1 {
      WordsPrepend(a, b);
    } else {
      var t, c := a[1..], a + b;
      assert c[0] == a[0] && c[1] == a[1] && c[1..] == t + b;
      assert t[0] == a[1] && t[|t| - 1] == a[|a| - 1];
      WordsConcat(t, b);
      if IsSpace(a[0]) {
        WordsBehindSpace(a);
        WordsBehindSpace(c);
      } else if IsSpace(a[1]) {
        WordsOfLetter(a);
        WordsOfLetter(c);
      } else {
        WordsGrow(a);
        WordsGrow(c);
        if Apart(a, b) { FirstOf(WordsOf(t), WordsOf(b)); }
      }
    }
  }

  lemma WordsPrepend(a: string, b: string)
    requires |a| <= 1
    ensures Apart(a, b) ==> WordsOf(a + b) == WordsOf(a) + WordsOf(b)
    ensures !Apart(a, b) ==> |WordsOf(a + b)| + 1 == |WordsOf(a)| + |WordsOf(b)|
  {
    hide WordsOf, IsSpace;
    NoWords();
    if a == [] {
      assert a + b == b;
    } else if b == [] {
      assert a + b == a;
    } else {
      var c := a + b;
      assert c[0] == a[0] && c[1] == b[0] && c[1..] == b && a[1..] == [];
      if IsSpace(a[0]) {
        WordsBehindSpace(a);
        WordsBehindSpace(c);
      } else {
        WordsOfLetter(a);
        if IsSpace(b[0]) { WordsOfLetter(c); } else { WordsGrow(c); }
      }
    }
  }

  lemma FirstOf(t: seq<string>, u: seq<string>)
    requires t != []
    ensures (t + u)[0] == t[0] && (t + u)[1..] == t[1..] + u
  {
  }

  lemma {:induction false} WordsOfSpaces(s: string)
    requires AllSpace(s)
    ensures WordsOf(s) == []
  {
    NoWords();
    if s != [] {
      WordsBehindSpace(s);
      WordsOfSpaces(s[1..]);
    }
  }

  lemma WordsOfWord(w: string)
    requires IsWord(w)
    ensures WordsOf(w) == [w]
  {
    WordsHere(w);
    assert w[..|w|] == w;
  }

  lemma {:induction false} WordsAllConcat(a: seq<string>, b: seq<string>)
    ensures WordsAll(a + b) == WordsAll(a) + WordsAll(b)
  {
    hide WordsOf;
    if b == [] {
      assert a + b == a;
    } else {
      var init := b[..|b| - 1];
      assert (a + b)[..|a + b| - 1] == a + init;
      WordsAllConcat(a, init);
    }
  }

  lemma WordsAllOne(s: string)
    ensures WordsAll([s]) == WordsOf(s)
  {
    assert [s][..0] == [];
  }

  lemma {:induction false} WordsAllOfWords(words: seq<string>)
    requires forall w :: w in words ==> IsWord(w)
    ensures WordsAll(words) == words
  {
    hide WordsOf, IsWord;
    if words != [] {
      var init, last := words[..|words| - 1], words[|words| - 1];
      assert last in words && forall w :: w in init ==> w in words;
      WordsAllOfWords(init);
      WordsOfWord(last);
    }
  }

  /** Stripping and joining with spaces keep the words. */
  lemma StripWords(s: string)
    ensures WordsOf(LStrip(s)) == WordsOf(s) && WordsOf(Strip(s)) == WordsOf(s)
  {
    hide LStrip, RStrip, WordsOf, IsSpace;
    var l := LStrip(s);
    LStripIs(s);
    RStripIs(l);
    var k, n := |s| - |l|, |RStrip(l)|;
    assert s == s[..k] + l && l == l[..n] + l[n..];
    WordsConcat(s[..k], l);
    WordsOfSpaces(s[..k]);
    assert k > 0 ==> IsSpace(s[..k][k - 1]);
    WordsConcat(l[..n], l[n..]);
    WordsOfSpaces(l[n..]);
    assert n < |l| ==> IsSpace(l[n..][0]);
  }

  lemma {:induction false} JoinWords(parts: seq<string>)
    ensures WordsOf(Join(parts)) == WordsAll(parts)
  {
    hide WordsOf;
    if parts == [] {
      NoWords();
    } else if |parts| == 1 {
      WordsAllOne(parts[0]);
      assert parts == [parts[0]];
    } else {
      var init, last := parts[..|parts| - 1], parts[|parts| - 1];
      JoinWords(init);
      WordsConcat(Join(init) + " ", last);
      WordsConcat(Join(init), " ");
      WordsOfSpaces(" ");
    }
  }

  // ---- parts and what stands between them -----------------------------------------

  function Weave(parts: seq<string>, gaps: seq<string>): string
    requires |parts| == |gaps| + 1
  {
    if gaps == [] then parts[0] else parts[0] + gaps[0] + Weave(parts[1..], gaps[1..])
  }

  ghost predicate IsGap(g: string) {
    g != [] && AllSpace(g)
  }

  /** Whitespace between parts keeps their words and their ink. */
  lemma {:induction false} WeaveKeeps(parts: seq<string>, gaps: seq<string>)
    requires |parts| == |gaps| + 1 && forall k :: 0 <= k < |gaps| ==> IsGap(gaps[k])
    ensures Ink(Weave(parts, gaps)) == InkAll(parts)
    ensures WordsOf(Weave(parts, gaps)) == WordsAll(parts)
  {
    hide Ink, InkAll, WordsOf, WordsAll;
    var first, rest := parts[0], parts[1..];
    assert parts == [first] + rest;
    InkAllConcat([first], rest);
    WordsAllConcat([first], rest);
    InkAllOne(first);
    WordsAllOne(first);
    if gaps == [] {
      InkNone();
      NoWords();
    } else {
      WeaveKeeps(rest, gaps[1..]);
      GapKeeps(first, gaps[0], Weave(rest, gaps[1..]));
    }
  }

  lemma GapKeeps(a: string, g: string, b: string)
    requires IsGap(g)
    ensures Ink(a + g + b) == Ink(a) + Ink(b) && WordsOf(a + g + b) == WordsOf(a) + WordsOf(b)
  {
    hide Ink, WordsOf, IsSpace;
    InkConcat(a + g, b);
    InkConcat(a, g);
    InkOfSpaces(g);
    WordsConcat(a + g, b);
    WordsConcat(a, g);
    WordsOfSpaces(g);
    assert (a + g)[|a + g| - 1] == g[|g| - 1];
    assert Ink(a) + [] == Ink(a) && WordsOf(a) + [] == WordsOf(a);
  }

  // ---- splitting behind a stop ------------------------------------------------------

  // No whitespace follows a stop inside.
  ghost predicate IsPiece(part: string, stops: set<char>) {
    forall k :: 0 < k < |part| && IsSpace(part[k]) ==> part[k - 1] !in stops
  }

  // Whitespace behind a stop starts at i.
  predicate SplitHere(s: string, from: nat, i: nat, stops: set<char>)
    requires i < |s|
  {
    IsSpace(s[i]) && i > from && s[i - 1] in stops
  }

  // re.split on whitespace runs that follow a stop: the pieces of s[from..], scanned up to i.
  function Pieces(s: string, from: nat, i: nat, stops: set<char>): (ps: seq<string>)
    requires from <= i <= |s|
    ensures ps != []
    decreases |s| - i
  {
    if i == |s| then [s[from..]]
    else if SplitHere(s, from, i, stops) then
      [s[from..i]] + Pieces(s, RunEnd(s, i), RunEnd(s, i), stops)
    else Pieces(s, from, i + 1, stops)
  }

  // What stands between them.
  function Runs(s: string, from: nat, i: nat, stops: set<char>): (gs: seq<string>)
    requires from <= i <= |s|
    decreases |s| - i
  {
    if i == |s| then []
    else if SplitHere(s, from, i, stops) then
      [s[i..RunEnd(s, i)]] + Runs(s, RunEnd(s, i), RunEnd(s, i), stops)
    else Runs(s, from, i + 1, stops)
  }

  // s is the parts with whole whitespace runs between them, each behind a stop, and no other
  // whitespace stands behind a stop.
  ghost predicate IsSplit(parts: seq<string>, gaps: seq<string>, s: string, stops: set<char>) {
    && |parts| == |gaps| + 1
    && Weave(parts, gaps) == s
    && (forall k :: 0 <= k < |parts| ==> IsPiece(parts[k], stops))
    && (forall k :: 0 <= k < |gaps| ==> IsGap(gaps[k]))
    && (forall k :: 0 <= k < |gaps| ==> parts[k] != [] && parts[k][|parts[k]| - 1] in stops)
    && (forall k :: 0 < k < |parts| && parts[k] != [] ==> !IsSpace(parts[k][0]))
  }

  lemma SlicePiece(s: string, from: nat, i: nat, stops: set<char>)
    requires from <= i <= |s|
    requires forall k :: from < k < i && IsSpace(s[k]) ==> s[k - 1] !in stops
    ensures IsPiece(s[from..i], stops)
  {
  }

  /** The pieces are a split of the text. */
  lemma {:induction false} PiecesSplit(s: string, from: nat, i: nat, stops: set<char>)
    requires from <= i <= |s| && (from == i < |s| && from > 0 ==> !IsSpace(s[i]))
    requires forall k :: from < k < i && IsSpace(s[k]) ==> s[k - 1] !in stops
    ensures IsSplit(Pieces(s, from, i, stops), Runs(s, from, i, stops), s[from..], stops)
    ensures Pieces(s, from, i, stops)[0] == [] || Pieces(s, from, i, stops)[0][0] == s[from]
    decreases |s| - i
  {
    hide IsSpace, IsPiece, RunEnd;
    if i == |s| {
      SlicePiece(s, from, i, stops);
      assert s[from..i] == s[from..];
    } else if SplitHere(s, from, i, stops) {
      var e := RunEnd(s, i);
      PiecesSplit(s, e, e, stops);
      SlicePiece(s, from, i, stops);
      SplitMore(s, from, i, e, Pieces(s, e, e, stops), Runs(s, e, e, stops), stops);
    } else {
      PiecesSplit(s, from, i + 1, stops);
    }
  }

  lemma SplitMore(s: string, from: nat, i: nat, e: nat, ps: seq<string>, gs: seq<string>, stops: set<char>)
    requires from < i < e <= |s| && IsSplit(ps, gs, s[e..], stops) && IsPiece(s[from..i], stops)
    requires s[i - 1] in stops && (forall k :: i <= k < e ==> IsSpace(s[k])) && (e < |s| ==> !IsSpace(s[e]))
    requires ps[0] == [] || (e < |s| && ps[0][0] == s[e])
    ensures IsSplit([s[from..i]] + ps, [s[i..e]] + gs, s[from..], stops)
  {
    hide IsPiece, IsSpace;
    var parts, gaps := [s[from..i]] + ps, [s[i..e]] + gs;
    assert parts[1..] == ps && gaps[1..] == gs;
    assert s[from..] == s[from..i] + s[i..e] + s[e..];
    assert IsGap(s[i..e]);
    forall k | 0 < k < |parts| && parts[k] != [] ensures !IsSpace(parts[k][0]) {
      assert parts[k] == ps[k - 1];
    }
  }

  method SplitAfter(s: string, stops: set<char>) returns (parts: seq<string>)
    ensures parts == Pieces(s, 0, 0, stops)
  {
    hide RunEnd, IsSpace;
    parts := [];
    var from, i := 0, 0;
    while i < |s|
      invariant 0 <= from <= i <= |s|
      invariant parts + Pieces(s, from, i, stops) == Pieces(s, 0, 0, stops)
      decreases |s| - i
    {
      if IsSpace(s[i]) && i > from && s[i - 1] in stops {
        parts := parts + [s[from..i]];
        i := SkipSpaces(s, i);
        from := i;
      } else {
        i := i + 1;
      }
    }
    parts := parts + [s[from..]];
  }

  // What a split says of its text and of its parts.
  lemma SplitKeeps(parts: seq<string>, gaps: seq<string>, s: string, stops: set<char>)
    requires IsSplit(parts, gaps, s, stops)
    ensures InkAll(parts) == Ink(s) && WordsAll(parts) == WordsOf(s)
    ensures s != [] && !IsSpace(s[|s| - 1]) ==> parts[|parts| - 1] != []
  {
    hide Ink, InkAll, WordsOf, WordsAll, IsSpace;
    WeaveKeeps(parts, gaps);
    WeaveEnds(parts, gaps);
  }

  lemma {:induction false} WeaveEnds(parts: seq<string>, gaps: seq<string>)
    requires |parts| == |gaps| + 1 && forall k :: 0 <= k < |gaps| ==> IsGap(gaps[k])
    ensures var s, last := Weave(parts, gaps), parts[|parts| - 1];
      && |last| <= |s| && s[|s| - |last|..] == last
      && (gaps != [] ==> |s| > |last|)
      && (gaps != [] && last == [] ==> IsSpace(s[|s| - 1]))
  {
    hide IsSpace;
    if gaps != [] {
      WeaveEnds(parts[1..], gaps[1..]);
      var t := Weave(parts[1..], gaps[1..]);
      assert parts[1..][|parts| - 2] == parts[|parts| - 1];
      if |gaps| == 1 { assert t == parts[1]; }
    }
  }
}
