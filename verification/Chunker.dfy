/**
  The sentence chunker shared by the qwen3, longcat and omnivoice providers: oversized
  sentences are cut at soft breaks, then sentences are packed greedily. The caps are
  parameters; longcat and omnivoice use 220 and 400, qwen3 takes them from the environment.
*/
module Chunker {
  import opened Options
  import opened Text

  predicate SoftPunctuation(c: char) {
    c == ',' || c == ';' || c == ':' || c == '\U{2014}' || c == '\U{2013}'
  }

  // A soft break: punctuation followed by whitespace.
  predicate BreakAt(s: string, p: nat) {
    p + 1 < |s| && SoftPunctuation(s[p]) && IsSpace(s[p + 1])
  }

  // The last soft break before n, and the whitespace after it.
  function LastBreakEnd(s: string, n: nat): (e: Option<nat>)
    requires n <= |s|
    ensures e.Some? ==> 2 <= e.value <= |s| && IsSpace(s[e.value - 1])
    ensures e.None? <==> forall p :: 0 <= p < n ==> !BreakAt(s, p)
  {
    if n == 0 then None
    else if BreakAt(s, n - 1) then Some(RunEnd(s, n))
    else LastBreakEnd(s, n - 1)
  }

  // str.rfind(" ") within the first n characters, plus one; 0 when there is none.
  function AfterLastSpace(s: string, n: nat): (k: nat)
    requires n <= |s|
    ensures k <= n
    ensures k > 0 ==> s[k - 1] == ' '
    ensures forall i :: k <= i < n ==> s[i] != ' '
  {
    if n == 0 then 0 else if s[n - 1] == ' ' then n else AfterLastSpace(s, n - 1)
  }

  // Where a head of exactly cap characters is cut.
  function CutOf(head: string): (cut: nat)
    ensures head != [] ==> 1 <= cut <= |head|
  {
    match LastBreakEnd(head, |head|)
    case Some(e) => e
    case None =>
      var k := AfterLastSpace(head, |head|);
      if k > 1 then k else |head|
  }

  // ---- the regular expression ------------------------------------------------

  // `[,;:--]\s+|\s+-\s+` at position i: the end of the match.
  function MatchAt(s: string, i: nat): (e: Option<nat>)
    requires i < |s|
    ensures e.Some? ==> i < e.value <= |s|
  {
    if BreakAt(s, i) then Some(RunEnd(s, i + 1))
    else if IsSpace(s[i]) then
      var j := RunEnd(s, i);
      if j < |s| && s[j] == '\U{2014}' && BreakAt(s, j) then Some(RunEnd(s, j + 1)) else None
    else None
  }

  // A match hides no later soft break: the positions it covers are whitespace, except
  // for the punctuation its end belongs to.
  lemma MatchCovers(s: string, i: nat)
    requires i < |s| && MatchAt(s, i).Some?
    ensures LastBreakEnd(s, MatchAt(s, i).value) == MatchAt(s, i)
  {
    var e := MatchAt(s, i).value;
    var p := if BreakAt(s, i) then i else RunEnd(s, i);
    assert BreakAt(s, p) && e == RunEnd(s, p + 1);
    BreakBeforeRun(s, p, e);
  }

  lemma {:induction false} BreakBeforeRun(s: string, p: nat, n: nat)
    requires BreakAt(s, p) && p < n <= |s| && forall k :: p < k < n ==> IsSpace(s[k])
    ensures LastBreakEnd(s, n) == Some(RunEnd(s, p + 1))
  {
    hide RunEnd, IsSpace, SoftPunctuation;
    if n > p + 1 {
      SpaceIsNoBreak(s[n - 1]);
      BreakBeforeRun(s, p, n - 1);
    }
  }

  lemma SpaceIsNoBreak(c: char)
    ensures IsSpace(c) ==> !SoftPunctuation(c)
  {
  }

  // The last match of `finditer`: a left-to-right scan over non-overlapping matches. It
  // finds the last soft break.
  method LastMatchEnd(s: string) returns (last: Option<nat>)
    ensures last == LastBreakEnd(s, |s|)
  {
    last := None;
    var i := 0;
    while i < |s|
      invariant 0 <= i <= |s| && last == LastBreakEnd(s, i)
    {
      var m := MatchAt(s, i);
      if m.Some? {
        MatchCovers(s, i);
        last := m;
        i := m.value;
      } else {
        i := i + 1;
      }
    }
  }

  // ---- cutting ---------------------------------------------------------------

  method FindCut(head: string) returns (cut: nat)
    requires head != []
    ensures cut == CutOf(head)
  {
    var last := LastMatchEnd(head);
    if last.Some? {
      cut := last.value;
    } else {
      var k := |head|;
      while k > 0 && head[k - 1] != ' '
        invariant 0 <= k <= |head| && AfterLastSpace(head, k) == AfterLastSpace(head, |head|)
      {
        k := k - 1;
      }
      cut := if k > 1 then k else |head|;
    }
  }

  lemma {:induction false} LastBreakIs(s: string, n: nat) returns (p: nat)
    requires n <= |s| && LastBreakEnd(s, n).Some?
    ensures p < n && BreakAt(s, p) && LastBreakEnd(s, n) == Some(RunEnd(s, p + 1))
    ensures forall q :: p < q < n ==> !BreakAt(s, q)
  {
    hide RunEnd, BreakAt;
    if BreakAt(s, n - 1) { p := n - 1; } else { p := LastBreakIs(s, n - 1); }
  }

  // The cut stands behind the soft break at p and the whitespace that follows it.
  ghost predicate CutBehind(head: string, p: nat, cut: nat) {
    && p + 1 < cut <= |head| && BreakAt(head, p)
    && (forall k :: p < k < cut ==> IsSpace(head[k]))
    && (cut < |head| ==> !IsSpace(head[cut]))
  }

  /** A head is cut behind its last soft break; without one behind its last space, unless that
      is its first character; without either at its end. */
  lemma CutIsWhere(head: string)
    requires head != []
    ensures (exists p :: 0 <= p < |head| && BreakAt(head, p)) ==>
      exists p: nat :: CutBehind(head, p, CutOf(head)) && forall q :: p < q < |head| ==> !BreakAt(head, q)
    ensures (forall p :: 0 <= p < |head| ==> !BreakAt(head, p)) ==>
      var cut := CutOf(head);
      && (forall i :: cut <= i < |head| ==> head[i] != ' ')
      && (if exists i :: 0 < i < |head| && head[i] == ' ' then head[cut - 1] == ' ' else cut == |head|)
  {
    hide BreakAt;
    if LastBreakEnd(head, |head|).Some? {
      var p := LastBreakIs(head, |head|);
      BreakInside(head, p);
      assert CutBehind(head, p, CutOf(head));
    }
  }

  lemma BreakInside(s: string, p: nat)
    requires BreakAt(s, p)
    ensures p + 1 < |s| && RunEnd(s, p + 1) > p + 1 && forall k :: p < k < RunEnd(s, p + 1) ==> IsSpace(s[k])
  {
  }

  ghost predicate InsideWord(s: string, cut: nat) {
    0 < cut < |s| && !IsSpace(s[cut - 1]) && !IsSpace(s[cut])
  }

  /** A cut falls inside a word exactly when the head has neither a soft break nor a space
      past its first character, and the cap itself falls inside a word. */
  lemma CutInsideWord(s: string, cap: nat)
    requires 1 <= cap < |s|
    ensures InsideWord(s, CutOf(s[..cap])) <==>
      && (forall p :: 0 <= p < cap ==> !BreakAt(s[..cap], p))
      && (forall i :: 0 < i < cap ==> s[i] != ' ')
      && InsideWord(s, cap)
  {
    hide RunEnd;
    var head := s[..cap];
    assert IsSpace(' ');
    assert forall i :: 0 <= i < cap ==> head[i] == s[i];
    if LastBreakEnd(head, cap).None? {
      var k := AfterLastSpace(head, cap);
      if k > 1 { assert s[k - 1] == ' '; }
    }
  }

  // "Never mid-word" fails for a word longer than the cap, and for a short one behind
  // whitespace that is not a space.
  lemma WordsAreCut()
    ensures InsideWord("aaa", CutOf("aaa"[..2]))
    ensures InsideWord("aa\tbb", CutOf("aa\tbb"[..4]))
  {
    CutInsideWord("aaa", 2);
    CutInsideWord("aa\tbb", 4);
    assert "aa\tbb"[..4] == "aa\tb";
  }

  /** A turn of the loop makes the rest shorter exactly when the cap is positive: with a cap
      of zero it would never end. */
  lemma ProgressExactly(s: string, cap: nat)
    requires cap < |s| && !IsSpace(s[0])
    ensures |LStrip(s[CutOf(s[..cap])..])| < |s| <==> cap >= 1
  {
    if cap == 0 {
      assert CutOf(s[..0]) == 0 && s[0..] == s;
    }
  }

  function NonEmpty(parts: seq<string>): seq<string> {
    if parts == [] then []
    else NonEmpty(parts[..|parts| - 1]) + (if parts[|parts| - 1] != [] then [parts[|parts| - 1]] else [])
  }

  // The pieces before empty ones are dropped.
  function RawPieces(s: string, cap: nat): seq<string>
    requires cap >= 1
    decreases |s|
  {
    if |s| <= cap then (if s == [] then [] else [s])
    else
      var cut := CutOf(s[..cap]);
      [Strip(s[..cut])] + RawPieces(LStrip(s[cut..]), cap)
  }

  lemma RawPiecesStep(s: string, cap: nat)
    requires cap >= 1
    ensures |s| <= cap ==> RawPieces(s, cap) == if s == [] then [] else [s]
    ensures |s| > cap ==>
      var cut := CutOf(s[..cap]);
      1 <= cut <= cap && RawPieces(s, cap) == [Strip(s[..cut])] + RawPieces(LStrip(s[cut..]), cap)
  {
  }

  method SplitOversized(sentence: string, cap: nat) returns (pieces: seq<string>)
    requires cap >= 1
    ensures pieces == if |sentence| <= cap then [sentence] else NonEmpty(RawPieces(sentence, cap))
  {
    hide CutOf, LastBreakEnd, Strip, LStrip, NonEmpty, RawPieces;
    if |sentence| <= cap { return [sentence]; }
    var raw: seq<string> := [];
    var remaining := sentence;
    while |remaining| > cap
      invariant raw + RawPieces(remaining, cap) == RawPieces(sentence, cap)
      decreases |remaining|
    {
      var cut := FindCut(remaining[..cap]);
      RawPiecesStep(remaining, cap);
      raw := raw + [Strip(remaining[..cut])];
      remaining := LStrip(remaining[cut..]);
    }
    RawPiecesStep(remaining, cap);
    if remaining != [] { raw := raw + [remaining]; } else { assert raw + [] == raw; }
    assert raw == RawPieces(sentence, cap);
    pieces := DropEmpty(raw);
  }

  method DropEmpty(raw: seq<string>) returns (parts: seq<string>)
    ensures parts == NonEmpty(raw)
  {
    parts := [];
    for i := 0 to |raw|
      invariant parts == NonEmpty(raw[..i])
    {
      assert raw[..i + 1][..i] == raw[..i];
      if raw[i] != [] { parts := parts + [raw[i]]; }
    }
    assert raw[..|raw|] == raw;
  }

  lemma NonEmptyStep(parts: seq<string>)
    requires parts != []
    ensures var init, last := parts[..|parts| - 1], parts[|parts| - 1];
      && NonEmpty(parts) == (if last == [] then NonEmpty(init) else NonEmpty(init) + [last])
      && InkAll(parts) == InkAll(init) + Ink(last)
  {
    var init := parts[..|parts| - 1];
    assert NonEmpty(init) + [] == NonEmpty(init);
  }

  lemma {:induction false} NonEmptyKeeps(parts: seq<string>, bound: nat)
    requires forall i :: 0 <= i < |parts| ==> |parts[i]| <= bound
    ensures forall i :: 0 <= i < |NonEmpty(parts)| ==> 1 <= |NonEmpty(parts)[i]| <= bound
    ensures InkAll(NonEmpty(parts)) == InkAll(parts)
  {
    if parts != [] {
      var init, last := parts[..|parts| - 1], parts[|parts| - 1];
      NonEmptyKeeps(init, bound);
      InkNone();
      NonEmptyStep(parts);
      if last != [] {
        InkAllStep(NonEmpty(init), last);
      } else {
        assert InkAll(init) + [] == InkAll(init);
      }
    }
  }

  lemma {:induction false} CutInk(s: string, cut: nat)
    requires cut <= |s|
    ensures Ink(Strip(s[..cut])) + Ink(LStrip(s[cut..])) == Ink(s)
  {
    hide Strip, LStrip, Ink;
    var head, tail := s[..cut], s[cut..];
    StripInk(head);
    LStripInk(tail);
    InkConcat(head, tail);
    assert head + tail == s;
  }

  lemma {:induction false} RawPiecesKeep(s: string, cap: nat)
    requires cap >= 1
    ensures forall i :: 0 <= i < |RawPieces(s, cap)| ==> |RawPieces(s, cap)[i]| <= cap
    ensures InkAll(RawPieces(s, cap)) == Ink(s)
    decreases |s|
  {
    hide CutOf, Strip, LStrip, RawPieces, Ink, InkAll;
    RawPiecesStep(s, cap);
    InkNone();
    if |s| <= cap {
      InkAllOne(s);
    } else {
      var cut := CutOf(s[..cap]);
      var piece, rest := Strip(s[..cut]), LStrip(s[cut..]);
      RawPiecesKeep(rest, cap);
      InkAllConcat([piece], RawPieces(rest, cap));
      InkAllOne(piece);
      CutInk(s, cut);
    }
  }

  // The parts with what stands before, between and behind them.
  ghost function Laid(gaps: seq<string>, parts: seq<string>): string
    requires |gaps| == |parts| + 1
  {
    if parts == [] then gaps[0] else gaps[0] + parts[0] + Laid(gaps[1..], parts[1..])
  }

  lemma StripAround(s: string) returns (before: string, behind: string)
    ensures s == before + Strip(s) + behind && AllSpace(before) && AllSpace(behind)
  {
    hide LStrip, RStrip, IsSpace;
    var l := LStrip(s);
    LStripIs(s);
    RStripIs(l);
    before, behind := s[..|s| - |l|], l[|RStrip(l)|..];
  }

  /** The pieces are slices of the sentence: what stands around them is whitespace. */
  lemma {:induction false} RawPiecesAreSlices(s: string, cap: nat) returns (gaps: seq<string>)
    requires cap >= 1
    ensures |gaps| == |RawPieces(s, cap)| + 1 && Laid(gaps, RawPieces(s, cap)) == s
    ensures forall k :: 0 <= k < |gaps| ==> AllSpace(gaps[k])
    decreases |s|
  {
    hide CutOf, Strip, LStrip, RawPieces, AllSpace;
    RawPiecesStep(s, cap);
    NoGap();
    if |s| <= cap {
      gaps := if s == [] then [""] else ["", ""];
    } else {
      var cut := CutOf(s[..cap]);
      var before, behind := StripAround(s[..cut]);
      var rest := LStrip(s[cut..]);
      var run := LStripRun(s[cut..]);
      var more := RawPiecesAreSlices(rest, cap);
      var pieces := RawPieces(rest, cap);
      gaps := [before, behind + run + more[0]] + more[1..];
      SpacesJoin(behind, run, more[0]);
      assert gaps[1..] == [behind + run + more[0]] + more[1..];
      LaidFirst(behind + run, more, pieces);
      assert s == s[..cut] + s[cut..];
      assert ([Strip(s[..cut])] + pieces)[1..] == pieces;
      LaidCons(before, Strip(s[..cut]), gaps[1..], pieces);
      assert gaps == [before] + gaps[1..];
      Regather(before, Strip(s[..cut]), behind, run, rest);
    }
  }

  lemma NoGap()
    ensures AllSpace("")
  {
  }

  lemma SpacesJoin(a: string, b: string, c: string)
    requires AllSpace(a) && AllSpace(b) && AllSpace(c)
    ensures AllSpace(a + b + c)
  {
    hide IsSpace;
  }

  lemma LStripRun(s: string) returns (run: string)
    ensures s == run + LStrip(s) && AllSpace(run)
  {
    hide LStrip, IsSpace;
    LStripIs(s);
    run := s[..|s| - |LStrip(s)|];
  }

  lemma LaidFirst(a: string, gaps: seq<string>, parts: seq<string>)
    requires |gaps| == |parts| + 1
    ensures Laid([a + gaps[0]] + gaps[1..], parts) == a + Laid(gaps, parts)
  {
    var g := [a + gaps[0]] + gaps[1..];
    assert g[1..] == gaps[1..];
    if parts != [] { Reattach(a, gaps[0], parts[0], Laid(gaps[1..], parts[1..])); }
  }

  lemma Reattach(a: string, b: string, c: string, d: string)
    ensures (a + b) + c + d == a + (b + c + d)
  {
  }

  lemma LaidCons(g: string, p: string, gaps: seq<string>, parts: seq<string>)
    requires |gaps| == |parts| + 1
    ensures Laid([g] + gaps, [p] + parts) == g + p + Laid(gaps, parts)
  {
    assert ([g] + gaps)[1..] == gaps && ([p] + parts)[1..] == parts;
  }

  lemma Regather(a: string, b: string, c: string, d: string, e: string)
    ensures a + b + ((c + d) + e) == (a + b + c) + (d + e)
  {
  }

  // How many cuts fall inside a word.
  ghost function WordCuts(s: string, cap: nat): nat
    requires cap >= 1
    decreases |s|
  {
    if |s| <= cap then 0
    else
      var cut := CutOf(s[..cap]);
      (if InsideWord(s, cut) then 1 else 0) + WordCuts(LStrip(s[cut..]), cap)
  }

  lemma WordCutsStep(s: string, cap: nat)
    requires cap >= 1 && |s| > cap
    ensures var cut := CutOf(s[..cap]);
      cut <= |s| && WordCuts(s, cap) == (if InsideWord(s, cut) then 1 else 0) + WordCuts(LStrip(s[cut..]), cap)
  {
  }

  lemma CutWords(s: string, cut: nat)
    requires cut <= |s|
    ensures var a, b := WordsOf(Strip(s[..cut])), WordsOf(LStrip(s[cut..]));
      if InsideWord(s, cut) then |a| + |b| == |WordsOf(s)| + 1 else a + b == WordsOf(s)
  {
    hide Strip, LStrip, WordsOf, IsSpace;
    var head, tail := s[..cut], s[cut..];
    StripWords(head);
    StripWords(tail);
    assert head + tail == s;
    WordsConcat(head, tail);
    assert Apart(head, tail) <==> !InsideWord(s, cut);
  }

  /** Every cut inside a word makes two words of it; otherwise the pieces hold the words. */
  lemma {:induction false} RawPiecesWords(s: string, cap: nat)
    requires cap >= 1
    ensures |WordsAll(RawPieces(s, cap))| == |WordsOf(s)| + WordCuts(s, cap)
    ensures WordCuts(s, cap) == 0 ==> WordsAll(RawPieces(s, cap)) == WordsOf(s)
    decreases |s|
  {
    RawPiecesStep(s, cap);
    NoWords();
    if |s| <= cap {
      WordsAllOne(s);
    } else {
      WordCutsStep(s, cap);
      hide CutOf, Strip, LStrip, RawPieces, WordsOf, WordsAll, WordCuts, InsideWord;
      var cut := CutOf(s[..cap]);
      var piece, rest := Strip(s[..cut]), LStrip(s[cut..]);
      RawPiecesWords(rest, cap);
      WordsAllConcat([piece], RawPieces(rest, cap));
      WordsAllOne(piece);
      CutWords(s, cut);
    }
  }

  lemma {:induction false} NonEmptyWords(parts: seq<string>)
    ensures WordsAll(NonEmpty(parts)) == WordsAll(parts)
  {
    hide WordsOf;
    NoWords();
    if parts != [] {
      var init, last := parts[..|parts| - 1], parts[|parts| - 1];
      NonEmptyWords(init);
      assert NonEmpty(init) + [] == NonEmpty(init);
      WordsAllConcat(NonEmpty(init), [last]);
      WordsAllOne(last);
    }
  }

  // What becomes of one sentence.
  function Cut(s: string, cap: nat): seq<string>
    requires cap >= 1
  {
    if |s| > cap then NonEmpty(RawPieces(s, cap)) else [s]
  }

  // The text of a sentence list, cut to the cap.
  function Expand(sentences: seq<string>, cap: nat): seq<string>
    requires cap >= 1
  {
    if sentences == [] then []
    else
      Expand(sentences[..|sentences| - 1], cap) + Cut(sentences[|sentences| - 1], cap)
  }

  // The cuts inside words in all of them.
  ghost function CutsIn(sentences: seq<string>, cap: nat): nat
    requires cap >= 1
  {
    if sentences == [] then 0
    else CutsIn(sentences[..|sentences| - 1], cap) + WordCuts(sentences[|sentences| - 1], cap)
  }

  lemma {:induction false} ShortHasNoCuts(sentences: seq<string>, cap: nat)
    requires cap >= 1 && forall s :: s in sentences ==> |s| <= cap
    ensures CutsIn(sentences, cap) == 0
  {
    if sentences != [] {
      var init := sentences[..|sentences| - 1];
      assert sentences[|sentences| - 1] in sentences && forall x :: x in init ==> x in sentences;
      ShortHasNoCuts(init, cap);
    }
  }

  lemma {:induction false} ExpandWords(sentences: seq<string>, cap: nat)
    requires cap >= 1
    ensures |WordsAll(Expand(sentences, cap))| == |WordsAll(sentences)| + CutsIn(sentences, cap)
    ensures CutsIn(sentences, cap) == 0 ==> WordsAll(Expand(sentences, cap)) == WordsAll(sentences)
  {
    hide RawPieces, NonEmpty, WordsOf;
    NoWords();
    if sentences != [] {
      var init, s := sentences[..|sentences| - 1], sentences[|sentences| - 1];
      ExpandWords(init, cap);
      RawPiecesWords(s, cap);
      NonEmptyWords(RawPieces(s, cap));
      WordsAllOne(s);
      WordsAllConcat(Expand(init, cap), Cut(s, cap));
    }
  }

  lemma {:induction false} CutKeeps(s: string, cap: nat)
    requires cap >= 1 && s != []
    ensures forall p :: p in Cut(s, cap) ==> 1 <= |p| <= cap
    ensures InkAll(Cut(s, cap)) == Ink(s)
  {
    hide RawPieces, NonEmpty, Ink, InkAll;
    if |s| > cap {
      RawPiecesKeep(s, cap);
      NonEmptyKeeps(RawPieces(s, cap), cap);
    } else {
      InkAllOne(s);
    }
  }

  lemma {:induction false} ExpandLast(sentences: seq<string>, cap: nat)
    requires cap >= 1 && sentences != []
    ensures var init, s := sentences[..|sentences| - 1], sentences[|sentences| - 1];
      && Expand(sentences, cap) == Expand(init, cap) + Cut(s, cap)
      && InkAll(sentences) == InkAll(init) + Ink(s)
  {
    hide RawPieces, NonEmpty, Ink;
  }

  lemma {:induction false} ExpandKeeps(sentences: seq<string>, cap: nat)
    requires cap >= 1 && forall s :: s in sentences ==> s != []
    ensures forall p :: p in Expand(sentences, cap) ==> 1 <= |p| <= cap
    ensures InkAll(Expand(sentences, cap)) == InkAll(sentences)
  {
    hide Cut, Ink, InkAll;
    if sentences != [] {
      hide Expand;
      var init, s := sentences[..|sentences| - 1], sentences[|sentences| - 1];
      assert s in sentences && forall x :: x in init ==> x in sentences;
      ExpandKeeps(init, cap);
      CutKeeps(s, cap);
      ExpandLast(sentences, cap);
      InkAllConcat(Expand(init, cap), Cut(s, cap));
    }
  }

  // ---- packing -----------------------------------------------------------------

  // Greedy packing of `rest` behind the buffered group.
  function Pack(buf: seq<string>, rest: seq<string>, target: int): seq<seq<string>>
    decreases |rest|
  {
    if rest == [] then (if buf == [] then [] else [buf])
    else if buf != [] && |Join(buf)| + 1 + |rest[0]| > target then [buf] + Pack([rest[0]], rest[1..], target)
    else Pack(buf + [rest[0]], rest[1..], target)
  }

  function JoinAll(groups: seq<seq<string>>): seq<string> {
    if groups == [] then [] else JoinAll(groups[..|groups| - 1]) + [Join(groups[|groups| - 1])]
  }

  lemma {:induction false} JoinAllConcat(a: seq<seq<string>>, b: seq<seq<string>>)
    ensures JoinAll(a + b) == JoinAll(a) + JoinAll(b)
  {
    if b == [] {
      assert a + b == a;
    } else {
      var init := b[..|b| - 1];
      assert (a + b)[..|a + b| - 1] == a + init;
      JoinAllConcat(a, init);
    }
  }

  lemma JoinAllOne(g: seq<string>)
    ensures JoinAll([g]) == [Join(g)]
  {
    assert [g][..0] == [];
  }

  lemma JoinLength(buf: seq<string>, s: string)
    ensures |Join(buf + [s])| == (if buf == [] then 0 else |Join(buf)| + 1) + |s|
  {
    assert (buf + [s])[..|buf + [s]| - 1] == buf;
  }

  lemma PackStep(buf: seq<string>, rest: seq<string>, i: nat, target: int)
    requires i < |rest|
    ensures Pack(buf, rest[i..], target) ==
      if buf != [] && |Join(buf)| + 1 + |rest[i]| > target then [buf] + Pack([rest[i]], rest[i + 1..], target)
      else Pack(buf + [rest[i]], rest[i + 1..], target)
  {
    assert rest[i..][1..] == rest[i + 1..];
  }

  method PackAll(expanded: seq<string>, target: int) returns (chunks: seq<string>)
    ensures chunks == JoinAll(Pack([], expanded, target))
  {
    hide Pack, JoinAll, Join;
    var buf: seq<string> := [];
    var bufLen := 0;
    ghost var groups: seq<seq<string>> := [];
    chunks := [];
    assert expanded[0..] == expanded;
    PackEnds();
    for i := 0 to |expanded|
      invariant bufLen == |Join(buf)|
      invariant groups + Pack(buf, expanded[i..], target) == Pack([], expanded, target)
      invariant chunks == JoinAll(groups)
    {
      var s := expanded[i];
      var addition := |s| + (if buf != [] then 1 else 0);
      PackStep(buf, expanded, i, target);
      JoinLength(buf, s);
      JoinLength([], s);
      assert [] + [s] == [s];
      if buf != [] && bufLen + addition > target {
        JoinAllConcat(groups, [buf]);
        JoinAllOne(buf);
        chunks := chunks + [Join(buf)];
        groups := groups + [buf];
        buf := [s];
        bufLen := |s|;
      } else {
        buf := buf + [s];
        bufLen := bufLen + addition;
      }
    }
    PackLast(buf, target);
    assert expanded[|expanded|..] == [];
    if buf == [] { assert groups + [] == groups; }
    if buf != [] {
      JoinAllConcat(groups, [buf]);
      JoinAllOne(buf);
      chunks := chunks + [Join(buf)];
    }
  }

  lemma PackEnds()
    ensures Join([]) == [] && JoinAll([]) == []
  {
  }

  lemma PackLast(buf: seq<string>, target: int)
    ensures Pack(buf, [], target) == if buf == [] then [] else [buf]
  {
  }

  // ---- greedy packing is optimal -------------------------------------------------

  // A group that needs no cut: one sentence, or several that join to at most the target.
  predicate Fits(g: seq<string>, target: int) {
    |g| == 1 || (|g| > 1 && |Join(g)| <= target)
  }

  ghost predicate AllFit(groups: seq<seq<string>>, target: int) {
    forall i :: 0 <= i < |groups| ==> Fits(groups[i], target)
  }

  function Flatten(groups: seq<seq<string>>): seq<string> {
    if groups == [] then [] else groups[0] + Flatten(groups[1..])
  }

  /** Greedy packing cuts its input into consecutive groups that fit. */
  lemma {:induction false} PackIsPartition(buf: seq<string>, rest: seq<string>, target: int)
    requires buf == [] || Fits(buf, target)
    ensures Flatten(Pack(buf, rest, target)) == buf + rest
    ensures AllFit(Pack(buf, rest, target), target)
    decreases |rest|
  {
    hide Join;
    if rest == [] {
      assert Flatten([buf]) == buf + Flatten([buf][1..]) == buf;
    } else {
      var s := rest[0];
      JoinLength(buf, s);
      if buf != [] && |Join(buf)| + 1 + |s| > target {
        var tail := Pack([s], rest[1..], target);
        PackIsPartition([s], rest[1..], target);
        assert ([buf] + tail)[1..] == tail;
        assert buf + ([s] + rest[1..]) == buf + rest;
      } else {
        PackIsPartition(buf + [s], rest[1..], target);
        assert buf + [s] + rest[1..] == buf + rest;
      }
    }
  }

  // A group that cannot take the first sentence of the next.
  predicate Full(g: seq<string>, next: seq<string>, target: int) {
    g != [] && next != [] && |Join(g)| + 1 + |next[0]| > target
  }

  ghost predicate Tight(groups: seq<seq<string>>, target: int) {
    forall i, j :: 0 <= i && j == i + 1 < |groups| ==> Full(groups[i], groups[j], target)
  }

  /** Greedy packing fills each group before it begins the next. */
  lemma {:induction false} PackIsGreedy(buf: seq<string>, rest: seq<string>, target: int)
    ensures var groups := Pack(buf, rest, target);
      && Tight(groups, target)
      && (buf + rest != [] ==> groups != [] && groups[0] != [] && buf <= groups[0])
    decreases |rest|
  {
    hide Join;
    if rest != [] {
      var s := rest[0];
      if buf != [] && |Join(buf)| + 1 + |s| > target {
        PackIsGreedy([s], rest[1..], target);
        var tail := Pack([s], rest[1..], target);
        assert tail[0][0] == s;
        TightCons(buf, tail, target);
      } else {
        PackIsGreedy(buf + [s], rest[1..], target);
        assert buf <= buf + [s];
      }
    }
  }

  lemma TightCons(g: seq<string>, tail: seq<seq<string>>, target: int)
    requires tail != [] && Full(g, tail[0], target) && Tight(tail, target)
    ensures Tight([g] + tail, target)
  {
    hide Full;
    var all := [g] + tail;
    forall i, j | 0 <= i && j == i + 1 < |all| ensures Full(all[i], all[j], target) {
      if i > 0 { assert all[i] == tail[i - 1] && all[j] == tail[j - 1]; }
    }
  }

  lemma TightRest(groups: seq<seq<string>>, target: int)
    requires groups != [] && AllFit(groups, target) && Tight(groups, target)
    ensures AllFit(groups[1..], target) && Tight(groups[1..], target)
  {
    hide Full, Fits;
    var rest := groups[1..];
    forall i, j | 0 <= i && j == i + 1 < |rest| ensures Full(rest[i], rest[j], target) {
      assert rest[i] == groups[i + 1] && rest[j] == groups[j + 1];
    }
  }

  lemma FlattenNone(groups: seq<seq<string>>, target: int)
    requires AllFit(groups, target)
    ensures Flatten(groups) == [] <==> groups == []
  {
    if groups != [] { assert Fits(groups[0], target); }
  }

  /** Nothing else is full, fits and cuts into consecutive groups: greedy packing is the only way. */
  lemma {:induction false} GreedyIsUnique(a: seq<seq<string>>, b: seq<seq<string>>, target: int)
    requires Flatten(a) == Flatten(b) && AllFit(a, target) && AllFit(b, target)
    requires Tight(a, target) && Tight(b, target)
    ensures a == b
    decreases |a|
  {
    hide Join;
    FlattenNone(a, target);
    FlattenNone(b, target);
    if a != [] && b != [] {
      ShorterGroupHasRoom(a, b, target);
      ShorterGroupHasRoom(b, a, target);
      TightRest(a, target);
      TightRest(b, target);
      assert a[0] == Flatten(a)[..|a[0]|] && b[0] == Flatten(b)[..|b[0]|];
      assert Flatten(a[1..]) == Flatten(a)[|a[0]|..] && Flatten(b[1..]) == Flatten(b)[|b[0]|..];
      GreedyIsUnique(a[1..], b[1..], target);
      assert a == [a[0]] + a[1..] && b == [b[0]] + b[1..];
    }
  }

  lemma ShorterGroupHasRoom(a: seq<seq<string>>, b: seq<seq<string>>, target: int)
    requires a != [] && b != [] && Flatten(a) == Flatten(b) && AllFit(a, target) && AllFit(b, target)
    requires Tight(a, target)
    ensures |a[0]| >= |b[0]|
  {
    hide Join, Tight, Fits, Flatten;
    FlattenFirst(a);
    FlattenFirst(b);
    if |a[0]| < |b[0]| {
      assert |a| > 1;
      SecondIsFull(a, target);
      LongerPrefix(Flatten(a), a[0], b[0]);
      FullHasNoRoom(a[0], a[1][0], b[0][|a[0]| + 1..], target);
    }
  }

  lemma FlattenFirst(groups: seq<seq<string>>)
    requires groups != []
    ensures |groups[0]| <= |Flatten(groups)| && groups[0] == Flatten(groups)[..|groups[0]|]
    ensures |groups| == 1 ==> Flatten(groups) == groups[0]
  {
  }

  lemma LongerPrefix(all: seq<string>, x: seq<string>, y: seq<string>)
    requires |x| < |y| <= |all| && x == all[..|x|] && y == all[..|y|]
    ensures y == x + [all[|x|]] + y[|x| + 1..]
  {
  }

  lemma FullHasNoRoom(g: seq<string>, s: string, more: seq<string>, target: int)
    requires g != [] && |Join(g)| + 1 + |s| > target
    ensures !Fits(g + [s] + more, target)
  {
    hide Join;
    JoinLength(g, s);
    JoinGrowsRight(g + [s], more);
  }

  lemma SecondIsFull(groups: seq<seq<string>>, target: int)
    requires |groups| > 1 && Tight(groups, target)
    ensures Full(groups[0], groups[1], target)
    ensures |Flatten(groups)| > |groups[0]| && Flatten(groups)[|groups[0]|] == groups[1][0]
  {
    assert Full(groups[0], groups[1], target);
    assert Flatten(groups[1..])[0] == groups[1][0];
  }

  lemma {:induction false} JoinGrowsRight(a: seq<string>, c: seq<string>)
    ensures |Join(a)| <= |Join(a + c)|
  {
    hide Join;
    if c == [] {
      assert a + c == a;
    } else {
      var init, last := c[..|c| - 1], c[|c| - 1];
      JoinGrowsRight(a, init);
      JoinLength(a + init, last);
      assert a + c == a + init + [last];
      if a == [] { PackEnds(); }
      assert a + init == [] ==> a == [];
    }
  }

  lemma {:induction false} JoinGrowsLeft(a: seq<string>, b: seq<string>)
    ensures |Join(b)| <= |Join(a + b)|
  {
    hide Join;
    PackEnds();
    if b != [] {
      var init, last := b[..|b| - 1], b[|b| - 1];
      JoinGrowsLeft(a, init);
      JoinLength(a + init, last);
      JoinLength(init, last);
      assert b == init + [last] && a + b == a + init + [last];
      assert init != [] ==> a + init != [];
    }
  }

  lemma JoinGrows(a: seq<string>, b: seq<string>, c: seq<string>)
    ensures |Join(b)| <= |Join(a + b + c)|
  {
    JoinGrowsLeft(a, b);
    JoinGrowsRight(a + b, c);
  }

  /** Among all ways to cut the text behind `pre` into consecutive groups that fit, the
      greedy one has the fewest groups. */
  lemma {:induction false} PackIsOptimal(pre: seq<string>, buf: seq<string>, rest: seq<string>, target: int,
                                         other: seq<seq<string>>)
    requires Flatten(other) == pre + buf + rest && AllFit(other, target)
    ensures |Pack(buf, rest, target)| <= |other|
    decreases |rest|
  {
    hide Join, Pack;
    if rest == [] {
      PackLast(buf, target);
    } else {
      var s := rest[0];
      assert rest[0..] == rest;
      PackStep(buf, rest, 0, target);
      if buf != [] && |Join(buf)| + 1 + |s| > target {
        FirstGroupStops(pre, buf, rest, target, other);
        var k := |other[0]|;
        assert Flatten(other)[k..] == Flatten(other[1..]);
        assert (pre + buf + rest)[k..] == (pre + buf)[k..] + [s] + rest[1..];
        PackIsOptimal((pre + buf)[k..], [s], rest[1..], target, other[1..]);
      } else {
        assert pre + buf + rest == pre + (buf + [s]) + rest[1..];
        PackIsOptimal(pre, buf + [s], rest[1..], target, other);
      }
    }
  }

  // When the buffer cannot take the next sentence, no other cut's first group reaches it.
  lemma FirstGroupStops(pre: seq<string>, buf: seq<string>, rest: seq<string>, target: int, other: seq<seq<string>>)
    requires buf != [] && rest != [] && |Join(buf)| + 1 + |rest[0]| > target
    requires Flatten(other) == pre + buf + rest && AllFit(other, target)
    ensures other != [] && 1 <= |other[0]| <= |pre + buf|
  {
    hide Join;
    var first := other[0];
    var all := pre + buf + rest;
    assert first == all[..|first|];
    assert Fits(first, target);
    if |first| > |pre + buf| {
      var n := |pre + buf| + 1;
      assert first == pre + (buf + [rest[0]]) + first[n..];
      JoinLength(buf, rest[0]);
      JoinGrows(pre, buf + [rest[0]], first[n..]);
    }
  }

  // ---- what chunking keeps -------------------------------------------------------

  lemma {:induction false} JoinAllKeeps(groups: seq<seq<string>>, target: int, cap: nat)
    requires AllFit(groups, target)
    requires forall i, j :: 0 <= i < |groups| && 0 <= j < |groups[i]| ==> 1 <= |groups[i][j]| <= cap
    ensures |JoinAll(groups)| == |groups|
    ensures forall i :: 0 <= i < |groups| ==>
      && JoinAll(groups)[i] == Join(groups[i]) && 1 <= |Join(groups[i])|
      && (|Join(groups[i])| <= target || |Join(groups[i])| <= cap)
  {
    hide Join;
    if groups != [] {
      var init, g := groups[..|groups| - 1], groups[|groups| - 1];
      JoinAllKeeps(init, target, cap);
      assert Fits(g, target);
      assert g == g[..|g| - 1] + [g[|g| - 1]];
      JoinLength(g[..|g| - 1], g[|g| - 1]);
      assert |g| == 1 ==> g[..|g| - 1] == [];
    }
  }

  lemma {:induction false} JoinAllInk(groups: seq<seq<string>>)
    ensures InkAll(JoinAll(groups)) == InkAll(Flatten(groups))
  {
    hide Ink, Join, InkAll, JoinAll;
    InkNone();
    PackEnds();
    if groups != [] {
      var g, rest := groups[0], groups[1..];
      JoinAllInk(rest);
      JoinAllConcat([g], rest);
      JoinAllOne(g);
      assert groups == [g] + rest;
      InkAllConcat([Join(g)], JoinAll(rest));
      InkAllOne(Join(g));
      JoinInk(g);
      InkAllConcat(g, Flatten(rest));
    }
  }

  lemma {:induction false} JoinAllWords(groups: seq<seq<string>>)
    ensures WordsAll(JoinAll(groups)) == WordsAll(Flatten(groups))
  {
    hide Join, WordsOf, WordsAll, JoinAll;
    NoWords();
    PackEnds();
    if groups != [] {
      var g, rest := groups[0], groups[1..];
      JoinAllWords(rest);
      JoinAllConcat([g], rest);
      JoinAllOne(g);
      assert groups == [g] + rest;
      WordsAllConcat([Join(g)], JoinAll(rest));
      WordsAllOne(Join(g));
      JoinWords(g);
      WordsAllConcat(g, Flatten(rest));
    }
  }

  lemma {:induction false} FlattenMembers(groups: seq<seq<string>>, i: nat, j: nat)
    requires i < |groups| && j < |groups[i]|
    ensures groups[i][j] in Flatten(groups)
  {
    if i > 0 { FlattenMembers(groups[1..], i - 1, j); }
  }

  function Chunks(sentences: seq<string>, target: int, cap: nat): seq<string>
    requires cap >= 1
  {
    JoinAll(Pack([], Expand(sentences, cap), target))
  }

  /** Chunks are non-empty and bounded, and hold the ink of the sentences in order. */
  lemma ChunksKeep(sentences: seq<string>, target: int, cap: nat)
    requires cap >= 1 && forall s :: s in sentences ==> s != []
    ensures InkAll(Chunks(sentences, target, cap)) == InkAll(sentences)
    ensures forall c :: c in Chunks(sentences, target, cap) ==> 1 <= |c| && (|c| <= target || |c| <= cap)
  {
    hide Pack, Expand, Flatten, JoinAll, InkAll, Join;
    var expanded := Expand(sentences, cap);
    var groups := Pack([], expanded, target);
    ExpandKeeps(sentences, cap);
    PackIsPartition([], expanded, target);
    assert [] + expanded == expanded;
    forall i: nat, j: nat | i < |groups| && j < |groups[i]| ensures 1 <= |groups[i][j]| <= cap {
      FlattenMembers(groups, i, j);
    }
    JoinAllKeeps(groups, target, cap);
    JoinAllInk(groups);
  }

  /** Chunking keeps the words of the sentences in order exactly when no cut falls inside one. */
  lemma ChunksWords(sentences: seq<string>, target: int, cap: nat)
    requires cap >= 1
    ensures |WordsAll(Chunks(sentences, target, cap))| == |WordsAll(sentences)| + CutsIn(sentences, cap)
    ensures WordsAll(Chunks(sentences, target, cap)) == WordsAll(sentences) <==> CutsIn(sentences, cap) == 0
  {
    hide Pack, Expand, Flatten, JoinAll, WordsAll, CutsIn;
    var expanded := Expand(sentences, cap);
    PackIsPartition([], expanded, target);
    assert [] + expanded == expanded;
    JoinAllWords(Pack([], expanded, target));
    ExpandWords(sentences, cap);
  }

  /** No cut of the expanded sentences into groups that fit yields fewer chunks. */
  lemma ChunksAreFewest(sentences: seq<string>, target: int, cap: nat, other: seq<seq<string>>)
    requires cap >= 1 && Flatten(other) == Expand(sentences, cap) && AllFit(other, target)
    ensures |Chunks(sentences, target, cap)| <= |other|
  {
    hide Pack, Expand, Flatten, Join;
    var expanded := Expand(sentences, cap);
    assert [] + [] + expanded == expanded;
    PackIsOptimal([], [], expanded, target, other);
    JoinAllLength(Pack([], expanded, target));
  }

  lemma {:induction false} JoinAllLength(groups: seq<seq<string>>)
    ensures |JoinAll(groups)| == |groups|
  {
    if groups != [] { JoinAllLength(groups[..|groups| - 1]); }
  }

  // ---- segmentation ------------------------------------------------------------------

  const STOPS: set<char> := {'.', '!', '?', '\U{3002}', '\U{ff01}', '\U{ff1f}'}

  // The parts stripped, blank ones dropped.
  function Stripped(parts: seq<string>): seq<string> {
    if parts == [] then []
    else
      var p := Strip(parts[|parts| - 1]);
      Stripped(parts[..|parts| - 1]) + (if p != [] then [p] else [])
  }

  lemma {:induction false} StrippedKeeps(parts: seq<string>)
    ensures InkAll(Stripped(parts)) == InkAll(parts)
    ensures forall k :: k in Stripped(parts) ==> k != [] && exists i :: 0 <= i < |parts| && Strip(parts[i]) == k
  {
    hide Strip, Ink, InkAll;
    InkNone();
    if parts != [] {
      var init, last := parts[..|parts| - 1], parts[|parts| - 1];
      StrippedKeeps(init);
      StripInk(last);
      assert parts == init + [last];
      InkAllStep(init, last);
      if Strip(last) != [] {
        InkAllStep(Stripped(init), Strip(last));
      } else {
        assert Stripped(init) + [] == Stripped(init);
        assert InkAll(init) + [] == InkAll(init);
      }
      forall k | k in Stripped(parts) ensures k != [] && exists i :: 0 <= i < |parts| && Strip(parts[i]) == k {
        if k in Stripped(init) {
          var i :| 0 <= i < |init| && Strip(init[i]) == k;
          assert parts[i] == init[i];
        } else {
          assert Strip(parts[|parts| - 1]) == k;
        }
      }
    }
  }

  lemma {:induction false} StrippedWords(parts: seq<string>)
    ensures WordsAll(Stripped(parts)) == WordsAll(parts)
  {
    hide Strip, WordsOf;
    NoWords();
    if parts != [] {
      var init, last := parts[..|parts| - 1], parts[|parts| - 1];
      StrippedWords(init);
      StripWords(last);
      WordsAllConcat(Stripped(init), [Strip(last)]);
      WordsAllOne(Strip(last));
      assert Stripped(init) + [] == Stripped(init) && WordsAll(init) + [] == WordsAll(init);
    }
  }

  lemma {:induction false} StrippedFull(parts: seq<string>)
    requires forall i :: 0 <= i < |parts| ==> Strip(parts[i]) != []
    ensures |Stripped(parts)| == |parts| && forall i :: 0 <= i < |parts| ==> Stripped(parts)[i] == Strip(parts[i])
  {
    hide Strip;
    if parts != [] { StrippedFull(parts[..|parts| - 1]); }
  }

  method StripParts(parts: seq<string>) returns (kept: seq<string>)
    ensures kept == Stripped(parts)
  {
    hide Strip;
    kept := [];
    for i := 0 to |parts|
      invariant kept == Stripped(parts[..i])
    {
      assert parts[..i + 1][..i] == parts[..i];
      var p := Strip(parts[i]);
      if p != [] { kept := kept + [p]; }
    }
    assert parts[..|parts|] == parts;
  }

  // Sentences as the regular expression cuts them.
  function RegexSentences(text: string): seq<string> {
    if Strip(text) == [] then [] else Pieces(Strip(text), 0, 0, STOPS)
  }

  // The sentences with the whitespace between them are the text: every whitespace run behind a
  // stop separates two, and nothing else does.
  ghost predicate CutAtStops(sentences: seq<string>, text: string) {
    exists gaps :: IsSplit(sentences, gaps, Strip(text), STOPS)
  }

  lemma RegexSentencesSplit(text: string)
    ensures RegexSentences(text) != [] ==> CutAtStops(RegexSentences(text), text)
    ensures InkAll(RegexSentences(text)) == Ink(text) && WordsAll(RegexSentences(text)) == WordsOf(text)
    ensures forall s :: s in RegexSentences(text) ==> s != []
    ensures Stripped(Pieces(Strip(text), 0, 0, STOPS)) == RegexSentences(text)
  {
    hide Strip, Pieces, Runs, IsSplit, Ink, InkAll, WordsOf, WordsAll, Stripped, IsSpace;
    var t := Strip(text);
    StripInk(text);
    StripWords(text);
    InkNone();
    NoWords();
    StripEnds(text);
    var ps, gs := Pieces(t, 0, 0, STOPS), Runs(t, 0, 0, STOPS);
    PiecesSplit(t, 0, 0, STOPS);
    assert t[0..] == t;
    if t == [] {
      BlankPieces();
    } else {
      assert IsSplit(ps, gs, t, STOPS);
      SplitKeeps(ps, gs, t, STOPS);
      StripsNothing(ps, gs, t);
    }
  }

  lemma BlankPieces()
    ensures Stripped(Pieces([], 0, 0, STOPS)) == []
  {
    var blank: seq<string> := [""];
    assert Pieces([], 0, 0, STOPS) == blank;
    assert blank[..0] == [] && Strip("") == "";
  }

  lemma StopsAreNoSpace(c: char)
    requires c in STOPS
    ensures !IsSpace(c)
  {
  }

  // The pieces of a stripped text need no stripping.
  lemma StripsNothing(parts: seq<string>, gaps: seq<string>, t: string)
    requires t != [] && !IsSpace(t[0]) && !IsSpace(t[|t| - 1]) && IsSplit(parts, gaps, t, STOPS)
    requires parts[0] == [] || parts[0][0] == t[0]
    requires parts[|parts| - 1] != []
    ensures Stripped(parts) == parts && forall s :: s in parts ==> s != []
  {
    hide Strip, Stripped, IsSpace, IsPiece, IsGap;
    WeaveEnds(parts, gaps);
    var last := parts[|parts| - 1];
    assert last[|last| - 1] == t[|t| - 1] by { assert t[|t| - |last|..][|last| - 1] == t[|t| - 1]; }
    hide Weave;
    forall i | 0 <= i < |parts| ensures parts[i] != [] && Strip(parts[i]) == parts[i] {
      if i < |gaps| { StopsAreNoSpace(parts[i][|parts[i]| - 1]); }
      StripKeeps(parts[i]);
    }
    StrippedFull(parts);
  }

  /** `_regex_segment`. */
  method RegexSegment(text: string) returns (sentences: seq<string>)
    ensures sentences == RegexSentences(text)
    ensures sentences != [] ==> CutAtStops(sentences, text)
    ensures WordsAll(sentences) == WordsOf(text)
  {
    hide Strip, Pieces, CutAtStops, Stripped, WordsAll, WordsOf, RegexSentences;
    var parts := SplitAfter(Strip(text), STOPS);
    sentences := StripParts(parts);
    RegexSentencesSplit(text);
  }

  // What the segmenter made of this text: the library's segments, stripped, or the whole text
  // when they are all blank; without the library, the regular expression's.
  ghost predicate SentencesOf(sentences: seq<string>, text: string, library: Option<seq<string>>) {
    if library.None? then sentences == RegexSentences(text)
    else sentences == if Stripped(library.value) == [] then [Strip(text)] else Stripped(library.value)
  }

  /** `_pysbd_segment`: the library's segments, when it is present and does not fail. */
  method Segment(text: string, library: Option<seq<string>>) returns (sentences: seq<string>)
    requires library.Some? ==> InkAll(library.value) == Ink(text)
    ensures SentencesOf(sentences, text, library)
    ensures InkAll(sentences) == Ink(text)
    ensures library.None? ==> WordsAll(sentences) == WordsOf(text)
    ensures Strip(text) != [] ==> forall s :: s in sentences ==> s != []
  {
    hide Ink, InkAll, Strip, Stripped, WordsAll, WordsOf, RegexSentences, CutAtStops;
    if library.None? {
      sentences := RegexSegment(text);
      RegexSentencesSplit(text);
    } else {
      sentences := StripParts(library.value);
      StrippedKeeps(library.value);
      if sentences == [] {
        sentences := [Strip(text)];
        InkAllOne(Strip(text));
        StripInk(text);
      }
    }
  }

  /** `chunk`: provided segmentation conserves ink, so does chunking, within the bounds, and
      the chunks are those of this text's sentences. */
  method Chunk(text: string, library: Option<seq<string>>, target: int, cap: nat)
    returns (chunks: seq<string>, ghost sentences: seq<string>)
    requires cap >= 1
    requires library.Some? ==> InkAll(library.value) == Ink(Strip(text))
    ensures InkAll(chunks) == Ink(text)
    ensures forall c :: c in chunks ==> 1 <= |c| && (|c| <= target || |c| <= cap)
    ensures Strip(text) == [] ==> chunks == []
    ensures Strip(text) != [] ==>
              SentencesOf(sentences, Strip(text), library) && chunks == Chunks(sentences, target, cap)
    ensures library.None? ==> (WordsAll(chunks) == WordsOf(text) <==> CutsIn(sentences, cap) == 0)
  {
    hide Strip, RStrip, LStrip, RawPieces, NonEmpty, Chunks, Expand, Ink, InkAll, SentencesOf, WordsAll, WordsOf,
      CutsIn;
    var stripped := Strip(text);
    StripInk(text);
    InkNone();
    StripWords(text);
    NoWords();
    NoCuts(cap);
    chunks, sentences := [], [];
    if stripped == [] { return; }
    StripTwice(text);
    var segments := Segment(stripped, library);
    sentences := segments;
    var expanded := ExpandAll(segments, cap);
    chunks := PackAll(expanded, target);
    ChunksAre(sentences, target, cap);
    ChunksKeep(sentences, target, cap);
    ChunksWords(sentences, target, cap);
  }

  lemma NoCuts(cap: nat)
    requires cap >= 1
    ensures CutsIn([], cap) == 0
  {
  }

  lemma ChunksAre(sentences: seq<string>, target: int, cap: nat)
    requires cap >= 1
    ensures Chunks(sentences, target, cap) == JoinAll(Pack([], Expand(sentences, cap), target))
  {
  }

  lemma StripTwice(text: string)
    ensures Strip(Strip(text)) == Strip(text)
  {
    StripEnds(text);
    if Strip(text) != [] { StripKeeps(Strip(text)); }
  }

  method ExpandAll(sentences: seq<string>, cap: nat) returns (expanded: seq<string>)
    requires cap >= 1
    ensures expanded == Expand(sentences, cap)
  {
    hide RawPieces, NonEmpty;
    expanded := [];
    for i := 0 to |sentences|
      invariant expanded == Expand(sentences[..i], cap)
    {
      assert sentences[..i + 1][..i] == sentences[..i];
      var s := sentences[i];
      if |s| > cap {
        var pieces := SplitOversized(s, cap);
        expanded := expanded + pieces;
      } else {
        expanded := expanded + [s];
      }
    }
    assert sentences[..|sentences|] == sentences;
  }
}
