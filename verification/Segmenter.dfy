/**
  The command line client's segmenter: blank-line paragraphs, whitespace collapsed, then
  sentences packed greedily up to a maximum length, with over-long sentences hard-split.
*/
module Segmenter {
  import opened Options
  import opened Text
  import opened Chunker

  // ---- paragraphs ------------------------------------------------------------

  // The end of the last newline in s[i..e].
  function LastNewlineEnd(s: string, i: nat, e: nat): (n: Option<nat>)
    requires i <= e <= |s|
    ensures n.Some? ==> i < n.value <= e && s[n.value - 1] == '\n'
    ensures n.None? <==> forall k :: i <= k < e ==> s[k] != '\n'
  {
    if e == i then None
    else if s[e - 1] == '\n' then Some(e)
    else LastNewlineEnd(s, i, e - 1)
  }

  // `\n\s*\n` at position i: the end of the match.
  function BlankEnd(s: string, i: nat): (e: Option<nat>)
    requires i < |s|
    ensures e.Some? ==> i + 2 <= e.value <= |s|
  {
    if s[i] != '\n' then None else LastNewlineEnd(s, i + 1, RunEnd(s, i + 1))
  }

  // The paragraphs of s[from..], with the scan at i.
  function Paragraphs(s: string, from: nat, i: nat): (ps: seq<string>)
    requires from <= i <= |s|
    ensures ps != []
    decreases |s| - i
  {
    if i == |s| then [s[from..]]
    else match BlankEnd(s, i)
      case Some(e) => [s[from..i]] + Paragraphs(s, e, e)
      case None => Paragraphs(s, from, i + 1)
  }

  // What separates them.
  function Gaps(s: string, i: nat): seq<string>
    requires i <= |s|
    decreases |s| - i
  {
    if i == |s| then []
    else match BlankEnd(s, i)
      case Some(e) => [s[i..e]] + Gaps(s, e)
      case None => Gaps(s, i + 1)
  }

  ghost predicate IsBlankLine(g: string) {
    && |g| >= 2 && g[0] == '\n' && g[|g| - 1] == '\n'
    && forall k :: 0 <= k < |g| ==> IsSpace(g[k])
  }

  ghost predicate HasBlankLine(p: string) {
    exists a: nat, b: nat :: a < b <= |p| && IsBlankLine(p[a..b])
  }

  lemma BlankEndIsBlank(s: string, i: nat)
    requires i < |s| && BlankEnd(s, i).Some?
    ensures IsBlankLine(s[i..BlankEnd(s, i).value])
  {
    hide RunEnd;
  }

  /** Paragraphs and gaps put the text back together; the gaps are blank lines. */
  lemma {:induction false} ParagraphsWeave(s: string, from: nat, i: nat)
    requires from <= i <= |s|
    ensures |Paragraphs(s, from, i)| == |Gaps(s, i)| + 1
    ensures Weave(Paragraphs(s, from, i), Gaps(s, i)) == s[from..]
    ensures forall k :: 0 <= k < |Gaps(s, i)| ==> IsBlankLine(Gaps(s, i)[k])
    decreases |s| - i
  {
    hide BlankEnd, IsBlankLine;
    if i < |s| {
      match BlankEnd(s, i)
      case Some(e) =>
        ParagraphsWeave(s, e, e);
        var ps, gs := Paragraphs(s, e, e), Gaps(s, e);
        assert ([s[from..i]] + ps)[1..] == ps && ([s[i..e]] + gs)[1..] == gs;
        assert s[from..] == s[from..i] + s[i..e] + s[e..];
        BlankEndIsBlank(s, i);
      case None =>
        ParagraphsWeave(s, from, i + 1);
    }
  }

  // A newline followed, across whitespace only, by another one starts a blank line.
  lemma BlankLineIsFound(s: string, a: nat, b: nat)
    requires a < b <= |s| && IsBlankLine(s[a..b])
    ensures BlankEnd(s, a).Some?
  {
    var g := s[a..b];
    var e := RunEnd(s, a + 1);
    assert s[b - 1] == g[|g| - 1] && s[a] == g[0];
    assert forall k :: a <= k < b ==> s[k] == g[k - a];
    assert forall k :: a <= k < b ==> IsSpace(s[k]);
    assert a + 1 <= b - 1 < e;
  }

  lemma SliceOfSlice(s: string, from: nat, i: nat, a: nat, b: nat)
    requires from <= i <= |s| && a <= b <= i - from
    ensures s[from..i][a..b] == s[from + a..from + b]
  {
    assert forall k :: 0 <= k < b - a ==> s[from..i][a..b][k] == s[from + a..from + b][k];
  }

  lemma NoBlankLineIn(s: string, from: nat, i: nat)
    requires from <= i <= |s| && forall k :: from <= k < i ==> BlankEnd(s, k).None?
    ensures !HasBlankLine(s[from..i])
  {
    hide BlankEnd, IsBlankLine;
    var p := s[from..i];
    if a: nat, b: nat :| a < b <= |p| && IsBlankLine(p[a..b]) {
      SliceOfSlice(s, from, i, a, b);
      BlankLineIsFound(s, from + a, from + b);
    }
  }

  /** No paragraph holds a blank line. */
  lemma {:induction false} ParagraphsAreWhole(s: string, from: nat, i: nat)
    requires from <= i <= |s| && forall k :: from <= k < i ==> BlankEnd(s, k).None?
    ensures forall p :: p in Paragraphs(s, from, i) ==> !HasBlankLine(p)
    decreases |s| - i
  {
    hide BlankEnd, HasBlankLine;
    if i == |s| {
      NoBlankLineIn(s, from, i);
      assert s[from..i] == s[from..];
    } else {
      match BlankEnd(s, i)
      case Some(e) =>
        NoBlankLineIn(s, from, i);
        ParagraphsAreWhole(s, e, e);
      case None =>
        ParagraphsAreWhole(s, from, i + 1);
    }
  }

  // re.split on blank lines.
  method SplitParagraphs(s: string) returns (paras: seq<string>)
    ensures paras == Paragraphs(s, 0, 0)
  {
    hide BlankEnd, RunEnd;
    paras := [];
    var from, i := 0, 0;
    while i < |s|
      invariant 0 <= from <= i <= |s|
      invariant paras + Paragraphs(s, from, i) == Paragraphs(s, 0, 0)
      decreases |s| - i
    {
      var e := BlankEnd(s, i);
      if e.Some? {
        paras := paras + [s[from..i]];
        from, i := e.value, e.value;
      } else {
        i := i + 1;
      }
    }
    paras := paras + [s[from..]];
  }

  // ---- collapsing whitespace ---------------------------------------------------

  lemma {:induction false} WordsKeep(s: string, i: nat)
    requires i <= |s|
    ensures forall w :: w in Words(s, i) ==> IsWord(w)
    ensures InkAll(Words(s, i)) == Ink(s[i..])
    decreases |s| - i
  {
    hide RunEnd, WordEnd, Ink, InkAll;
    var b := RunEnd(s, i);
    assert s[i..] == s[i..b] + s[b..];
    InkConcat(s[i..b], s[b..]);
    InkOfSpaces(s[i..b]);
    InkNone();
    if b < |s| {
      var e := WordEnd(s, b);
      WordsKeep(s, e);
      assert s[b..] == s[b..e] + s[e..];
      InkConcat(s[b..e], s[e..]);
      InkAllConcat([s[b..e]], Words(s, e));
      InkAllOne(s[b..e]);
    }
  }

  function Collapse(s: string): string {
    Join(Words(s, 0))
  }

  // Whitespace between words only, and only single spaces.
  ghost predicate Collapsed(p: string) {
    && (forall k :: 0 <= k < |p| && IsSpace(p[k]) ==> p[k] == ' ' && 0 < k < |p| - 1 && !IsSpace(p[k + 1]))
  }

  lemma {:induction false} JoinWordsCollapsed(words: seq<string>)
    requires forall w :: w in words ==> IsWord(w)
    ensures Collapsed(Join(words))
    ensures words != [] ==> Join(words) != []
  {
    if words != [] {
      var init, last := words[..|words| - 1], words[|words| - 1];
      assert last in words && IsWord(last);
      if init != [] {
        assert forall w :: w in init ==> w in words;
        JoinWordsCollapsed(init);
        SpaceBetween(Join(init), last);
      }
    }
  }

  lemma SpaceBetween(j: string, w: string)
    requires j != [] && Collapsed(j) && IsWord(w)
    ensures Collapsed(j + " " + w)
  {
    var p := j + " " + w;
    assert forall m :: |j| < m < |p| ==> p[m] == w[m - |j| - 1];
    forall k | 0 <= k < |p| && IsSpace(p[k])
      ensures p[k] == ' ' && 0 < k < |p| - 1 && !IsSpace(p[k + 1])
    {
      if k < |j| {
        assert IsSpace(j[k]);
      } else {
        assert k == |j|;
        assert p[k + 1] == w[0];
      }
    }
  }

  /** Whitespace collapsed: the paragraph's words with single spaces between them. */
  method CollapseSpaces(para: string) returns (line: string)
    ensures line == Collapse(para)
    ensures Ink(line) == Ink(para) && WordsOf(line) == WordsOf(para) && Collapsed(line)
  {
    hide *;
    var words := SplitWords(para);
    CollapseKeeps(para, words);
    line := Join(words);
  }

  lemma CollapseKeeps(s: string, words: seq<string>)
    requires words == Words(s, 0)
    ensures Join(words) == Collapse(s) && Collapsed(Join(words))
    ensures Ink(Join(words)) == Ink(s) && WordsOf(Join(words)) == WordsOf(s)
  {
    JoinWords(words);
    hide Words, Ink, Join, IsWord;
    WordsKeep(s, 0);
    assert s[0..] == s;
    WordsAllOfWords(words);
    JoinInk(words);
    JoinWordsCollapsed(words);
  }

  method SplitWords(para: string) returns (words: seq<string>)
    ensures words == Words(para, 0)
  {
    hide RunEnd, WordEnd, Words, IsSpace;
    words := [];
    var i := SkipSpaces(para, 0);
    WordsFrom(para, 0);
    while i < |para|
      invariant 0 <= i <= |para| && (i < |para| ==> !IsSpace(para[i]))
      invariant words + Words(para, i) == Words(para, 0)
    {
      WordsStep(para, i);
      var e := i;
      while e < |para| && !IsSpace(para[e])
        invariant i <= e <= |para| && WordEnd(para, e) == WordEnd(para, i)
        decreases |para| - e
      {
        WordEndStep(para, e);
        e := e + 1;
      }
      WordEndStep(para, e);
      words := words + [para[i..e]];
      WordsFrom(para, e);
      i := SkipSpaces(para, e);
    }
    WordsFrom(para, i);
    assert words + [] == words;
  }

  lemma WordsStep(s: string, i: nat)
    requires i < |s| && !IsSpace(s[i])
    ensures Words(s, i) == [s[i..WordEnd(s, i)]] + Words(s, WordEnd(s, i))
    ensures WordEnd(s, i) > i
  {
    RunEndHere(s, i);
  }

  lemma WordsFrom(s: string, i: nat)
    requires i <= |s|
    ensures Words(s, i) == Words(s, RunEnd(s, i))
    ensures i == |s| ==> Words(s, i) == []
  {
    RunEndHere(s, RunEnd(s, i));
  }

  lemma RunEndHere(s: string, i: nat)
    requires i <= |s| && (i < |s| ==> !IsSpace(s[i]))
    ensures RunEnd(s, i) == i
  {
  }

  lemma WordEndStep(s: string, e: nat)
    requires e <= |s|
    ensures e < |s| && !IsSpace(s[e]) ==> WordEnd(s, e) == WordEnd(s, e + 1)
    ensures e == |s| || IsSpace(s[e]) ==> WordEnd(s, e) == e
  {
  }

  // ---- packing sentences -----------------------------------------------------

  // An over-long sentence in pieces of exactly max characters, and the remainder.
  function HardSplit(s: string, max: nat): (pieces: seq<string>)
    requires max >= 1
    ensures pieces != []
    decreases |s|
  {
    if |s| <= max then [s] else [s[..max]] + HardSplit(s[max..], max)
  }

  function Fragments(sentences: seq<string>, max: nat): seq<string>
    requires max >= 1
  {
    if sentences == [] then [] else HardSplit(sentences[0], max) + Fragments(sentences[1..], max)
  }

  lemma {:induction false} HardSplitKeeps(s: string, max: nat)
    requires max >= 1 && |s| >= 1
    ensures forall p :: p in HardSplit(s, max) ==> 1 <= |p| <= max
    ensures InkAll(HardSplit(s, max)) == Ink(s)
    decreases |s|
  {
    hide Ink, InkAll;
    if |s| <= max {
      InkAllOne(s);
    } else {
      HardSplitKeeps(s[max..], max);
      assert s == s[..max] + s[max..];
      InkConcat(s[..max], s[max..]);
      InkAllConcat([s[..max]], HardSplit(s[max..], max));
      InkAllOne(s[..max]);
    }
  }

  ghost function Glued(pieces: seq<string>): string {
    if pieces == [] then [] else pieces[0] + Glued(pieces[1..])
  }

  /** A hard split cuts every max characters and nowhere else. */
  lemma {:induction false} HardSplitIs(s: string, max: nat)
    requires max >= 1
    ensures Glued(HardSplit(s, max)) == s
    ensures forall i :: 0 <= i < |HardSplit(s, max)| - 1 ==> |HardSplit(s, max)[i]| == max
    decreases |s|
  {
    if |s| > max {
      HardSplitIs(s[max..], max);
      assert s == s[..max] + s[max..];
    }
  }

  // How many hard splits fall inside a word.
  ghost function HardCuts(s: string, max: nat): nat
    requires max >= 1
    decreases |s|
  {
    if |s| <= max then 0 else (if InsideWord(s, max) then 1 else 0) + HardCuts(s[max..], max)
  }

  ghost function HardCutsIn(sentences: seq<string>, max: nat): nat
    requires max >= 1
  {
    if sentences == [] then 0 else HardCuts(sentences[0], max) + HardCutsIn(sentences[1..], max)
  }

  lemma {:induction false} HardSplitWords(s: string, max: nat)
    requires max >= 1
    ensures |WordsAll(HardSplit(s, max))| == |WordsOf(s)| + HardCuts(s, max)
    ensures HardCuts(s, max) == 0 ==> WordsAll(HardSplit(s, max)) == WordsOf(s)
    decreases |s|
  {
    hide WordsOf, WordsAll, IsSpace;
    if |s| <= max {
      WordsAllOne(s);
    } else {
      HardSplitWords(s[max..], max);
      assert s == s[..max] + s[max..];
      WordsConcat(s[..max], s[max..]);
      WordsAllConcat([s[..max]], HardSplit(s[max..], max));
      WordsAllOne(s[..max]);
    }
  }

  lemma {:induction false} FragmentsWords(sentences: seq<string>, max: nat)
    requires max >= 1
    ensures |WordsAll(Fragments(sentences, max))| == |WordsAll(sentences)| + HardCutsIn(sentences, max)
    ensures HardCutsIn(sentences, max) == 0 ==> WordsAll(Fragments(sentences, max)) == WordsAll(sentences)
  {
    hide WordsOf, WordsAll, HardSplit, HardCuts;
    NoWords();
    if sentences != [] {
      var s, rest := sentences[0], sentences[1..];
      HardSplitWords(s, max);
      FragmentsWords(rest, max);
      WordsAllConcat(HardSplit(s, max), Fragments(rest, max));
      WordsAllConcat([s], rest);
      WordsAllOne(s);
      assert sentences == [s] + rest;
    }
  }

  lemma {:induction false} FragmentsKeep(sentences: seq<string>, max: nat)
    requires max >= 1 && forall s :: s in sentences ==> s != []
    ensures forall p :: p in Fragments(sentences, max) ==> 1 <= |p| <= max
    ensures InkAll(Fragments(sentences, max)) == InkAll(sentences)
  {
    hide Ink, InkAll, HardSplit;
    InkNone();
    if sentences != [] {
      var s, rest := sentences[0], sentences[1..];
      assert s in sentences && forall r :: r in rest ==> r in sentences;
      HardSplitKeeps(s, max);
      FragmentsKeep(rest, max);
      InkAllConcat(HardSplit(s, max), Fragments(rest, max));
      InkAllConcat([s], rest);
      InkAllOne(s);
      assert sentences == [s] + rest;
    }
  }

  // A full-length piece always stands alone.
  lemma FullPieceStandsAlone(buf: seq<string>, piece: string, rest: seq<string>, max: nat)
    requires |piece| == max && rest != []
    ensures Pack(buf, [piece] + rest, max) == (if buf == [] then [] else [buf]) + [[piece]] + Pack([], rest, max)
  {
    hide Join, Pack;
    var all := [piece] + rest;
    assert all[0..] == all && all[1..] == rest && rest[0..] == rest;
    PackStep(buf, all, 0, max);
    PackStep([piece], rest, 0, max);
    PackStep([], rest, 0, max);
    JoinLength([], piece);
    assert [] + [piece] == [piece] && [] + [rest[0]] == [rest[0]];
  }

  method PackSentences(sentences: seq<string>, max: nat) returns (segments: seq<string>)
    requires max >= 1 && forall s :: s in sentences ==> s != []
    ensures segments == JoinAll(Pack([], Fragments(sentences, max), max))
  {
    hide Join, Pack, JoinAll, HardSplit, Fragments;
    segments := [];
    var cur := "";
    ghost var buf: seq<string>, groups: seq<seq<string>> := [], [];
    ghost var goal := Pack([], Fragments(sentences, max), max);
    PackEnds();
    assert sentences[0..] == sentences;
    for i := 0 to |sentences|
      invariant cur == Join(buf) && (cur == "" <==> buf == [])
      invariant segments == JoinAll(groups)
      invariant groups + Pack(buf, Fragments(sentences[i..], max), max) == goal
    {
      var sentence := sentences[i];
      assert sentence in sentences;
      ghost var rest := Fragments(sentences[i + 1..], max);
      FragmentsFirst(sentences[i..], max);
      assert sentences[i..][1..] == sentences[i + 1..];
      while |sentence| > max
        invariant sentence != ""
        invariant cur == Join(buf) && (cur == "" <==> buf == [])
        invariant segments == JoinAll(groups)
        invariant groups + Pack(buf, HardSplit(sentence, max) + rest, max) == goal
        decreases |sentence|
      {
        var piece := sentence[..max];
        HardSplitStep(sentence, max);
        ghost var more := HardSplit(sentence[max..], max) + rest;
        assert HardSplit(sentence, max) + rest == [piece] + more;
        FullPieceStandsAlone(buf, piece, more, max);
        if cur != "" {
          Flush(groups, buf);
          segments := segments + [cur];
          groups := groups + [buf];
          cur, buf := "", [];
        }
        Flush(groups, [piece]);
        JoinLength([], piece);
        segments := segments + [piece];
        groups := groups + [[piece]];
        sentence := sentence[max..];
      }
      HardSplitStep(sentence, max);
      PackFirst(buf, sentence, rest, max);
      JoinAppend(buf, sentence);
      JoinAppend([], sentence);
      assert [] + [sentence] == [sentence];
      if cur == "" {
        cur, buf := sentence, [sentence];
      } else if |cur| + 1 + |sentence| <= max {
        cur, buf := cur + " " + sentence, buf + [sentence];
      } else {
        Flush(groups, buf);
        segments := segments + [cur];
        groups := groups + [buf];
        cur, buf := sentence, [sentence];
      }
    }
    NothingLeft(sentences[|sentences|..], buf, max);
    if cur != "" {
      Flush(groups, buf);
      segments := segments + [cur];
    } else {
      assert groups + [] == groups;
    }
  }

  lemma Flush(groups: seq<seq<string>>, buf: seq<string>)
    ensures JoinAll(groups + [buf]) == JoinAll(groups) + [Join(buf)]
    ensures |buf| == 1 ==> Join(buf) == buf[0]
  {
    JoinAllConcat(groups, [buf]);
    JoinAllOne(buf);
  }

  lemma JoinAppend(buf: seq<string>, s: string)
    ensures Join(buf + [s]) == if buf == [] then s else Join(buf) + " " + s
  {
    assert (buf + [s])[..|buf + [s]| - 1] == buf;
  }

  lemma FragmentsFirst(sentences: seq<string>, max: nat)
    requires max >= 1
    ensures sentences != [] ==>
      Fragments(sentences, max) == HardSplit(sentences[0], max) + Fragments(sentences[1..], max)
  {
  }

  lemma HardSplitStep(s: string, max: nat)
    requires max >= 1
    ensures HardSplit(s, max) == if |s| <= max then [s] else [s[..max]] + HardSplit(s[max..], max)
  {
  }

  lemma PackFirst(buf: seq<string>, s: string, rest: seq<string>, max: nat)
    ensures Pack(buf, [s] + rest, max) ==
      if buf != [] && |Join(buf)| + 1 + |s| > max then [buf] + Pack([s], rest, max)
      else Pack(buf + [s], rest, max)
  {
    hide Join, Pack;
    var all := [s] + rest;
    assert all[0..] == all && all[1..] == rest;
    PackStep(buf, all, 0, max);
  }

  lemma NothingLeft(rest: seq<string>, buf: seq<string>, max: nat)
    requires rest == [] && max >= 1
    ensures Pack(buf, Fragments(rest, max), max) == if buf == [] then [] else [buf]
  {
    PackLast(buf, max);
  }

  // ---- split_segments ------------------------------------------------------------

  const ENDINGS: set<char> := {'.', '!', '?'}

  // The sentences of a paragraph that is too long for one segment; otherwise its one line.
  function SentencesIn(para: string, max: nat): seq<string> {
    var line := Collapse(para);
    if line == "" then [] else if |line| <= max then [line] else Pieces(line, 0, 0, ENDINGS)
  }

  // The segments of one paragraph: its sentences, cut to size and packed greedily.
  function SegmentsOf(para: string, max: nat): seq<string>
    requires max >= 1
  {
    JoinAll(Pack([], Fragments(SentencesIn(para, max), max), max))
  }

  /** The sentences of a paragraph hold its words. With the spaces between them they are its
      one line: a space behind a stop separates two of them, and nothing else does. */
  lemma SentencesInKeep(para: string, max: nat)
    ensures InkAll(SentencesIn(para, max)) == Ink(para) && WordsAll(SentencesIn(para, max)) == WordsOf(para)
    ensures forall s :: s in SentencesIn(para, max) ==> s != []
    ensures |Collapse(para)| > max && Collapse(para) != "" ==>
      exists gaps :: IsSplit(SentencesIn(para, max), gaps, Collapse(para), ENDINGS)
  {
    hide Collapse, Ink, InkAll, WordsOf, WordsAll, Pieces, Runs, IsSplit, Collapsed;
    var line := Collapse(para);
    CollapseKeeps(para, Words(para, 0));
    assert Join(Words(para, 0)) == line;
    InkNone();
    NoWords();
    InkAllOne(line);
    WordsAllOne(line);
    if line != "" && |line| > max {
      var ps, gs := Pieces(line, 0, 0, ENDINGS), Runs(line, 0, 0, ENDINGS);
      EndsInWord(line);
      PiecesSplit(line, 0, 0, ENDINGS);
      assert line[0..] == line && IsSplit(ps, gs, line, ENDINGS);
      SplitKeeps(ps, gs, line, ENDINGS);
      PartsAreFull(ps, gs, line, ENDINGS);
    }
  }

  lemma PartsAreFull(parts: seq<string>, gaps: seq<string>, s: string, stops: set<char>)
    requires IsSplit(parts, gaps, s, stops) && parts[|parts| - 1] != []
    ensures forall p :: p in parts ==> p != []
  {
    hide Weave, IsPiece, IsGap, IsSpace;
  }

  // A text of one line is one segment.
  lemma OneSegment(line: string, max: nat)
    requires max >= 1 && |line| <= max
    ensures JoinAll(Pack([], Fragments([line], max), max)) == [line]
    ensures JoinAll(Pack([], Fragments([], max), max)) == []
  {
    hide Join, Pack, JoinAll;
    assert [line][1..] == [] && HardSplit(line, max) == [line];
    assert Fragments([line], max) == [line] + Fragments([], max);
    PackFirst([], line, [], max);
    PackLast([line], max);
    PackLast([], max);
    PackEnds();
    assert [] + [line] == [line] && [line] + [] == [line];
    JoinAllOne([line]);
    JoinAppend([], line);
  }

  /** One paragraph's segments. Its words are kept exactly when no hard split falls inside
      one. */
  method SegmentParagraph(para: string, max: nat) returns (segments: seq<string>)
    requires max >= 1
    ensures segments == SegmentsOf(para, max)
    ensures InkAll(segments) == Ink(para)
    ensures WordsAll(segments) == WordsOf(para) <==> HardCutsIn(SentencesIn(para, max), max) == 0
    ensures forall s :: s in segments ==> 1 <= |s| <= max
  {
    hide Collapse, Ink, InkAll, WordsOf, WordsAll, Collapsed, Pack, JoinAll, Fragments, Pieces, HardCutsIn;
    SentencesInKeep(para, max);
    PackedKeep(SentencesIn(para, max), max);
    var line := CollapseSpaces(para);
    OneSegment(if |line| <= max then line else "", max);
    if line == "" { return []; }
    if |line| <= max {
      return [line];
    }
    var sentences := SplitAfter(line, ENDINGS);
    segments := PackSentences(sentences, max);
  }

  lemma EndsInWord(line: string)
    requires Collapsed(line) && line != []
    ensures !IsSpace(line[|line| - 1])
  {
  }

  lemma PackedKeep(sentences: seq<string>, max: nat)
    requires max >= 1 && forall s :: s in sentences ==> s != []
    ensures var segments := JoinAll(Pack([], Fragments(sentences, max), max));
      && InkAll(segments) == InkAll(sentences) && (forall s :: s in segments ==> 1 <= |s| <= max)
      && |WordsAll(segments)| == |WordsAll(sentences)| + HardCutsIn(sentences, max)
      && (WordsAll(segments) == WordsAll(sentences) <==> HardCutsIn(sentences, max) == 0)
  {
    hide Pack, Flatten, JoinAll, InkAll, Join, Fragments, WordsAll, HardCutsIn;
    var fragments := Fragments(sentences, max);
    var groups := Pack([], fragments, max);
    FragmentsKeep(sentences, max);
    PackIsPartition([], fragments, max);
    assert [] + fragments == fragments;
    forall i: nat, j: nat | i < |groups| && j < |groups[i]| ensures 1 <= |groups[i][j]| <= max {
      FlattenMembers(groups, i, j);
    }
    JoinAllKeeps(groups, max, max);
    JoinAllInk(groups);
    JoinAllWords(groups);
    FragmentsWords(sentences, max);
  }

  /** A paragraph's segments are as few as its sentence fragments allow. */
  lemma SegmentsAreFewest(sentences: seq<string>, max: nat, other: seq<seq<string>>)
    requires max >= 1 && Flatten(other) == Fragments(sentences, max) && AllFit(other, max)
    ensures |JoinAll(Pack([], Fragments(sentences, max), max))| <= |other|
  {
    hide Pack, Flatten, JoinAll, Join, Fragments;
    var fragments := Fragments(sentences, max);
    assert [] + [] + fragments == fragments;
    PackIsOptimal([], [], fragments, max, other);
    JoinAllLength(Pack([], fragments, max));
  }

  // The segments of these paragraphs, one after the other: none reaches across a blank line.
  function AllSegments(paras: seq<string>, max: nat): seq<string>
    requires max >= 1
  {
    if paras == [] then []
    else AllSegments(paras[..|paras| - 1], max) + SegmentsOf(paras[|paras| - 1], max)
  }

  // The hard splits inside words in all of them.
  ghost function AllCuts(paras: seq<string>, max: nat): nat
    requires max >= 1
  {
    if paras == [] then 0
    else
      var p := paras[|paras| - 1];
      AllCuts(paras[..|paras| - 1], max) + HardCutsIn(SentencesIn(p, max), max)
  }

  lemma {:induction false} AllSegmentsKeep(paras: seq<string>, max: nat)
    requires max >= 1
    ensures InkAll(AllSegments(paras, max)) == InkAll(paras)
    ensures |WordsAll(AllSegments(paras, max))| == |WordsAll(paras)| + AllCuts(paras, max)
    ensures AllCuts(paras, max) == 0 ==> WordsAll(AllSegments(paras, max)) == WordsAll(paras)
    ensures forall s :: s in AllSegments(paras, max) ==> 1 <= |s| <= max
  {
    hide SentencesIn, Ink, WordsOf, HardCutsIn, Pack, JoinAll, Fragments;
    InkNone();
    NoWords();
    if paras != [] {
      var init, p := paras[..|paras| - 1], paras[|paras| - 1];
      AllSegmentsKeep(init, max);
      SentencesInKeep(p, max);
      PackedKeep(SentencesIn(p, max), max);
      InkAllConcat(AllSegments(init, max), SegmentsOf(p, max));
      WordsAllConcat(AllSegments(init, max), SegmentsOf(p, max));
    }
  }

  /** `split_segments`. The segments hold the words of the text in order exactly when no hard
      split falls inside a word; every such split makes two words of one. */
  method SplitSegments(text: string, max: nat) returns (segments: seq<string>)
    requires max >= 1
    ensures InkAll(segments) == Ink(text)
    ensures forall s :: s in segments ==> 1 <= |s| <= max
    ensures segments == AllSegments(Paragraphs(Strip(text), 0, 0), max)
    ensures |WordsAll(segments)| == |WordsOf(text)| + AllCuts(Paragraphs(Strip(text), 0, 0), max)
    ensures WordsAll(segments) == WordsOf(text) <==> AllCuts(Paragraphs(Strip(text), 0, 0), max) == 0
  {
    hide Ink, InkAll, WordsOf, WordsAll, Strip, Paragraphs, SegmentsOf, AllCuts;
    var stripped := Strip(text);
    var paras := SplitParagraphs(stripped);
    segments := [];
    for i := 0 to |paras|
      invariant segments == AllSegments(paras[..i], max)
    {
      var more := SegmentParagraph(paras[i], max);
      assert paras[..i + 1][..i] == paras[..i];
      segments := segments + more;
    }
    assert paras[..|paras|] == paras;
    ParagraphsKeep(text);
    AllSegmentsKeep(paras, max);
  }

  lemma ParagraphsKeep(text: string)
    ensures InkAll(Paragraphs(Strip(text), 0, 0)) == Ink(text)
    ensures WordsAll(Paragraphs(Strip(text), 0, 0)) == WordsOf(text)
  {
    hide Ink, InkAll, WordsOf, WordsAll, Strip, Paragraphs, Gaps, Weave, IsBlankLine;
    var stripped := Strip(text);
    StripInk(text);
    StripWords(text);
    ParagraphsWeave(stripped, 0, 0);
    assert stripped[0..] == stripped;
    var gaps := Gaps(stripped, 0);
    forall k | 0 <= k < |gaps| ensures IsGap(gaps[k]) { BlankLineIsGap(gaps[k]); }
    WeaveKeeps(Paragraphs(stripped, 0, 0), gaps);
  }

  lemma BlankLineIsGap(g: string)
    requires IsBlankLine(g)
    ensures IsGap(g)
  {
  }

  /** With no sentence longer than max, the segments hold the words of the text. */
  lemma {:induction false} ShortSentencesKeepWords(paras: seq<string>, max: nat)
    requires max >= 1
    requires forall p, s :: p in paras && s in SentencesIn(p, max) ==> |s| <= max
    ensures AllCuts(paras, max) == 0
  {
    hide SentencesIn;
    if paras != [] {
      var init, p := paras[..|paras| - 1], paras[|paras| - 1];
      assert p in paras && forall q :: q in init ==> q in paras;
      ShortSentencesKeepWords(init, max);
      ShortSentencesUncut(SentencesIn(p, max), max);
    }
  }

  lemma {:induction false} ShortSentencesUncut(sentences: seq<string>, max: nat)
    requires max >= 1 && forall s :: s in sentences ==> |s| <= max
    ensures HardCutsIn(sentences, max) == 0
  {
    if sentences != [] {
      assert sentences[0] in sentences && forall s :: s in sentences[1..] ==> s in sentences;
      ShortSentencesUncut(sentences[1..], max);
    }
  }
}
