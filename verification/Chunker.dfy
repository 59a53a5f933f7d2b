// apps/box/src/chunker.ts: bodies into overlapping windows of words.
module Chunker {
  import opened Words

  const TARGET_WORDS := 300
  const OVERLAP_WORDS := 50
  const SINGLE_CHUNK_MAX := 340

  predicate IsTerminator(c: char) { c == '.' || c == '!' || c == '?' }
  predicate IsUnitBreak(c: char) { IsTerminator(c) || c == '\n' }
  predicate InRun(c: char) { !IsUnitBreak(c) }
  predicate IsNewline(c: char) { c == '\n' }

  // ---- sentences ------------------------------------------------------------------------------

  // Where the sentence starting at the front of s ends, if its run of text meets a terminator.
  function SentenceEnd(s: string): (k: nat)
    requires Span(s, InRun) < |s|
    ensures Span(s, InRun) <= k <= |s|
  {
    var j := Span(s, InRun);
    var t := j + Span(s[j..], IsTerminator);
    t + Span(s[t..], IsSpace)
  }

  // A run up to its terminators and the space after them, or a last run to the end. A stray break
  // at the front is skipped, and a run that meets a bare newline is dropped.
  function Sentences(s: string): seq<string>
    decreases |s|
  {
    if s == "" then []
    else if IsUnitBreak(s[0]) then Sentences(s[1..])
    else
      var j := Span(s, InRun);
      if j == |s| then [s]
      else if IsTerminator(s[j]) then
        assert s[j..][0] == s[j] && j > 0;
        [s[..SentenceEnd(s)]] + Sentences(s[SentenceEnd(s)..])
      else Sentences(s[j + 1..])
  }

  method Run(s: string, from: nat, f: char -> bool) returns (j: nat)
    requires from <= |s|
    ensures from <= j <= |s| && j == from + Span(s[from..], f)
  {
    j := from;
    while j < |s| && f(s[j])
      invariant from <= j <= |s| && forall i :: from <= i < j ==> f(s[i])
    {
      j := j + 1;
    }
    SpanIs(s[from..], f, j - from);
  }

  // The index scan.
  method SplitSentences(paragraph: string) returns (out: seq<string>)
    ensures out == if Sentences(paragraph) == [] then [paragraph] else Sentences(paragraph)
  {
    hide Sentences, Span;
    out := [];
    var i := 0;
    assert paragraph[0..] == paragraph;
    while i < |paragraph|
      invariant 0 <= i <= |paragraph| && out + Sentences(paragraph[i..]) == Sentences(paragraph)
    {
      SentencesAt(paragraph, i);
      if IsUnitBreak(paragraph[i]) {
        i := i + 1;
        continue;
      }
      var j := Run(paragraph, i, InRun);
      if j < |paragraph| && IsTerminator(paragraph[j]) {
        var t := Run(paragraph, j, IsTerminator);
        var k := Run(paragraph, t, IsSpace);
        SentenceAt(paragraph, i, j, t, k);
        assert out + ([paragraph[i..k]] + Sentences(paragraph[k..]))
            == out + [paragraph[i..k]] + Sentences(paragraph[k..]);
        out := out + [paragraph[i..k]];
        i := k;
      } else if j == |paragraph| {
        assert out + [paragraph[i..]] + [] == out + [paragraph[i..]];
        out := out + [paragraph[i..]];
        i := |paragraph|;
        NoSentences(paragraph[i..]);
      } else {
        i := j + 1;
      }
    }
    NoSentences(paragraph[i..]);
    assert out + [] == out;
    if out == [] { out := [paragraph]; }
  }

  lemma NoSentences(s: string)
    ensures s == "" ==> Sentences(s) == []
  {
  }

  // One step of the definition, seen from position i of the paragraph.
  lemma SentencesAt(p: string, i: nat)
    requires i < |p|
    ensures var s := p[i..];
            var j := i + Span(s, InRun);
            && (IsUnitBreak(p[i]) ==> Sentences(s) == Sentences(p[i + 1..]))
            && (!IsUnitBreak(p[i]) && j == |p| ==> Sentences(s) == [s])
            && (!IsUnitBreak(p[i]) && j < |p| && !IsTerminator(p[j]) ==> Sentences(s) == Sentences(p[j + 1..]))
            && (!IsUnitBreak(p[i]) && j < |p| && IsTerminator(p[j]) ==>
                  SentenceEnd(s) > 0 && Sentences(s) == [s[..SentenceEnd(s)]] + Sentences(s[SentenceEnd(s)..]))
  {
    hide Sentences, IsUnitBreak, IsTerminator, Span;
    var s := p[i..];
    var j := Span(s, InRun);
    assert s[0] == p[i] && s[1..] == p[i + 1..];
    SentencesStep(s);
    if j < |s| {
      assert s[j] == p[i + j] && s[j + 1..] == p[i + j + 1..];
    }
  }

  lemma SentencesStep(s: string)
    requires s != ""
    ensures var j := Span(s, InRun);
            && (IsUnitBreak(s[0]) ==> Sentences(s) == Sentences(s[1..]))
            && (!IsUnitBreak(s[0]) && j == |s| ==> Sentences(s) == [s])
            && (!IsUnitBreak(s[0]) && j < |s| && !IsTerminator(s[j]) ==> Sentences(s) == Sentences(s[j + 1..]))
            && (!IsUnitBreak(s[0]) && j < |s| && IsTerminator(s[j]) ==>
                  SentenceEnd(s) > 0 && Sentences(s) == [s[..SentenceEnd(s)]] + Sentences(s[SentenceEnd(s)..]))
  {
    var j := Span(s, InRun);
    if j < |s| { assert s[j..][0] == s[j]; }
  }

  lemma SentenceAt(p: string, i: nat, j: nat, t: nat, k: nat)
    requires i <= j < |p| && j == i + Span(p[i..], InRun)
    requires j <= t <= |p| && t == j + Span(p[j..], IsTerminator) && t <= k <= |p| && k == t + Span(p[t..], IsSpace)
    ensures SentenceEnd(p[i..]) == k - i && p[i..][..k - i] == p[i..k] && p[i..][k - i..] == p[k..]
  {
    hide Span;
    assert p[i..][j - i..] == p[j..];
    assert p[i..][t - i..] == p[t..];
  }

  // ---- what the split keeps -----------------------------------------------------------------------

  // Nothing is dropped from a paragraph on one line whose every terminator follows a word or another.
  lemma {:induction false} SplitKeepsAll(s: string)
    requires forall i :: 0 <= i < |s| && IsUnitBreak(s[i]) ==> IsTerminator(s[i]) && i > 0 && !IsSpace(s[i - 1])
    ensures Concat(Sentences(s)) == s
    decreases |s|
  {
    hide IsSpace;
    if s != "" {
      var j := Span(s, InRun);
      if j == |s| {
        assert [s][1..] == [] && s + "" == s;
      } else {
        var k, rest := SentenceEnd(s), s[SentenceEnd(s)..];
        AfterSentence(s);
        forall i | 0 <= i < |rest| && IsUnitBreak(rest[i])
          ensures IsTerminator(rest[i]) && i > 0 && !IsSpace(rest[i - 1])
        {
          assert rest[i] == s[k + i];
        }
        assert s[j..][0] == s[j];
        SplitKeepsAll(rest);
        assert ([s[..k]] + Sentences(rest))[1..] == Sentences(rest);
        assert s == s[..k] + rest;
      }
    }
  }

  // The sentence takes all its terminators, so the next one starts with text.
  lemma AfterSentence(s: string)
    requires Span(s, InRun) < |s| && IsTerminator(s[Span(s, InRun)])
    requires forall i :: 0 <= i < |s| && IsUnitBreak(s[i]) ==> IsTerminator(s[i]) && i > 0 && !IsSpace(s[i - 1])
    ensures SentenceEnd(s) > 0 && (SentenceEnd(s) < |s| ==> !IsUnitBreak(s[SentenceEnd(s)]))
  {
    hide IsSpace, IsTerminator, IsUnitBreak, Span;
    var j := Span(s, InRun);
    var t := j + Span(s[j..], IsTerminator);
    var k := SentenceEnd(s);
    assert s[j..][0] == s[j];
    assert t > j;
    if k < |s| {
      if k == t { assert s[j..][t - j] == s[t]; }
      else { assert s[t..][k - t - 1] == s[k - 1]; }
    }
  }

  // A line without a terminator is dropped when more text follows it in the same paragraph.
  lemma BareNewlineDrops()
    ensures Sentences("a\nb") == ["b"]
  {
    var s := "a\nb";
    SpanIs(s, InRun, 1);
    SpanIs("b", InRun, 1);
    assert s[2..] == "b";
  }

  // ---- hard splits -------------------------------------------------------------------------------------

  // Windows of at most cap words, trimmed.
  method SplitByWords(text: string, cap: nat) returns (out: seq<string>)
    requires cap > 0
    ensures WordsOfAll(out) == WordsOf(text)
    ensures forall i :: 0 <= i < |out| ==> 0 < |WordsOf(out[i])| <= cap
  {
    hide WordsOf, Pieces, Trim, Concat;
    var ws := Pieces(text);
    out := [];
    SliceOfPieces(text, 0, 0);
    var i := 0;
    while i < |ws|
      invariant 0 <= i <= |ws| && WordsOfAll(out) == WordsOf(text)[..i]
      invariant forall k :: 0 <= k < |out| ==> 0 < |WordsOf(out[k])| <= cap
    {
      var to := if i + cap < |ws| then i + cap else |ws|;
      var w := Trim(Concat(ws[i..to]));
      SliceOfPieces(text, i, to);
      WordsOfAllPush(out, w);
      assert WordsOf(text)[..i] + WordsOf(text)[i..to] == WordsOf(text)[..to];
      out := out + [w];
      i := to;
    }
    assert WordsOf(text)[..|ws|] == WordsOf(text);
  }

  // ---- paragraphs -------------------------------------------------------------------------------------------

  // The first blank line: two newlines in a row.
  function BlankAt(s: string): (n: nat)
    ensures n <= |s| && (n < |s| ==> n + 1 < |s| && s[n] == '\n' && s[n + 1] == '\n')
  {
    if |s| < 2 then |s|
    else if s[0] == '\n' && s[1] == '\n' then 0
    else 1 + BlankAt(s[1..])
  }

  // s.split(/\n{2,}/)
  function Paragraphs(s: string): seq<string>
    decreases |s|
  {
    var n := BlankAt(s);
    if n == |s| then [s]
    else
      assert s[n..][0] == s[n];
      [s[..n]] + Paragraphs(s[n + Span(s[n..], IsNewline)..])
  }

  // A text cut at its first blank line: before it, the newlines, and what follows them.
  lemma CutAtBlank(s: string) returns (gap: string, rest: string)
    requires BlankAt(s) < |s|
    ensures gap != "" && (forall i :: 0 <= i < |gap| ==> IsSpace(gap[i])) && |rest| < |s|
    ensures s == s[..BlankAt(s)] + gap + rest && Paragraphs(s) == [s[..BlankAt(s)]] + Paragraphs(rest)
  {
    hide IsSpace;
    var n := BlankAt(s);
    var g := Span(s[n..], IsNewline);
    gap, rest := s[n..n + g], s[n + g..];
    assert s[n..][0] == s[n];
    assert g > 0;
    CutTwice(s, n, n + g);
    NewlinesAreSpaces(s[n..], g);
    assert gap == s[n..][..g];
  }

  lemma NewlinesAreSpaces(s: string, g: nat)
    requires g <= |s| && forall i :: 0 <= i < g ==> IsNewline(s[i])
    ensures forall i :: 0 <= i < g ==> IsSpace(s[..g][i])
  {
  }

  lemma {:induction false} ParagraphsKeepWords(s: string)
    ensures WordsOfAll(Paragraphs(s)) == WordsOf(s)
    decreases |s|
  {
    hide WordsOf, IsSpace, Paragraphs;
    if BlankAt(s) == |s| {
      OneParagraph(s);
      assert [s][1..] == [] && WordsOf(s) + [] == WordsOf(s);
    } else {
      var gap, rest := CutAtBlank(s);
      ParagraphsKeepWords(rest);
      SpacesBetween(s[..BlankAt(s)], gap, rest);
      assert ([s[..BlankAt(s)]] + Paragraphs(rest))[1..] == Paragraphs(rest);
    }
  }

  lemma OneParagraph(s: string)
    requires BlankAt(s) == |s|
    ensures Paragraphs(s) == [s]
  {
  }

  // ---- units ----------------------------------------------------------------------------------------------------

  // The words of a paragraph that make it into units: all of them, unless it is too long for one
  // unit and its sentences leave some out.
  function KeptWords(paragraph: string): seq<string> {
    var p := Trim(paragraph);
    if |WordsOf(p)| <= TARGET_WORDS then WordsOf(p)
    else WordsOfAll(if Sentences(p) == [] then [p] else Sentences(p))
  }

  function KeptOfAll(paragraphs: seq<string>): seq<string> {
    if paragraphs == [] then [] else KeptOfAll(paragraphs[..|paragraphs| - 1]) + KeptWords(paragraphs[|paragraphs| - 1])
  }

  ghost predicate AreUnits(units: seq<string>) {
    forall i :: 0 <= i < |units| ==> 0 < |WordsOf(units[i])| <= TARGET_WORDS
  }

  lemma UnitsConcat(a: seq<string>, b: seq<string>)
    requires AreUnits(a) && AreUnits(b)
    ensures AreUnits(a + b) && WordsOfAll(a + b) == WordsOfAll(a) + WordsOfAll(b)
  {
    hide WordsOf;
    WordsOfAllConcat(a, b);
  }

  lemma NoUnits()
    ensures AreUnits([]) && WordsOfAll([]) == []
  {
  }

  lemma OneUnit(t: string)
    requires 0 < |WordsOf(t)| <= TARGET_WORDS
    ensures AreUnits([t]) && WordsOfAll([t]) == WordsOf(t)
  {
    hide WordsOf;
    assert [t][1..] == [] && WordsOf(t) + [] == WordsOf(t);
  }

  // One trimmed text that is not too short: itself, or windows of it.
  method UnitsOf(text: string) returns (units: seq<string>)
    ensures AreUnits(units) && WordsOfAll(units) == WordsOf(text)
  {
    hide WordsOf, Trim;
    var t := Trim(text);
    TrimKeeps(text);
    NoWords();
    if t == "" { return []; }
    if |WordsOf(t)| <= TARGET_WORDS {
      OneUnit(t);
      return [t];
    }
    units := SplitByWords(t, TARGET_WORDS);
  }

  method UnitsOfParagraph(paragraph: string) returns (units: seq<string>)
    ensures AreUnits(units) && WordsOfAll(units) == KeptWords(paragraph)
  {
    hide WordsOf, Trim, Sentences, AreUnits;
    var p := Trim(paragraph);
    TrimKeeps(paragraph);
    NoWords();
    NoUnits();
    if p == "" { return []; }
    if |WordsOf(p)| <= TARGET_WORDS {
      OneUnit(p);
      return [p];
    }
    var sentences := SplitSentences(p);
    units := [];
    var i := 0;
    while i < |sentences|
      invariant 0 <= i <= |sentences| && AreUnits(units) && WordsOfAll(units) == WordsOfAll(sentences[..i])
    {
      var more := UnitsOf(sentences[i]);
      assert sentences[..i + 1] == sentences[..i] + [sentences[i]];
      WordsOfAllPush(sentences[..i], sentences[i]);
      UnitsConcat(units, more);
      units := units + more;
      i := i + 1;
    }
    assert sentences[..|sentences|] == sentences;
  }

  method Units(trimmed: string) returns (units: seq<string>)
    ensures AreUnits(units) && WordsOfAll(units) == KeptOfAll(Paragraphs(trimmed))
  {
    hide WordsOf, KeptWords, Paragraphs;
    var paragraphs := Paragraphs(trimmed);
    units := [];
    var i := 0;
    while i < |paragraphs|
      invariant 0 <= i <= |paragraphs| && AreUnits(units) && WordsOfAll(units) == KeptOfAll(paragraphs[..i])
    {
      var more := UnitsOfParagraph(paragraphs[i]);
      assert paragraphs[..i + 1][..i] == paragraphs[..i];
      UnitsConcat(units, more);
      units := units + more;
      i := i + 1;
    }
    assert paragraphs[..|paragraphs|] == paragraphs;
  }

  // ---- packing --------------------------------------------------------------------------------------------------

  function LastWords(ws: seq<string>): seq<string> {
    if |ws| <= OVERLAP_WORDS then ws else ws[|ws| - OVERLAP_WORDS..]
  }

  // Every chunk after the first starts with exactly the last fifty words of the one before it, and
  // goes on; none is over the limit.
  ghost predicate Overlapping(chunks: seq<string>) {
    && (forall k :: 0 <= k < |chunks| ==> |WordsOf(chunks[k])| <= TARGET_WORDS + OVERLAP_WORDS)
    && forall k :: 0 <= k < |chunks| - 1 ==> Continues(chunks[k], chunks[k + 1])
  }

  ghost predicate Continues(before: string, after: string) {
    && |WordsOf(before)| > OVERLAP_WORDS && |WordsOf(after)| > OVERLAP_WORDS
    && WordsOf(after)[..OVERLAP_WORDS] == LastWords(WordsOf(before))
  }

  // The words the chunks hold, each overlap once.
  function Fresh(chunks: seq<string>): seq<string> {
    if chunks == [] then []
    else if |chunks| == 1 then WordsOf(chunks[0])
    else
      var ws := WordsOf(chunks[|chunks| - 1]);
      Fresh(chunks[..|chunks| - 1]) + if |ws| <= OVERLAP_WORDS then [] else ws[OVERLAP_WORDS..]
  }

  // The packing so far: chunks out, lines in hand, and the words of the units already taken.
  ghost predicate Packed(chunks: seq<string>, cur: seq<string>, taken: seq<string>) {
    var ws := WordsOfAll(cur);
    && Overlapping(chunks) && |ws| <= TARGET_WORDS + OVERLAP_WORDS
    && (chunks == [] ==> ws == taken)
    && (chunks != [] ==>
          && |ws| > OVERLAP_WORDS && |WordsOf(chunks[|chunks| - 1])| > OVERLAP_WORDS
          && ws[..OVERLAP_WORDS] == LastWords(WordsOf(chunks[|chunks| - 1]))
          && Fresh(chunks) + ws[OVERLAP_WORDS..] == taken)
  }

  // A flush: the lines in hand become a chunk, and its last fifty words open the next.
  method Flush(cur: seq<string>) returns (text: string, next: seq<string>)
    requires |WordsOfAll(cur)| > OVERLAP_WORDS
    ensures WordsOf(text) == WordsOfAll(cur)
    ensures WordsOfAll(next) == LastWords(WordsOfAll(cur))
  {
    hide WordsOf, Pieces, Trim, Concat, JoinLines;
    text := Trim(JoinLines(cur));
    JoinLinesKeeps(cur);
    TrimKeeps(JoinLines(cur));
    var ws := Pieces(text);
    var from := if |ws| > OVERLAP_WORDS then |ws| - OVERLAP_WORDS else 0;
    SliceOfPieces(text, from, |ws|);
    assert ws[from..] == ws[from..|ws|] && WordsOf(text)[from..] == WordsOf(text)[from..|ws|];
    var tail := Trim(Concat(ws[from..]));
    next := if tail == "" then [] else [tail];
    TrimKeeps(Concat(ws[from..]));
    assert [tail][1..] == [] && WordsOf(tail) + [] == WordsOf(tail);
    assert tail != "" by { NoWords(); }
  }

  lemma PushUnit(chunks: seq<string>, cur: seq<string>, taken: seq<string>, u: string)
    requires Packed(chunks, cur, taken) && |WordsOfAll(cur)| + |WordsOf(u)| <= TARGET_WORDS + OVERLAP_WORDS
    ensures Packed(chunks, cur + [u], taken + WordsOf(u))
    ensures |WordsOfAll(cur + [u])| == |WordsOfAll(cur)| + |WordsOf(u)|
  {
    hide WordsOf, Overlapping, LastWords, Fresh;
    WordsOfAllPush(cur, u);
    var ws := WordsOfAll(cur);
    if chunks != [] {
      assert (ws + WordsOf(u))[..OVERLAP_WORDS] == ws[..OVERLAP_WORDS];
      assert (ws + WordsOf(u))[OVERLAP_WORDS..] == ws[OVERLAP_WORDS..] + WordsOf(u);
      assert Fresh(chunks) + (ws[OVERLAP_WORDS..] + WordsOf(u)) == Fresh(chunks) + ws[OVERLAP_WORDS..] + WordsOf(u);
    }
  }

  lemma FreshPush(chunks: seq<string>, text: string)
    requires |WordsOf(text)| > OVERLAP_WORDS
    ensures Fresh(chunks + [text])
         == if chunks == [] then WordsOf(text) else Fresh(chunks) + WordsOf(text)[OVERLAP_WORDS..]
  {
    hide WordsOf;
    assert (chunks + [text])[..|chunks|] == chunks;
  }

  lemma OverlappingPush(chunks: seq<string>, text: string)
    requires Overlapping(chunks) && |WordsOf(text)| <= TARGET_WORDS + OVERLAP_WORDS
    requires chunks != [] ==> Continues(chunks[|chunks| - 1], text)
    ensures Overlapping(chunks + [text])
  {
    hide WordsOf, Continues;
    var all := chunks + [text];
    forall k | 0 <= k < |all| - 1 ensures Continues(all[k], all[k + 1]) {
      if k == |chunks| - 1 { assert all[k] == chunks[|chunks| - 1] && all[k + 1] == text; }
      else { assert all[k] == chunks[k] && all[k + 1] == chunks[k + 1]; }
    }
  }

  // The lines in hand, as the next chunk.
  lemma EmitChunk(chunks: seq<string>, cur: seq<string>, taken: seq<string>, text: string)
    requires Packed(chunks, cur, taken) && WordsOf(text) == WordsOfAll(cur) && |WordsOf(text)| > OVERLAP_WORDS
    ensures Overlapping(chunks + [text]) && Fresh(chunks + [text]) == taken
  {
    hide WordsOf, Overlapping, Fresh, LastWords;
    OverlappingPush(chunks, text);
    FreshPush(chunks, text);
  }

  // A flush followed by the unit that did not fit.
  lemma FlushThenPush(chunks: seq<string>, cur: seq<string>, taken: seq<string>, text: string, next: seq<string>,
                      u: string)
    requires Packed(chunks, cur, taken) && WordsOf(text) == WordsOfAll(cur) && |WordsOf(text)| > OVERLAP_WORDS
    requires WordsOfAll(next) == LastWords(WordsOfAll(cur)) && 0 < |WordsOf(u)| <= TARGET_WORDS
    ensures Packed(chunks + [text], next + [u], taken + WordsOf(u))
    ensures |WordsOfAll(next + [u])| == OVERLAP_WORDS + |WordsOf(u)|
  {
    hide WordsOf, Overlapping, Fresh;
    EmitChunk(chunks, cur, taken, text);
    WordsOfAllPush(next, u);
    var ws := WordsOfAll(next);
    assert (ws + WordsOf(u))[..OVERLAP_WORDS] == ws && (ws + WordsOf(u))[OVERLAP_WORDS..] == WordsOf(u);
  }

  // The chunks of a body. One chunk up to 340 words; beyond that, every chunk holds at most 350,
  // every later one opens with exactly the previous one's last fifty, and with those heads left out
  // they are the units' words: the guard on the last chunk never drops any.
  method ChunkBody(body: string) returns (chunks: seq<string>)
    ensures WordsOf(body) == [] ==> chunks == []
    ensures 0 < |WordsOf(body)| <= SINGLE_CHUNK_MAX ==> chunks == [Trim(body)]
    ensures |WordsOf(body)| > SINGLE_CHUNK_MAX ==>
              Overlapping(chunks) && Fresh(chunks) == KeptOfAll(Paragraphs(Trim(body)))
  {
    hide WordsOf, Trim, Overlapping, Fresh, Packed, Paragraphs, KeptOfAll, LastWords, JoinLines;
    var trimmed := Trim(body);
    TrimKeeps(body);
    if trimmed == "" { return []; }
    if |WordsOf(trimmed)| <= SINGLE_CHUNK_MAX { return [trimmed]; }
    var units := Units(trimmed);
    chunks := [];
    var cur: seq<string> := [];
    var curWords := 0;
    NothingPacked();
    var i := 0;
    while i < |units|
      invariant 0 <= i <= |units| && (i == 0 ==> cur == [] && chunks == []) && (i > 0 ==> cur != [])
      invariant Packed(chunks, cur, WordsOfAll(units[..i])) && curWords == |WordsOfAll(cur)|
    {
      var u := units[i];
      var w := |WordsOf(u)|;
      assert units[..i + 1] == units[..i] + [u];
      WordsOfAllPush(units[..i], u);
      if curWords > 0 && curWords + w > TARGET_WORDS + OVERLAP_WORDS {
        var text, next := Flush(cur);
        FlushThenPush(chunks, cur, WordsOfAll(units[..i]), text, next, u);
        LastWordsAre(WordsOfAll(cur));
        chunks := chunks + [text];
        cur := next;
        curWords := |WordsOfAll(next)|;
      } else {
        PushUnit(chunks, cur, WordsOfAll(units[..i]), u);
      }
      cur := cur + [u];
      curWords := curWords + w;
      i := i + 1;
    }
    assert units[..|units|] == units;
    if |cur| > 0 {
      var text := Trim(JoinLines(cur));
      JoinLinesKeeps(cur);
      TrimKeeps(JoinLines(cur));
      LastChunk(chunks, cur, WordsOfAll(units), text);
      if |chunks| == 0 || |WordsOf(text)| > OVERLAP_WORDS {
        chunks := chunks + [text];
      }
    } else {
      NothingChunked();
    }
  }

  lemma NothingPacked()
    ensures Packed([], [], []) && WordsOfAll([]) == []
  {
  }

  lemma NothingChunked()
    ensures Overlapping([]) && Fresh([]) == [] && WordsOfAll([]) == []
  {
  }

  lemma LastWordsAre(ws: seq<string>)
    requires |ws| > OVERLAP_WORDS
    ensures |LastWords(ws)| == OVERLAP_WORDS
  {
  }

  lemma LastChunk(chunks: seq<string>, cur: seq<string>, taken: seq<string>, text: string)
    requires Packed(chunks, cur, taken) && WordsOf(text) == WordsOfAll(cur)
    ensures chunks == [] || |WordsOf(text)| > OVERLAP_WORDS
    ensures Overlapping(chunks + [text]) && Fresh(chunks + [text]) == taken
  {
    hide WordsOf, LastWords;
    if chunks == [] {
      assert chunks + [text] == [text];
    } else {
      EmitChunk(chunks, cur, taken, text);
    }
  }
}
