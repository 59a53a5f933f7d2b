// Words as the chunker counts them: maximal runs of what JavaScript's \s does not match.
module Words {
  predicate IsSpace(c: char) {
    var n := c as int;
    9 <= n <= 13 || n in {0x20, 0xa0, 0x1680, 0x2028, 0x2029, 0x202f, 0x205f, 0x3000, 0xfeff} || 0x2000 <= n <= 0x200a
  }

  predicate IsSolid(c: char) { !IsSpace(c) }

  // How many characters at the front satisfy f.
  function Span(s: string, f: char -> bool): (n: nat)
    ensures n <= |s| && (n < |s| ==> !f(s[n])) && forall i :: 0 <= i < n ==> f(s[i])
  {
    if s == "" || !f(s[0]) then 0 else 1 + Span(s[1..], f)
  }

  lemma SpanIs(s: string, f: char -> bool, n: nat)
    requires n <= |s| && (n < |s| ==> !f(s[n])) && forall i :: 0 <= i < n ==> f(s[i])
    ensures Span(s, f) == n
  {
  }

  // s.match(/\\S+/g)
  function WordsOf(s: string): seq<string>
    decreases |s|
  {
    if s == "" then []
    else if IsSpace(s[0]) then WordsOf(s[1..])
    else
      var n := Span(s, IsSolid);
      assert n > 0;
      [s[..n]] + WordsOf(s[n..])
  }

  function WordsOfAll(parts: seq<string>): seq<string> {
    if parts == [] then [] else WordsOf(parts[0]) + WordsOfAll(parts[1..])
  }

  lemma {:induction false} WordsOfAllPush(parts: seq<string>, part: string)
    ensures WordsOfAll(parts + [part]) == WordsOfAll(parts) + WordsOf(part)
  {
    hide WordsOf;
    if parts == [] {
      assert [part][1..] == [] && parts + [part] == [part];
      assert WordsOf(part) + [] == WordsOf(part);
    } else {
      assert (parts + [part])[1..] == parts[1..] + [part];
      WordsOfAllPush(parts[1..], part);
    }
  }

  lemma {:induction false} WordsOfAllConcat(a: seq<string>, b: seq<string>)
    ensures WordsOfAll(a + b) == WordsOfAll(a) + WordsOfAll(b)
  {
    hide WordsOf;
    if a == [] {
      assert a + b == b;
    } else {
      assert (a + b)[1..] == a[1..] + b;
      WordsOfAllConcat(a[1..], b);
    }
  }

  lemma SpanBeforeSpace(a: string, c: char, b: string)
    requires IsSpace(c) && a != "" && !IsSpace(a[0])
    ensures var n := Span(a, IsSolid);
            n > 0 && Span(a + [c] + b, IsSolid) == n
            && (a + [c] + b)[..n] == a[..n] && (a + [c] + b)[n..] == a[n..] + [c] + b
  {
    hide IsSpace;
    var s, n := a + [c] + b, Span(a, IsSolid);
    assert forall i :: 0 <= i < |a| ==> s[i] == a[i];
    assert s[|a|] == c;
    SpanIs(s, IsSolid, n);
  }

  lemma FirstWord(s: string)
    requires s != "" && !IsSpace(s[0])
    ensures var w := Span(s, IsSolid); w > 0 && WordsOf(s) == [s[..w]] + WordsOf(s[w..])
  {
    hide IsSpace;
  }

  lemma SkipSpace(s: string)
    requires s != "" && IsSpace(s[0])
    ensures WordsOf(s) == WordsOf(s[1..])
  {
    hide IsSpace;
  }

  // A space between two texts is a word boundary.
  lemma {:induction false} SpaceBetween(a: string, c: char, b: string)
    requires IsSpace(c)
    ensures WordsOf(a + [c] + b) == WordsOf(a) + WordsOf(b)
    decreases |a|
  {
    hide IsSpace, WordsOf, Span;
    var s := a + [c] + b;
    if a == "" {
      assert s[0] == c && s[1..] == b;
      SkipSpace(s);
      NoWords();
      assert [] + WordsOf(b) == WordsOf(b);
    } else if IsSpace(a[0]) {
      assert s[0] == a[0] && s[1..] == a[1..] + [c] + b;
      SkipSpace(s);
      SkipSpace(a);
      SpaceBetween(a[1..], c, b);
    } else {
      var n := Span(a, IsSolid);
      SpanBeforeSpace(a, c, b);
      assert s[0] == a[0];
      FirstWord(s);
      FirstWord(a);
      SpaceBetween(a[n..], c, b);
      assert [a[..n]] + (WordsOf(a[n..]) + WordsOf(b)) == [a[..n]] + WordsOf(a[n..]) + WordsOf(b);
    }
  }

  lemma {:induction false} SpacesBetween(a: string, gap: string, b: string)
    requires gap != "" && forall i :: 0 <= i < |gap| ==> IsSpace(gap[i])
    ensures WordsOf(a + gap + b) == WordsOf(a) + WordsOf(b)
    decreases |gap|
  {
    hide IsSpace, WordsOf;
    if |gap| == 1 {
      assert gap == [gap[0]];
      SpaceBetween(a, gap[0], b);
    } else {
      assert a + gap + b == a + [gap[0]] + (gap[1..] + b);
      SpaceBetween(a, gap[0], gap[1..] + b);
      SpacesBetween("", gap[1..], b);
      assert "" + gap[1..] + b == gap[1..] + b;
      NoWords();
      assert [] + WordsOf(b) == WordsOf(b);
    }
  }

  lemma NoWords()
    ensures WordsOf("") == []
  {
  }

  // ---- trim -------------------------------------------------------------------------------------

  function TrimStart(s: string): (r: string)
    ensures r == "" || !IsSpace(r[0])
  {
    if s != "" && IsSpace(s[0]) then TrimStart(s[1..]) else s
  }

  function TrimEnd(s: string): string { if s != "" && IsSpace(s[|s| - 1]) then TrimEnd(s[..|s| - 1]) else s }
  function Trim(s: string): string { TrimEnd(TrimStart(s)) }

  lemma {:induction false} TrimStartKeeps(s: string)
    ensures WordsOf(TrimStart(s)) == WordsOf(s)
  {
    hide IsSpace;
    if s != "" && IsSpace(s[0]) { TrimStartKeeps(s[1..]); }
  }

  lemma {:induction false} TrimEndKeeps(s: string)
    ensures WordsOf(TrimEnd(s)) == WordsOf(s)
  {
    hide IsSpace, WordsOf;
    if s != "" && IsSpace(s[|s| - 1]) {
      var front := s[..|s| - 1];
      TrimEndKeeps(front);
      SpaceBetween(front, s[|s| - 1], "");
      NoWords();
      assert s == front + [s[|s| - 1]] + "" && WordsOf(front) + [] == WordsOf(front);
    }
  }

  lemma TrimKeeps(s: string)
    ensures WordsOf(Trim(s)) == WordsOf(s)
    ensures Trim(s) == "" <==> WordsOf(s) == []
  {
    hide IsSpace;
    TrimStartKeeps(s);
    TrimEndKeeps(TrimStart(s));
    TrimmedHasWords(TrimStart(s));
  }

  lemma {:induction false} TrimmedHasWords(s: string)
    requires s == "" || !IsSpace(s[0])
    ensures TrimEnd(s) == "" <==> s == ""
    ensures s != "" ==> WordsOf(s) != []
  {
    hide IsSpace;
    if s != "" && IsSpace(s[|s| - 1]) { TrimmedHasWords(s[..|s| - 1]); }
  }

  // ---- joins ----------------------------------------------------------------------------------------

  // parts.join("\\n")
  function JoinLines(parts: seq<string>): string {
    if parts == [] then "" else if |parts| == 1 then parts[0] else parts[0] + "\n" + JoinLines(parts[1..])
  }

  lemma {:induction false} JoinLinesKeeps(parts: seq<string>)
    ensures WordsOf(JoinLines(parts)) == WordsOfAll(parts)
  {
    hide WordsOf;
    NoWords();
    if |parts| == 1 {
      assert parts[1..] == [] && WordsOf(parts[0]) + [] == WordsOf(parts[0]);
    } else if parts != [] {
      JoinLinesKeeps(parts[1..]);
      SpaceBetween(parts[0], '\n', JoinLines(parts[1..]));
    }
  }

  // parts.join("")
  function Concat(parts: seq<string>): string {
    if parts == [] then "" else parts[0] + Concat(parts[1..])
  }

  // ---- pieces: a word and the spaces after it -------------------------------------------------------

  // s.match(/\\S+\\s*/g)
  function Pieces(s: string): seq<string>
    decreases |s|
  {
    if s == "" then []
    else if IsSpace(s[0]) then Pieces(s[1..])
    else
      var n := PieceEnd(s);
      [s[..n]] + Pieces(s[n..])
  }

  function PieceEnd(s: string): (n: nat)
    requires s != "" && !IsSpace(s[0])
    ensures 0 < n <= |s|
  {
    var w := Span(s, IsSolid);
    w + Span(s[w..], IsSpace)
  }

  lemma PieceIsWord(s: string)
    requires s != "" && !IsSpace(s[0])
    ensures var n, w := PieceEnd(s), Span(s, IsSolid);
            && WordsOf(s[..n]) == [s[..w]] && WordsOf(s) == [s[..w]] + WordsOf(s[n..])
            && (n < |s| ==> IsSpace(s[n - 1]))
  {
    hide IsSpace, WordsOf, PieceEnd;
    var n, w := PieceEnd(s), Span(s, IsSolid);
    PieceParts(s);
    FirstWord(s);
    WordAlone(s[..w]);
    GapAfterWord(s[..w], s[w..n]);
    GapBefore(s[w..n], s[n..]);
    if n < |s| { LastOfPiece(s); }
  }

  lemma PieceParts(s: string)
    requires s != "" && !IsSpace(s[0])
    ensures var n, w := PieceEnd(s), Span(s, IsSolid);
            && 0 < w <= n && s[..n] == s[..w] + s[w..n] && s[w..] == s[w..n] + s[n..]
            && forall i :: 0 <= i < n - w ==> IsSpace(s[w..n][i])
  {
    hide IsSpace;
    var n, w := PieceEnd(s), Span(s, IsSolid);
    CutTwice(s, w, n);
    forall i | 0 <= i < n - w ensures IsSpace(s[w..n][i]) { assert s[w..n][i] == s[w..][i]; }
  }

  lemma CutTwice(s: string, i: nat, j: nat)
    requires i <= j <= |s|
    ensures s[..j] == s[..i] + s[i..j] && s[i..] == s[i..j] + s[j..] && s == s[..i] + s[i..j] + s[j..]
  {
  }

  lemma GapAfterWord(word: string, gap: string)
    requires forall i :: 0 <= i < |gap| ==> IsSpace(gap[i])
    ensures WordsOf(word + gap) == WordsOf(word)
  {
    hide IsSpace, WordsOf;
    if gap == "" {
      assert word + gap == word;
    } else {
      SpacesBetween(word, gap, "");
      NoWords();
      assert word + gap + "" == word + gap && WordsOf(word) + [] == WordsOf(word);
    }
  }

  lemma GapBefore(gap: string, rest: string)
    requires forall i :: 0 <= i < |gap| ==> IsSpace(gap[i])
    ensures WordsOf(gap + rest) == WordsOf(rest)
  {
    hide IsSpace, WordsOf;
    if gap == "" {
      assert gap + rest == rest;
    } else {
      SpacesBetween("", gap, rest);
      NoWords();
      assert "" + gap + rest == gap + rest && [] + WordsOf(rest) == WordsOf(rest);
    }
  }

  lemma LastOfPiece(s: string)
    requires s != "" && !IsSpace(s[0]) && PieceEnd(s) < |s|
    ensures IsSpace(s[PieceEnd(s) - 1])
  {
    hide IsSpace;
    var w, n := Span(s, IsSolid), PieceEnd(s);
    assert IsSpace(s[w]) && s[w..][0] == s[w];
    assert n > w;
    assert s[n - 1] == s[w..][n - 1 - w];
  }

  lemma WordAlone(word: string)
    requires word != "" && forall i :: 0 <= i < |word| ==> IsSolid(word[i])
    ensures WordsOf(word) == [word]
  {
    hide IsSpace;
    SpanIs(word, IsSolid, |word|);
    assert word[..|word|] == word && word[|word|..] == "";
    NoWords();
  }

  // Every piece holds one word, and all but the last end in a space.
  ghost predicate ArePieces(ps: seq<string>, ws: seq<string>) {
    && |ps| == |ws|
    && (forall i :: 0 <= i < |ps| ==> WordsOf(ps[i]) == [ws[i]])
    && forall i :: 0 <= i < |ps| - 1 ==> ps[i] != "" && IsSpace(ps[i][|ps[i]| - 1])
  }

  lemma {:induction false} PiecesArePieces(s: string)
    ensures ArePieces(Pieces(s), WordsOf(s))
    decreases |s|
  {
    hide IsSpace, PieceEnd;
    if s == "" {
    } else if IsSpace(s[0]) {
      PiecesArePieces(s[1..]);
    } else {
      var n := PieceEnd(s);
      PieceIsWord(s);
      PiecesArePieces(s[n..]);
      if n == |s| { NoPieces(s[n..]); }
      ConsPieces(s[..n], s[..Span(s, IsSolid)], Pieces(s[n..]), WordsOf(s[n..]));
    }
  }

  lemma NoPieces(s: string)
    requires s == ""
    ensures Pieces(s) == []
  {
  }

  lemma ConsPieces(p: string, w: string, ps: seq<string>, ws: seq<string>)
    requires ArePieces(ps, ws) && WordsOf(p) == [w] && (ps != [] ==> p != "" && IsSpace(p[|p| - 1]))
    ensures ArePieces([p] + ps, [w] + ws)
  {
    hide IsSpace, WordsOf;
    var a, b := [p] + ps, [w] + ws;
    forall i | 0 <= i < |a| ensures WordsOf(a[i]) == [b[i]] {
      if i > 0 { assert a[i] == ps[i - 1] && b[i] == ws[i - 1]; }
    }
    forall i | 0 <= i < |a| - 1 ensures a[i] != "" && IsSpace(a[i][|a[i]| - 1]) {
      if i > 0 { assert a[i] == ps[i - 1]; }
    }
  }

  lemma PiecesSlice(ps: seq<string>, ws: seq<string>, i: nat, j: nat)
    requires ArePieces(ps, ws) && i <= j <= |ps|
    ensures ArePieces(ps[i..j], ws[i..j])
  {
    hide IsSpace, WordsOf;
  }

  // A run of pieces, put back together, is that run of words.
  lemma {:induction false} ConcatOfPieces(ps: seq<string>, ws: seq<string>)
    requires ArePieces(ps, ws)
    ensures WordsOf(Concat(ps)) == ws
  {
    hide IsSpace, WordsOf;
    NoWords();
    if |ps| == 1 {
      assert ps[1..] == [] && ps[0] + "" == ps[0] && ws == [ws[0]];
    } else if ps != [] {
      var p, rest := ps[0], Concat(ps[1..]);
      PiecesSlice(ps, ws, 1, |ps|);
      assert ps[1..] == ps[1..|ps|] && ws[1..] == ws[1..|ps|];
      ConcatOfPieces(ps[1..], ws[1..]);
      EndsInSpace(p, rest);
      assert ws == [ws[0]] + ws[1..];
    }
  }

  lemma EndsInSpace(p: string, rest: string)
    requires p != "" && IsSpace(p[|p| - 1])
    ensures WordsOf(p + rest) == WordsOf(p) + WordsOf(rest)
  {
    hide IsSpace, WordsOf;
    var front, c := p[..|p| - 1], p[|p| - 1];
    assert p == front + [c] && p + rest == front + [c] + rest && p == front + [c] + "";
    SpaceBetween(front, c, rest);
    SpaceBetween(front, c, "");
    NoWords();
    assert WordsOf(front) + [] == WordsOf(front);
  }

  // Any slice of a text's pieces, joined and trimmed, holds that slice of its words.
  lemma SliceOfPieces(s: string, i: nat, j: nat)
    requires i <= j <= |Pieces(s)|
    ensures |Pieces(s)| == |WordsOf(s)| && WordsOf(Trim(Concat(Pieces(s)[i..j]))) == WordsOf(s)[i..j]
  {
    hide WordsOf, Pieces, Trim;
    PiecesArePieces(s);
    PiecesSlice(Pieces(s), WordsOf(s), i, j);
    ConcatOfPieces(Pieces(s)[i..j], WordsOf(s)[i..j]);
    TrimKeeps(Concat(Pieces(s)[i..j]));
  }
}
