// packages/mcp-tools/src/fs-store.ts: absolute paths as the store and its table see them.
module Paths {
  import opened Options

  const MAX_PATH_CHARS := 4096

  // fs_entries' own CHECK: "/" or one or more "/segment".
  predicate IsPath(p: string) {
    p == "/" || (|p| >= 2 && p[0] == '/' && p[|p| - 1] != '/' && NoEmptySegment(p))
  }

  predicate NoEmptySegment(p: string) {
    forall i :: 0 < i < |p| && p[i] == '/' ==> p[i - 1] != '/'
  }

  predicate IsControl(c: char) { c <= '\U{1f}' || c == '\U{7f}' }

  predicate IsEncodedTraversal(a: char, b: char) {
    (a == '2' && b in {'e', 'E', 'f', 'F'}) || (a == '5' && b in {'c', 'C'})
  }

  // A "." or ".." segment starting after the slash at i.
  predicate DotSegmentAt(p: string, i: nat)
    requires i < |p|
  {
    var rest := p[i + 1..];
    p[i] == '/' && (rest == "." || rest == ".." || "./" <= rest || "../" <= rest)
  }

  predicate HasDotSegment(p: string) {
    exists i :: 0 <= i < |p| && DotSegmentAt(p, i)
  }

  function NormalizeFsPath(p: string): (r: Option<string>)
    ensures r.Some? ==> IsPath(r.value) && (p == r.value || p == r.value + "/")
  {
    if |p| == 0 || |p| > MAX_PATH_CHARS || p[0] != '/' then None
    else if exists i :: 0 <= i < |p| && IsControl(p[i]) then None
    else if exists i :: 0 <= i < |p| - 2 && p[i] == '%' && IsEncodedTraversal(p[i + 1], p[i + 2]) then None
    else if p == "/" then Some("/")
    else
      var stripped := if p[|p| - 1] == '/' then p[..|p| - 1] else p;
      if stripped == [] || stripped[|stripped| - 1] == '/' || !NoEmptySegment(stripped) then None
      else if HasDotSegment(stripped) then None
      else Some(stripped)
  }

  // A path that came out goes back in unchanged.
  lemma NormalizeIdempotent(p: string)
    requires NormalizeFsPath(p).Some?
    ensures NormalizeFsPath(NormalizeFsPath(p).value) == NormalizeFsPath(p)
  {
    var q := NormalizeFsPath(p).value;
    if q != p {
      forall i | 0 <= i < |q| ensures !IsControl(q[i]) { assert p[i] == q[i]; }
      forall i | 0 <= i < |q| - 2 ensures !(q[i] == '%' && IsEncodedTraversal(q[i + 1], q[i + 2])) {
        assert p[i] == q[i] && p[i + 1] == q[i + 1] && p[i + 2] == q[i + 2];
      }
      assert q[|q| - 1] != '/';
    }
  }

  // ---- parents and names ----------------------------------------------------------

  function LastSlash(p: string): (i: int)
    ensures -1 <= i < |p|
    ensures i >= 0 ==> p[i] == '/'
    ensures forall j :: i < j < |p| ==> p[j] != '/'
  {
    if p == [] then -1
    else if p[|p| - 1] == '/' then |p| - 1
    else LastSlash(p[..|p| - 1])
  }

  function ParentOf(p: string): string {
    if p == "/" then ""
    else if LastSlash(p) <= 0 then "/"
    else p[..LastSlash(p)]
  }

  function BaseName(p: string): string { p[LastSlash(p) + 1..] }

  function Join(parent: string, name: string): string {
    if parent == "/" then "/" + name else parent + "/" + name
  }

  // LIKE likeChildren(d): strictly below d.
  predicate Under(p: string, d: string) { d + "/" <= p }

  predicate AtOrUnder(p: string, d: string) { p == d || Under(p, d) }

  lemma LastSlashIs(p: string, i: nat)
    requires i < |p| && p[i] == '/' && forall j :: i < j < |p| ==> p[j] != '/'
    ensures LastSlash(p) == i
  {
  }

  lemma UnderAt(p: string, d: string)
    ensures Under(p, d) <==> |d| < |p| && p[..|d|] == d && p[|d|] == '/'
  {
    if Under(p, d) {
      assert p[|d|] == (d + "/")[|d|];
      assert p[..|d|] == (d + "/")[..|d|];
    }
  }

  // The table's columns determine the path, and the parent of a path is a path.
  lemma PathParts(p: string)
    requires IsPath(p) && p != "/"
    ensures p == Join(ParentOf(p), BaseName(p)) && IsPath(ParentOf(p)) && BaseName(p) != ""
    ensures |ParentOf(p)| < |p| && ParentOf(p) != p
    ensures ParentOf(p) != "/" ==> Under(p, ParentOf(p))
  {
    var i := LastSlash(p);
    assert p[0] == '/';
    assert 0 <= i < |p| - 1;
    if i > 0 {
      var q := p[..i];
      assert q[0] == '/';
      assert p[i - 1] != '/';
      assert |q| >= 2;
      assert forall j :: 0 < j < |q| && q[j] == '/' ==> q[j - 1] != '/';
      UnderAt(p, q);
      assert p == q + "/" + p[i + 1..];
    } else {
      assert p == "/" + p[1..];
    }
  }

  lemma UnderTransitive(p: string, q: string, d: string)
    requires AtOrUnder(p, q) && AtOrUnder(q, d)
    ensures AtOrUnder(p, d)
    ensures Under(p, q) || Under(q, d) ==> Under(p, d)
  {
    UnderAt(p, q);
    UnderAt(q, d);
    UnderAt(p, d);
    if Under(p, q) && Under(q, d) {
      assert p[..|d|] == p[..|q|][..|d|];
      assert p[|d|] == p[..|q|][|d|];
    }
  }

  lemma ParentUnder(p: string, d: string)
    requires IsPath(p) && IsPath(d) && d != "/" && Under(p, d)
    ensures p != "/" && AtOrUnder(ParentOf(p), d)
  {
    UnderAt(p, d);
    var i := LastSlash(p);
    assert i >= |d|;
    if i == |d| {
      assert ParentOf(p) == d;
    } else {
      var q := p[..i];
      assert q[..|d|] == d && q[|d|] == '/';
      UnderAt(q, d);
    }
  }

  // ---- the prefix rewrite of a rename ------------------------------------------------

  // $2 || substring(p FROM char_length($1) + 1)
  function Rewrite(p: string, f: string, t: string): string {
    t + (if |f| <= |p| then p[|f|..] else "")
  }

  lemma UnderLength(p: string, f: string)
    requires AtOrUnder(p, f)
    ensures |f| <= |p| && p[..|f|] == f
  {
    UnderAt(p, f);
  }

  lemma {:induction false} LastSlashSuffix(a: string, s: string)
    requires LastSlash(s) >= 0
    ensures LastSlash(a + s) == |a| + LastSlash(s)
  {
    if s[|s| - 1] != '/' {
      LastSlashSuffix(a, s[..|s| - 1]);
      assert (a + s)[..|a + s| - 1] == a + s[..|s| - 1];
    }
  }

  lemma RewriteSlash(p: string, f: string, t: string)
    requires Under(p, f)
    ensures |f| < |p| && |f| <= LastSlash(p)
    ensures LastSlash(t + p[|f|..]) == |t| + LastSlash(p) - |f|
  {
    UnderAt(p, f);
    var s := p[|f|..];
    assert s[0] == '/';
    LastSlashSuffix(f, s);
    LastSlashSuffix(t, s);
    assert p == f + s;
  }

  lemma RewriteUnder(p: string, f: string, t: string)
    requires IsPath(p) && IsPath(f) && IsPath(t) && f != "/" && t != "/" && Under(p, f)
    ensures |f| < |p| && |f| <= |ParentOf(p)|
    ensures Under(Rewrite(p, f, t), t)
    ensures ParentOf(Rewrite(p, f, t)) == Rewrite(ParentOf(p), f, t)
    ensures BaseName(Rewrite(p, f, t)) == BaseName(p)
  {
    hide IsPath, LastSlash;
    RewriteSlash(p, f, t);
    UnderAt(p, f);
    NonemptyPath(f);
    NonemptyPath(t);
    var q, i := t + p[|f|..], LastSlash(p);
    assert q[|t|] == p[|f|];
    UnderAt(q, t);
    assert p[..i][|f|..] == p[|f|..i];
    assert q[..|t| + i - |f|] == t + p[|f|..i];
    assert q[|t| + i - |f| + 1..] == p[i + 1..];
  }

  lemma NonemptyPath(p: string)
    requires IsPath(p)
    ensures |p| > 0
  {
  }

  lemma RewriteIsPath(p: string, f: string, t: string)
    requires IsPath(p) && IsPath(f) && IsPath(t) && f != "/" && t != "/" && AtOrUnder(p, f)
    ensures |f| <= |p| && IsPath(Rewrite(p, f, t)) && AtOrUnder(Rewrite(p, f, t), t)
  {
    UnderLength(p, f);
    var q := Rewrite(p, f, t);
    if p == f {
      assert q == t;
    } else {
      RewriteUnder(p, f, t);
      UnderAt(p, f);
      assert forall i :: |t| <= i < |q| ==> q[i] == p[i - |t| + |f|];
      forall i | 0 < i < |q| && q[i] == '/' ensures q[i - 1] != '/' {
        if i < |t| {
          assert q[i] == t[i] && q[i - 1] == t[i - 1];
        } else if i == |t| {
          assert q[i - 1] == t[|t| - 1];
        }
      }
    }
  }

  // Nothing else lands where p lands, and what lands can be traced back.
  lemma RewriteBack(p: string, f: string, t: string)
    requires AtOrUnder(p, f)
    ensures Rewrite(Rewrite(p, f, t), t, f) == p && |t| <= |Rewrite(p, f, t)|
  {
    UnderLength(p, f);
    assert Rewrite(p, f, t)[|t|..] == p[|f|..];
    assert p == p[..|f|] + p[|f|..];
  }
}
