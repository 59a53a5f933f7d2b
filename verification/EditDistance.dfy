// packages/mcp-tools/src/catalog.ts: the one-row edit distance behind "did you mean".
module EditDistances {
  function Min(a: nat, b: nat): nat { if a < b then a else b }

  function Front(s: string): string
    requires s != ""
  {
    s[..|s| - 1]
  }

  function Last(s: string): char
    requires s != ""
  {
    s[|s| - 1]
  }

  // The textbook definition, on last characters.
  function Distance(a: string, b: string): nat
    decreases |a| + |b|
  {
    if a == "" then |b|
    else if b == "" then |a|
    else Min(Min(Distance(Front(a), b) + 1, Distance(a, Front(b)) + 1),
             Distance(Front(a), Front(b)) + if Last(a) == Last(b) then 0 else 1)
  }

  lemma Step(a: string, b: string, i: nat, j: nat)
    requires 1 <= i <= |a| && 1 <= j <= |b|
    ensures Distance(a[..i], b[..j])
         == Min(Min(Distance(a[..i - 1], b[..j]) + 1, Distance(a[..i], b[..j - 1]) + 1),
                Distance(a[..i - 1], b[..j - 1]) + if a[i - 1] == b[j - 1] then 0 else 1)
  {
    assert Front(a[..i]) == a[..i - 1] && Front(b[..j]) == b[..j - 1];
  }

  // Row i of the table, up to column j, and row i - 1 after it.
  ghost predicate RowSoFar(prev: seq<nat>, a: string, b: string, i: nat, j: nat) {
    && |prev| == |b| + 1 && 1 <= i <= |a| && j <= |b|
    && (forall k :: 0 <= k <= j ==> prev[k] == Distance(a[..i], b[..k]))
    && forall k :: j < k <= |b| ==> prev[k] == Distance(a[..i - 1], b[..k])
  }

  ghost predicate WholeRow(prev: seq<nat>, a: string, b: string, i: nat) {
    |prev| == |b| + 1 && i <= |a| && forall k :: 0 <= k <= |b| ==> prev[k] == Distance(a[..i], b[..k])
  }

  lemma FirstRow(prev: seq<nat>, a: string, b: string)
    requires |prev| == |b| + 1 && forall k :: 0 <= k <= |b| ==> prev[k] == k
    ensures WholeRow(prev, a, b, 0)
  {
    assert a[..0] == "";
  }

  lemma RowStarts(prev: seq<nat>, a: string, b: string, i: nat)
    requires 1 <= i <= |a| && WholeRow(prev, a, b, i - 1)
    ensures prev[0] == Distance(a[..i - 1], b[..0]) && RowSoFar(prev[0 := i], a, b, i, 0)
  {
    hide Distance;
    assert b[..0] == "" && Distance(a[..i], "") == i by { EmptyTarget(a[..i]); }
  }

  lemma EmptyTarget(a: string)
    ensures Distance(a, "") == |a|
  {
  }

  lemma RowMoves(prev: seq<nat>, a: string, b: string, i: nat, j: nat, diag: nat)
    requires 1 <= j <= |b| && RowSoFar(prev, a, b, i, j - 1) && diag == Distance(a[..i - 1], b[..j - 1])
    ensures var next := Min(Min(prev[j] + 1, prev[j - 1] + 1), diag + if a[i - 1] == b[j - 1] then 0 else 1);
            RowSoFar(prev[j := next], a, b, i, j) && prev[j] == Distance(a[..i - 1], b[..j])
  {
    hide Distance;
    Step(a, b, i, j);
  }

  lemma RowEnds(prev: seq<nat>, a: string, b: string, i: nat)
    requires RowSoFar(prev, a, b, i, |b|)
    ensures WholeRow(prev, a, b, i)
  {
    hide Distance;
  }

  // One array, overwritten in place row after row, with the cell up and to the left carried along.
  method EditDistance(a: string, b: string) returns (d: nat)
    ensures d == Distance(a, b)
  {
    hide Distance, RowSoFar, WholeRow;
    var prev := new nat[|b| + 1](i => i);
    FirstRow(prev[..], a, b);
    var i: nat := 1;
    while i <= |a|
      invariant 1 <= i <= |a| + 1 && WholeRow(prev[..], a, b, i - 1)
    {
      RowStarts(prev[..], a, b, i);
      ghost var row := prev[..];
      var diag := prev[0];
      prev[0] := i;
      assert prev[..] == row[0 := i];
      var j := 1;
      while j <= |b|
        invariant 1 <= j <= |b| + 1 && RowSoFar(prev[..], a, b, i, j - 1)
        invariant j <= |b| ==> diag == Distance(a[..i - 1], b[..j - 1])
      {
        RowMoves(prev[..], a, b, i, j, diag);
        row := prev[..];
        var next := Min(Min(prev[j] + 1, prev[j - 1] + 1), diag + if a[i - 1] == b[j - 1] then 0 else 1);
        diag := prev[j];
        prev[j] := next;
        assert prev[..] == row[j := next];
        j := j + 1;
      }
      RowEnds(prev[..], a, b, i);
      i := i + 1;
    }
    LastCell(prev[..], a, b);
    d := prev[|b|];
  }

  lemma LastCell(prev: seq<nat>, a: string, b: string)
    requires WholeRow(prev, a, b, |a|)
    ensures |prev| == |b| + 1 && prev[|b|] == Distance(a, b)
  {
    hide Distance;
    assert a[..|a|] == a && b[..|b|] == b;
  }

  // ---- what it measures -----------------------------------------------------------------------

  datatype Edit = Keep(c: char) | Insert(c: char) | Delete(c: char) | Replace(c: char, d: char)
  datatype Script = Nil | Snoc(front: Script, last: Edit)

  function Reads(e: Edit): string {
    match e case Insert(_) => "" case Keep(c) => [c] case Delete(c) => [c] case Replace(c, _) => [c]
  }
  function Writes(e: Edit): string {
    match e case Insert(c) => [c] case Keep(c) => [c] case Delete(_) => "" case Replace(_, d) => [d]
  }
  function Price(e: Edit): nat { if e.Keep? then 0 else 1 }

  function Source(s: Script): string { match s case Nil => "" case Snoc(f, e) => Source(f) + Reads(e) }
  function Target(s: Script): string { match s case Nil => "" case Snoc(f, e) => Target(f) + Writes(e) }
  function Cost(s: Script): nat { match s case Nil => 0 case Snoc(f, e) => Cost(f) + Price(e) }

  // No script from a to b is cheaper.
  lemma {:induction false} NoScriptIsCheaper(s: Script)
    ensures Distance(Source(s), Target(s)) <= Cost(s)
  {
    match s
    case Nil =>
    case Snoc(f, e) =>
      NoScriptIsCheaper(f);
      var a, b := Source(f), Target(f);
      assert forall c: char :: Front(a + [c]) == a && Front(b + [c]) == b;
      match e {
        case Insert(c) => OneMore(a, b, c);
        case Delete(c) => OneMore(a, b, c);
        case Keep(c) =>
        case Replace(_, _) =>
      }
  }

  lemma OneMore(a: string, b: string, c: char)
    ensures Distance(a, b + [c]) <= Distance(a, b) + 1 && Distance(a + [c], b) <= Distance(a, b) + 1
    ensures a + "" == a && b + "" == b
  {
    assert Front(a + [c]) == a && Front(b + [c]) == b;
  }

  // Which of the three moves the definition takes last.
  lemma LastMove(a: string, b: string)
    requires a != "" || b != ""
    ensures || (a != "" && Distance(a, b) == Distance(Front(a), b) + 1)
            || (b != "" && Distance(a, b) == Distance(a, Front(b)) + 1)
            || (a != "" && b != ""
                && Distance(a, b) == Distance(Front(a), Front(b)) + if Last(a) == Last(b) then 0 else 1)
  {
    if b == "" {
      EmptyTarget(a);
      EmptyTarget(Front(a));
    }
  }

  lemma Whole(a: string)
    requires a != ""
    ensures Front(a) + [Last(a)] == a && |Front(a)| < |a|
    ensures a + "" == a
  {
  }

  // And one achieves it.
  lemma {:induction false} CheapestScript(a: string, b: string) returns (s: Script)
    ensures Source(s) == a && Target(s) == b && Cost(s) == Distance(a, b)
    decreases |a| + |b|
  {
    hide Distance, Front, Last;
    if a == "" && b == "" {
      s := Nil;
      SameHead("");
    } else {
      LastMove(a, b);
      if a != "" { Whole(a); }
      if b != "" { Whole(b); }
      if a != "" && Distance(a, b) == Distance(Front(a), b) + 1 {
        s := CheapestScript(Front(a), b);
        s := Snoc(s, Delete(Last(a)));
        assert b + "" == b;
      } else if b != "" && Distance(a, b) == Distance(a, Front(b)) + 1 {
        s := CheapestScript(a, Front(b));
        s := Snoc(s, Insert(Last(b)));
        assert a + "" == a;
      } else {
        s := CheapestScript(Front(a), Front(b));
        s := Snoc(s, if Last(a) == Last(b) then Keep(Last(a)) else Replace(Last(a), Last(b)));
      }
    }
  }

  lemma {:induction false} Symmetric(a: string, b: string)
    ensures Distance(a, b) == Distance(b, a)
    decreases |a| + |b|
  {
    if a == "" || b == "" {
      EmptyTarget(a);
      EmptyTarget(b);
    } else {
      Symmetric(Front(a), b);
      Symmetric(a, Front(b));
      Symmetric(Front(a), Front(b));
    }
  }

  lemma {:induction false} ZeroIffEqual(a: string, b: string)
    ensures Distance(a, b) == 0 <==> a == b
    decreases |a| + |b|
  {
    if a != "" && b != "" {
      ZeroIffEqual(Front(a), Front(b));
      assert a == Front(a) + [Last(a)] && b == Front(b) + [Last(b)];
    }
  }

  // Two scripts in a row, done at once: never dearer.
  lemma {:induction false} Compose(s: Script, t: Script) returns (u: Script)
    requires Target(s) == Source(t)
    ensures Source(u) == Source(s) && Target(u) == Target(t) && Cost(u) <= Cost(s) + Cost(t)
    decreases s, t
  {
    if s.Snoc? && s.last.Delete? {
      assert Target(s.front) + "" == Target(s.front);
      u := Compose(s.front, t);
      u := Snoc(u, s.last);
    } else if t.Snoc? && t.last.Insert? {
      assert Source(t.front) + "" == Source(t.front);
      u := Compose(s, t.front);
      u := Snoc(u, t.last);
    } else if s.Nil? || t.Nil? {
      assert s.Snoc? ==> |Target(s)| > 0;
      assert t.Snoc? ==> |Source(t)| > 0;
      u := Nil;
    } else {
      SameEnds(Target(s.front), Writes(s.last), Source(t.front), Reads(t.last));
      u := Compose(s.front, t.front);
      u := ComposeOne(u, s.last, t.last);
    }
  }

  lemma SameEnds(a: string, x: string, b: string, y: string)
    requires a + x == b + y && |x| == 1 && |y| == 1
    ensures a == b && x == y
  {
    assert a == (a + x)[..|a|] && b == (b + y)[..|b|];
    assert x[0] == (a + x)[|a|] && y[0] == (b + y)[|b|];
  }

  lemma ComposeOne(front: Script, e: Edit, f: Edit) returns (u: Script)
    requires !e.Delete? && !f.Insert? && Writes(e) == Reads(f)
    ensures Source(u) == Source(front) + Reads(e) && Target(u) == Target(front) + Writes(f)
    ensures Cost(u) <= Cost(front) + Price(e) + Price(f)
  {
    match (e, f)
    case (Insert(_), Delete(_)) =>
      u := front;
      assert Source(front) + "" == Source(front) && Target(front) + "" == Target(front);
    case (Insert(_), Keep(d)) => u := Snoc(front, Insert(d));
    case (Insert(_), Replace(_, d)) => u := Snoc(front, Insert(d));
    case (Keep(_), _) => u := Snoc(front, f);
    case (Replace(c, _), Keep(d)) => u := Snoc(front, Replace(c, d));
    case (Replace(c, _), Replace(_, d)) => u := Snoc(front, if c == d then Keep(c) else Replace(c, d));
    case (Replace(c, _), Delete(_)) => u := Snoc(front, Delete(c));
  }

  lemma {:induction false} Triangle(a: string, b: string, c: string)
    ensures Distance(a, c) <= Distance(a, b) + Distance(b, c)
  {
    var s := CheapestScript(a, b);
    var t := CheapestScript(b, c);
    var u := Compose(s, t);
    NoScriptIsCheaper(u);
  }

  // ---- single edits in any order -----------------------------------------------------------------

  // One character inserted, deleted or replaced, anywhere.
  ghost predicate OneEdit(a: string, b: string) {
    exists x, y, p, q :: IsEdit(a, b, x, y, p, q)
  }

  ghost predicate IsEdit(a: string, b: string, x: string, y: string, p: string, q: string) {
    |p| <= 1 && |q| <= 1 && a == x + p + y && b == x + q + y
  }

  lemma {:induction false} SameTail(a: string, b: string, y: string)
    ensures Distance(a + y, b + y) <= Distance(a, b)
    decreases |y|
  {
    if y == "" {
      assert a + y == a && b + y == b;
    } else {
      SameTail(a, b, Front(y));
      assert Front(a + y) == a + Front(y) && Front(b + y) == b + Front(y);
    }
  }

  lemma {:induction false} SameHead(x: string)
    ensures Distance(x, x) == 0
  {
    ZeroIffEqual(x, x);
  }

  lemma OneEditIsOne(a: string, b: string)
    requires OneEdit(a, b)
    ensures Distance(a, b) <= 1
  {
    hide Distance;
    var x, y, p, q :| IsEdit(a, b, x, y, p, q);
    EditAtEnd(x, p, q);
    SameTail(x + p, x + q, y);
  }

  lemma EditAtEnd(x: string, p: string, q: string)
    requires |p| <= 1 && |q| <= 1
    ensures Distance(x + p, x + q) <= 1
  {
    hide Distance;
    SameHead(x);
    assert x + "" == x;
    if p != "" && q != "" {
      assert p == [p[0]] && q == [q[0]];
      OneReplaced(x, p[0], q[0]);
    } else if p != "" {
      assert p == [p[0]];
      OneMore(x, x, p[0]);
    } else if q != "" {
      assert q == [q[0]];
      OneMore(x, x, q[0]);
    }
  }

  lemma OneReplaced(x: string, c: char, d: char)
    ensures Distance(x + [c], x + [d]) <= Distance(x, x) + 1
  {
    assert Front(x + [c]) == x && Front(x + [d]) == x;
  }

  // However the edits are ordered, getting from one word to another takes at least the distance.
  lemma {:induction false} NoPathIsShorter(path: seq<string>)
    requires path != [] && forall i :: 0 <= i < |path| - 1 ==> OneEdit(path[i], path[i + 1])
    ensures Distance(path[0], path[|path| - 1]) <= |path| - 1
    decreases |path|
  {
    hide Distance, OneEdit;
    if |path| == 1 {
      SameHead(path[0]);
    } else {
      var rest := path[1..];
      forall i | 0 <= i < |rest| - 1 ensures OneEdit(rest[i], rest[i + 1]) { assert OneEdit(path[i + 1], path[i + 2]); }
      NoPathIsShorter(rest);
      OneEditIsOne(path[0], path[1]);
      Triangle(path[0], path[1], path[|path| - 1]);
    }
  }
}
