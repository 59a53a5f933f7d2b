// Lists without repeats: a JavaScript Map's keys in insertion order.
module Lists {
  function Without(s: seq<string>, k: string): seq<string> {
    if s == [] then [] else if s[0] == k then s[1..] else [s[0]] + Without(s[1..], k)
  }

  ghost predicate NoRepeats(s: seq<string>) { forall i, j :: 0 <= i < j < |s| ==> s[i] != s[j] }

  lemma {:induction false} WithoutIs(s: seq<string>, k: string)
    requires NoRepeats(s)
    ensures NoRepeats(Without(s, k)) && forall x :: x in Without(s, k) <==> x in s && x != k
    ensures |Without(s, k)| == |s| - if k in s then 1 else 0
    ensures k !in s ==> Without(s, k) == s
  {
    if s != [] {
      var rest := s[1..];
      assert s == [s[0]] + rest && forall i :: 0 <= i < |rest| ==> rest[i] == s[i + 1];
      forall x | x in rest ensures x != s[0] {
        var i :| 0 <= i < |rest| && rest[i] == x;
        assert s[i + 1] == x;
      }
      WithoutIs(rest, k);
      if s[0] != k { ConsNoRepeats(s[0], Without(rest, k)); }
    }
  }

  lemma ConsNoRepeats(x: string, s: seq<string>)
    requires NoRepeats(s) && x !in s
    ensures NoRepeats([x] + s)
  {
    assert forall i :: 0 < i < |[x] + s| ==> ([x] + s)[i] == s[i - 1];
  }

  lemma SnocNoRepeats(s: seq<string>, x: string)
    requires NoRepeats(s) && x !in s
    ensures NoRepeats(s + [x])
  {
  }

  lemma WithoutCons(x: string, s: seq<string>, k: string)
    ensures Without([x] + s, k) == if x == k then s else [x] + Without(s, k)
  {
    assert ([x] + s)[1..] == s;
  }

  lemma {:induction false} WithoutSplits(a: seq<string>, b: seq<string>, k: string)
    ensures Without(a + b, k) == if k in a then Without(a, k) + b else a + Without(b, k)
  {
    hide Without;
    if a == [] {
      assert a + b == b && [] + Without(b, k) == Without(b, k);
    } else {
      var x, rest := a[0], a[1..];
      assert a == [x] + rest && a + b == [x] + (rest + b);
      WithoutCons(x, rest + b, k);
      WithoutCons(x, rest, k);
      WithoutSplits(rest, b, k);
      assert [x] + (Without(rest, k) + b) == [x] + Without(rest, k) + b;
      assert [x] + (rest + Without(b, k)) == [x] + rest + Without(b, k);
    }
  }

  lemma FirstIsOnce(s: seq<string>)
    requires NoRepeats(s) && s != []
    ensures forall x :: x in s[1..] <==> x in s && x != s[0]
  {
    assert s == [s[0]] + s[1..];
    forall x | x in s[1..] ensures x != s[0] {
      var i :| 0 <= i < |s[1..]| && s[1..][i] == x;
      assert s[i + 1] == x;
    }
  }

  lemma {:induction false} WithoutMiddle(a: seq<string>, x: string, b: seq<string>)
    requires x !in a
    ensures Without(a + [x] + b, x) == a + b
  {
    var s := a + [x] + b;
    if a == [] {
      assert s[1..] == b;
    } else {
      assert s[1..] == a[1..] + [x] + b;
      WithoutMiddle(a[1..], x, b);
      assert [a[0]] + (a[1..] + b) == a + b;
    }
  }
}
