// apps/box/src/inference-cache.ts: the LRU and the rerank memo over it.
module RerankCache {
  import opened Lists
  import opened Options
  import opened Characters

  // ---- touch order ----------------------------------------------------------------------------

  function Touched(s: seq<string>, k: string): seq<string> { Without(s, k) + [k] }

  // Every key ever touched, the longest untouched first.
  function Recency(touches: seq<string>): seq<string> {
    if touches == [] then [] else Touched(Recency(touches[..|touches| - 1]), touches[|touches| - 1])
  }

  function Newest(s: seq<string>, max: nat): seq<string> { if |s| <= max then s else s[|s| - max..] }

  lemma {:induction false} RecencyIs(touches: seq<string>)
    ensures NoRepeats(Recency(touches)) && forall x :: x in Recency(touches) <==> x in touches
  {
    if touches != [] {
      var front, last := touches[..|touches| - 1], touches[|touches| - 1];
      assert touches == front + [last];
      RecencyIs(front);
      WithoutIs(Recency(front), last);
      SnocNoRepeats(Without(Recency(front), last), last);
    }
  }

  // Keeping only the newest and touching commute: eviction loses nothing the bound would keep.
  lemma TouchNewest(s: seq<string>, k: string, max: nat)
    requires NoRepeats(s)
    ensures k in Newest(s, max) ==> Newest(Touched(s, k), max) == Touched(Newest(s, max), k)
    ensures k !in Newest(s, max) ==> Newest(Touched(s, k), max) == Newest(Newest(s, max) + [k], max)
  {
    hide Without, Newest;
    var kept := Newest(s, max);
    var n := Kept(s, max);
    SliceNoRepeats(s, n);
    if k in kept { TouchKept(s[..n], kept, k, max); } else { TouchNew(s[..n], kept, k, max); }
  }

  lemma Kept(s: seq<string>, max: nat) returns (n: nat)
    ensures n <= |s| && Newest(s, max) == s[n..] && s == s[..n] + s[n..]
    ensures |s[n..]| <= max && (|s[n..]| < max ==> n == 0) && (n > 0 ==> |s[n..]| == max)
  {
    n := if |s| <= max then 0 else |s| - max;
  }

  lemma TouchKept(dropped: seq<string>, kept: seq<string>, k: string, max: nat)
    requires NoRepeats(dropped + kept) && NoRepeats(kept) && k in kept && (|kept| == max || dropped == [])
             && |kept| <= max
    ensures Newest(Touched(dropped + kept, k), max) == Touched(kept, k)
  {
    hide Without, NoRepeats;
    NotInBoth(dropped, kept, k);
    WithoutSplits(dropped, kept, k);
    WithoutIs(kept, k);
    var w := Without(kept, k) + [k];
    assert Touched(dropped + kept, k) == dropped + w;
    TailOf(dropped, w, max);
  }

  lemma TouchNew(dropped: seq<string>, kept: seq<string>, k: string, max: nat)
    requires NoRepeats(dropped) && NoRepeats(kept) && k !in kept && (|kept| == max || dropped == []) && |kept| <= max
    ensures Newest(Touched(dropped + kept, k), max) == Newest(kept + [k], max)
  {
    hide Without, NoRepeats, Newest;
    WithoutSplits(dropped, kept, k);
    WithoutIs(dropped, k);
    WithoutIs(kept, k);
    var front := if k in dropped then Without(dropped, k) else dropped;
    assert Touched(dropped + kept, k) == front + (kept + [k]);
    TailOf(front, kept + [k], max);
  }

  lemma SliceNoRepeats(s: seq<string>, n: nat)
    requires NoRepeats(s) && n <= |s|
    ensures NoRepeats(s[..n]) && NoRepeats(s[n..])
  {
  }

  lemma NotInBoth(a: seq<string>, b: seq<string>, k: string)
    requires NoRepeats(a + b) && k in b
    ensures k !in a
  {
    var j :| 0 <= j < |b| && b[j] == k;
    forall i | 0 <= i < |a| ensures a[i] != k { assert (a + b)[i] == a[i] && (a + b)[|a| + j] == k; }
  }

  lemma TailOf(a: seq<string>, b: seq<string>, max: nat)
    requires |b| >= max || a == []
    ensures Newest(a + b, max) == Newest(b, max)
  {
    if a == [] {
      assert a + b == b;
    } else if |a + b| > max {
      assert (a + b)[|a + b| - max..] == b[|b| - max..];
    }
  }

  // ---- what touch order means ---------------------------------------------------------------------

  // The last time k was touched.
  function LastTouch(touches: seq<string>, k: string): nat
    requires k in touches
  {
    if touches[|touches| - 1] == k then |touches| - 1
    else
      assert touches == touches[..|touches| - 1] + [touches[|touches| - 1]];
      LastTouch(touches[..|touches| - 1], k)
  }

  ghost predicate Earlier(touches: seq<string>, x: string, y: string) {
    x in touches && y in touches && LastTouch(touches, x) < LastTouch(touches, y)
  }

  ghost predicate OrderedByTouch(s: seq<string>, touches: seq<string>) {
    forall i, j :: 0 <= i < j < |s| ==> Earlier(touches, s[i], s[j])
  }

  lemma {:induction false} WithoutKeepsOrder(s: seq<string>, k: string, touches: seq<string>)
    requires OrderedByTouch(s, touches)
    ensures OrderedByTouch(Without(s, k), touches)
    ensures forall x :: x in Without(s, k) ==> x in s
  {
    hide Earlier, Without;
    if s == [] {
      WithoutNothing(k);
    } else {
      var x, rest := s[0], s[1..];
      assert s == [x] + rest;
      WithoutCons(x, rest, k);
      ConsOrderedBack(x, rest, touches);
      WithoutKeepsOrder(rest, k, touches);
      if x != k { ConsOrdered(x, Without(rest, k), touches); }
    }
  }

  lemma WithoutNothing(k: string)
    ensures Without([], k) == []
  {
  }

  lemma ConsOrdered(x: string, s: seq<string>, touches: seq<string>)
    requires OrderedByTouch(s, touches) && forall y :: y in s ==> Earlier(touches, x, y)
    ensures OrderedByTouch([x] + s, touches)
  {
    hide Earlier;
    var t := [x] + s;
    forall i, j | 0 <= i < j < |t| ensures Earlier(touches, t[i], t[j]) {
      assert t[j] == s[j - 1] && t[j] in s;
      if i > 0 { assert t[i] == s[i - 1]; }
    }
  }

  lemma ConsOrderedBack(x: string, s: seq<string>, touches: seq<string>)
    requires OrderedByTouch([x] + s, touches)
    ensures OrderedByTouch(s, touches) && forall y :: y in s ==> Earlier(touches, x, y)
  {
    hide Earlier;
    var t := [x] + s;
    forall i, j | 0 <= i < j < |s| ensures Earlier(touches, s[i], s[j]) { assert t[i + 1] == s[i] && t[j + 1] == s[j]; }
    forall y | y in s ensures Earlier(touches, x, y) {
      var j :| 0 <= j < |s| && s[j] == y;
      assert t[0] == x && t[j + 1] == y;
    }
  }

  lemma SnocOrdered(s: seq<string>, x: string, touches: seq<string>)
    requires OrderedByTouch(s, touches) && forall y :: y in s ==> Earlier(touches, y, x)
    ensures OrderedByTouch(s + [x], touches)
  {
    hide Earlier;
    var t := s + [x];
    forall i, j | 0 <= i < j < |t| ensures Earlier(touches, t[i], t[j]) {
      assert t[i] == s[i] && t[i] in s;
      if j < |s| { assert t[j] == s[j]; }
    }
  }

  // A touch of another key leaves two keys in the order they were.
  lemma TouchKeepsEarlier(touches: seq<string>, x: string, y: string, k: string)
    requires Earlier(touches, x, y) && x != k && y != k
    ensures Earlier(touches + [k], x, y)
  {
    assert (touches + [k])[..|touches|] == touches;
  }

  lemma TouchIsLast(touches: seq<string>, x: string, k: string)
    requires x in touches && x != k
    ensures Earlier(touches + [k], x, k)
  {
    assert (touches + [k])[..|touches|] == touches;
    LastTouchIsWithin(touches, x);
  }

  lemma TouchKeepsOrder(s: seq<string>, touches: seq<string>, k: string)
    requires OrderedByTouch(s, touches) && k !in s
    ensures OrderedByTouch(s, touches + [k])
  {
    hide Earlier;
    forall i, j | 0 <= i < j < |s| ensures Earlier(touches + [k], s[i], s[j]) {
      assert s[i] in s && s[j] in s;
      TouchKeepsEarlier(touches, s[i], s[j], k);
    }
  }

  // Recency lists every touched key once, in the order of their last touches.
  lemma {:induction false} RecencyOrders(touches: seq<string>)
    ensures OrderedByTouch(Recency(touches), touches)
  {
    hide Without, Earlier, OrderedByTouch;
    if touches == [] {
      NothingOrdered();
    } else {
      var front, last := touches[..|touches| - 1], touches[|touches| - 1];
      assert touches == front + [last];
      RecencyOrders(front);
      RecencyIs(front);
      var w := Without(Recency(front), last);
      WithoutIs(Recency(front), last);
      WithoutKeepsOrder(Recency(front), last, front);
      TouchKeepsOrder(w, front, last);
      forall y | y in w ensures Earlier(touches, y, last) { TouchIsLast(front, y, last); }
      SnocOrdered(w, last, touches);
    }
  }

  lemma NothingOrdered()
    ensures OrderedByTouch([], [])
  {
  }

  lemma LastTouchIsWithin(touches: seq<string>, k: string)
    requires k in touches
    ensures LastTouch(touches, k) < |touches| && touches[LastTouch(touches, k)] == k
  {
    if touches[|touches| - 1] != k {
      assert touches == touches[..|touches| - 1] + [touches[|touches| - 1]];
      LastTouchIsWithin(touches[..|touches| - 1], k);
    }
  }

  // ---- the cache --------------------------------------------------------------------------------------

  class Lru {
    const max: nat
    // The Map: its entries, and its keys in insertion order.
    var m: map<string, real>
    var keys: seq<string>
    ghost var touches: seq<string>

    constructor (max: nat)
      ensures this.max == max && m == map[] && touches == [] && Valid()
    {
      this.max, m, keys, touches := max, map[], [], [];
    }

    // Exactly the most recently touched keys, up to the bound, oldest first.
    ghost predicate Valid()
      reads this
    {
      keys == Newest(Recency(touches), max) && forall k :: k in m <==> k in keys
    }

    lemma KeysDistinct()
      requires Valid()
      ensures NoRepeats(keys)
    {
      RecencyIs(touches);
    }

    method Get(k: string) returns (v: Option<real>)
      requires Valid()
      modifies this
      ensures Valid() && m == old(m)
      ensures v == if k in old(m) then Some(old(m)[k]) else None
      ensures touches == if k in old(m) then old(touches) + [k] else old(touches)
    {
      hide Recency, Without, Newest;
      if k !in m { return None; }
      v := Some(m[k]);
      TouchSteps(touches, k, max);
      KeysDistinct();
      WithoutIs(keys, k);
      keys := Without(keys, k);
      keys := keys + [k];
      touches := touches + [k];
    }

    method Set(k: string, v: real)
      requires Valid()
      modifies this
      ensures Valid() && touches == old(touches) + [k]
      ensures k in m ==> m[k] == v
      ensures forall x :: x in m && x != k ==> x in old(m) && m[x] == old(m)[x]
    {
      hide Recency, Without, NoRepeats, Newest;
      KeysAfterSet(touches, k, max);
      keys := Without(keys, k);
      m := m - {k};
      m, keys := m[k := v], keys + [k];
      if |keys| > max {
        m := m - {keys[0]};
        keys := keys[1..];
      }
      touches := touches + [k];
    }
  }

  // The keys a set leaves behind, before and after the oldest may have to go.
  lemma KeysAfterSet(touches: seq<string>, k: string, max: nat)
    ensures var kept := Newest(Recency(touches), max);
            var more := Without(kept, k) + [k];
            && Newest(Recency(touches + [k]), max) == (if |more| > max then more[1..] else more)
            && (forall x :: x in Without(kept, k) <==> x in kept && x != k)
            && forall x :: x in more[1..] <==> x in more && x != more[0]
  {
    hide Recency, Without, NoRepeats, Newest;
    var kept := Newest(Recency(touches), max);
    TouchSteps(touches, k, max);
    KeptWithinBound(touches, max);
    RecencyIs(touches);
    NewestNoRepeats(Recency(touches), max);
    WithoutIs(kept, k);
    SnocNoRepeats(Without(kept, k), k);
    FirstIsOnce(Without(kept, k) + [k]);
    OneTooMany(kept, k, max);
  }

  lemma NewestNoRepeats(s: seq<string>, max: nat)
    requires NoRepeats(s)
    ensures NoRepeats(Newest(s, max))
  {
  }

  lemma OneTooMany(kept: seq<string>, k: string, max: nat)
    requires |kept| <= max
    ensures Newest(kept + [k], max) == if |kept| == max then (kept + [k])[1..] else kept + [k]
  {
  }

  lemma TouchSteps(touches: seq<string>, k: string, max: nat)
    ensures var kept := Newest(Recency(touches), max);
            Newest(Recency(touches + [k]), max) == if k in kept then Touched(kept, k) else Newest(kept + [k], max)
  {
    hide Without, Newest;
    RecencyIs(touches);
    assert (touches + [k])[..|touches|] == touches;
    TouchNewest(Recency(touches), k, max);
  }

  lemma KeptWithinBound(touches: seq<string>, max: nat)
    ensures |Newest(Recency(touches), max)| <= max
  {
  }

  // ---- the key ------------------------------------------------------------------------------------------

  datatype Candidate = Candidate(id: string, text: string)
  datatype Score = Score(id: string, score: real)

  // normalise and hashText, as functions of their text.
  datatype Text = Text(normalise: string -> string, hash: string -> string)


  function Digits(n: nat): string {
    if n < 10 then [('0' as int + n) as char] else Digits(n / 10) + [('0' as int + n % 10) as char]
  }

  function KeyFor(t: Text, query: string, c: Candidate): string {
    t.normalise(query) + [NUL] + Digits(|c.id|) + ":" + c.id + [NUL] + t.hash(c.text)
  }

  lemma {:induction false} DigitsAreDigits(n: nat)
    ensures Digits(n) != "" && forall i :: 0 <= i < |Digits(n)| ==> '0' <= Digits(n)[i] <= '9'
  {
    if n >= 10 { DigitsAreDigits(n / 10); }
  }

  lemma {:induction false} DigitsTell(a: nat, b: nat)
    requires Digits(a) == Digits(b)
    ensures a == b
  {
    DigitsAreDigits(a / 10);
    DigitsAreDigits(b / 10);
    var x, y := Digits(a), Digits(b);
    assert x[|x| - 1] == y[|y| - 1];
    if a >= 10 && b >= 10 {
      assert Digits(a / 10) == x[..|x| - 1] && Digits(b / 10) == y[..|y| - 1];
      DigitsTell(a / 10, b / 10);
    }
  }

  lemma ShorterFront(a: string, b: string, x: string, y: string, sep: char)
    requires a + [sep] + x == b + [sep] + y && |a| < |b|
    ensures sep in b
  {
    assert (a + [sep] + x)[|a|] == sep && (b + [sep] + y)[|a|] == b[|a|];
  }

  lemma ShorterBack(a: string, b: string, x: string, y: string, sep: char)
    requires a + [sep] + x == b + [sep] + y && |x| < |y|
    ensures sep in y
  {
    var i := |a|;
    assert |a| + |x| == |b| + |y|;
    assert (a + [sep] + x)[i] == sep && (b + [sep] + y)[i] == y[i - |b| - 1];
  }

  lemma SameLengths(a: string, b: string, x: string, y: string, sep: char)
    requires a + [sep] + x == b + [sep] + y && |a| == |b|
    ensures a == b && x == y
  {
    var s := a + [sep] + x;
    assert a == s[..|a|] && b == (b + [sep] + y)[..|a|];
    assert x == s[|a| + 1..] && y == (b + [sep] + y)[|a| + 1..];
  }

  // Where a separator first appears, or last, tells what is before it from what is after.
  lemma SplitAtFirst(a: string, b: string, x: string, y: string, sep: char)
    requires a + [sep] + x == b + [sep] + y && sep !in a && sep !in b
    ensures a == b && x == y
  {
    if |a| < |b| { ShorterFront(a, b, x, y, sep); }
    if |b| < |a| { ShorterFront(b, a, y, x, sep); }
    SameLengths(a, b, x, y, sep);
  }

  lemma SplitAtLast(a: string, b: string, x: string, y: string, sep: char)
    requires a + [sep] + x == b + [sep] + y && sep !in x && sep !in y
    ensures a == b && x == y
  {
    if |x| < |y| { ShorterBack(a, b, x, y, sep); }
    if |y| < |x| { ShorterBack(b, a, y, x, sep); }
    assert |a| + |x| == |b| + |y|;
    SameLengths(a, b, x, y, sep);
  }

  lemma SameBack(id: string, id2: string, x: string, y: string)
    requires id + x == id2 + y && |id| == |id2|
    ensures id == id2 && x == y
  {
    assert id == (id + x)[..|id|] && id2 == (id2 + y)[..|id|];
    assert x == (id + x)[|id|..] && y == (id2 + y)[|id|..];
  }

  lemma NoColon(n: nat)
    ensures ':' !in Digits(n)
  {
    DigitsAreDigits(n);
  }

  lemma Regroup(d: string, id: string, x: string)
    ensures d + ":" + id + x == d + [':'] + (id + x)
  {
  }

  // "12:abc…": the length prefix says where the id ends, whatever the id holds.
  lemma LengthPrefixTells(id: string, id2: string, x: string, y: string)
    requires Digits(|id|) + ":" + id + x == Digits(|id2|) + ":" + id2 + y
    ensures id == id2 && x == y
  {
    hide Digits;
    NoColon(|id|);
    NoColon(|id2|);
    Regroup(Digits(|id|), id, x);
    Regroup(Digits(|id2|), id2, y);
    SplitAtFirst(Digits(|id|), Digits(|id2|), id + x, id2 + y, ':');
    DigitsTell(|id|, |id2|);
    SameBack(id, id2, x, y);
  }

  // Among queries without a NUL the key tells query, id and text hash apart, whatever the ids hold;
  // among ids without a NUL it does so whatever the queries hold.
  lemma KeyTells(t: Text, q: string, c: Candidate, q2: string, c2: Candidate)
    requires KeyFor(t, q, c) == KeyFor(t, q2, c2)
    requires Plain(t.hash(c.text)) && Plain(t.hash(c2.text))
    requires (Plain(t.normalise(q)) && Plain(t.normalise(q2))) || (Plain(c.id) && Plain(c2.id))
    ensures t.normalise(q) == t.normalise(q2) && c.id == c2.id && t.hash(c.text) == t.hash(c2.text)
  {
    hide Digits;
    KeyParts(t, q, c);
    KeyParts(t, q2, c2);
    if Plain(c.id) && Plain(c2.id) {
      PartsTellByIds(t.normalise(q), t.normalise(q2), c.id, c2.id, t.hash(c.text), t.hash(c2.text));
    } else {
      PartsTellByQueries(t.normalise(q), t.normalise(q2), c.id, c2.id, t.hash(c.text), t.hash(c2.text));
    }
  }

  function Labelled(id: string): string { Digits(|id|) + ":" + id }

  lemma KeyParts(t: Text, q: string, c: Candidate)
    ensures KeyFor(t, q, c) == t.normalise(q) + [NUL] + (Labelled(c.id) + [NUL] + t.hash(c.text))
    ensures KeyFor(t, q, c) == (t.normalise(q) + [NUL] + Labelled(c.id)) + [NUL] + t.hash(c.text)
  {
    hide Digits;
  }

  lemma LabelTells(id: string, id2: string, x: string, y: string)
    requires Labelled(id) + x == Labelled(id2) + y
    ensures id == id2 && x == y
  {
    hide Digits;
    LengthPrefixTells(id, id2, x, y);
  }

  lemma PartsTellByQueries(n: string, n2: string, id: string, id2: string, h: string, h2: string)
    requires n + [NUL] + (Labelled(id) + [NUL] + h) == n2 + [NUL] + (Labelled(id2) + [NUL] + h2) && Plain(n)
             && Plain(n2)
    ensures n == n2 && id == id2 && h == h2
  {
    hide Labelled;
    var l, l2 := Labelled(id), Labelled(id2);
    SplitAtFirst(n, n2, l + [NUL] + h, l2 + [NUL] + h2, NUL);
    assert l + [NUL] + h == l + ([NUL] + h) && l2 + [NUL] + h2 == l2 + ([NUL] + h2);
    LabelTells(id, id2, [NUL] + h, [NUL] + h2);
    SameBack([NUL], [NUL], h, h2);
  }

  lemma PartsTellByIds(n: string, n2: string, id: string, id2: string, h: string, h2: string)
    requires (n + [NUL] + Labelled(id)) + [NUL] + h == (n2 + [NUL] + Labelled(id2)) + [NUL] + h2
    requires Plain(id) && Plain(id2) && Plain(h) && Plain(h2)
    ensures n == n2 && id == id2 && h == h2
  {
    hide Labelled;
    var l, l2 := Labelled(id), Labelled(id2);
    SplitAtLast(n + [NUL] + l, n2 + [NUL] + l2, h, h2, NUL);
    PlainLabel(id);
    PlainLabel(id2);
    SplitAtLast(n, n2, l, l2, NUL);
    assert l + "" == l && l2 + "" == l2;
    LabelTells(id, id2, "", "");
  }

  lemma PlainLabel(id: string)
    requires Plain(id)
    ensures Plain(Labelled(id))
  {
    DigitsAreDigits(|id|);
  }

  // With a NUL on both sides the length prefix does not help: these two pairs share a key.
  lemma KeysCollide(t: Text, text: string)
    requires t.normalise("a") == "a" && t.normalise("a" + [NUL] + "5:z") == "a" + [NUL] + "5:z"
    ensures KeyFor(t, "a", Candidate("z" + [NUL] + "1:y", text)) == KeyFor(t, "a" + [NUL] + "5:z", Candidate("y", text))
  {
    assert Digits(5) == "5" && Digits(1) == "1";
    var h := t.hash(text);
    calc {
      KeyFor(t, "a", Candidate("z" + [NUL] + "1:y", text));
      "a" + [NUL] + "5" + ":" + ("z" + [NUL] + "1:y") + [NUL] + h;
      "a" + [NUL] + "5:z" + [NUL] + "1" + ":" + "y" + [NUL] + h;
      KeyFor(t, "a" + [NUL] + "5:z", Candidate("y", text));
    }
  }

  // One key ends inside the other: the id ends in a NUL and the other's labelled id, and the other
  // query is this one with a NUL and the rest of the labelled id behind it.
  predicate Swallows(n: string, id: string, n2: string, id2: string) {
    var l1, tail := Labelled(id), [NUL] + Labelled(id2);
    |tail| <= |id| && id[|id| - |tail|..] == tail && n2 == n + [NUL] + l1[..|l1| - |tail|]
  }

  // Exactly which pairs share a key. An id without a NUL, as every uuid is, swallows nothing.
  lemma KeysMeetIff(t: Text, q: string, c: Candidate, q2: string, c2: Candidate)
    requires Plain(t.hash(c.text)) && Plain(t.hash(c2.text))
    ensures KeyFor(t, q, c) == KeyFor(t, q2, c2) <==>
              && t.hash(c.text) == t.hash(c2.text)
              && (|| (t.normalise(q) == t.normalise(q2) && c.id == c2.id)
                  || Swallows(t.normalise(q), c.id, t.normalise(q2), c2.id)
                  || Swallows(t.normalise(q2), c2.id, t.normalise(q), c.id))
    ensures Plain(c.id) ==> !Swallows(t.normalise(q), c.id, t.normalise(q2), c2.id)
  {
    hide Labelled, Swallows;
    var n, n2, l, l2 := t.normalise(q), t.normalise(q2), Labelled(c.id), Labelled(c2.id);
    KeyParts(t, q, c);
    KeyParts(t, q2, c2);
    if KeyFor(t, q, c) == KeyFor(t, q2, c2) {
      SplitAtLast(n + [NUL] + l, n2 + [NUL] + l2, t.hash(c.text), t.hash(c2.text), NUL);
    }
    SwallowedJoins(n, c.id, n2, c2.id);
    SwallowedJoins(n2, c2.id, n, c.id);
    if n + [NUL] + l == n2 + [NUL] + l2 {
      if |n| < |n2| {
        LongerSwallows(n, c.id, n2, c2.id);
      } else if |n2| < |n| {
        LongerSwallows(n2, c2.id, n, c.id);
      } else {
        assert n + ([NUL] + l) == n + [NUL] + l && n2 + ([NUL] + l2) == n2 + [NUL] + l2;
        SameBack(n, n2, [NUL] + l, [NUL] + l2);
        SameBack([NUL], [NUL], l, l2);
        assert l + "" == l && l2 + "" == l2;
        LabelTells(c.id, c2.id, "", "");
      }
    }
  }

  lemma SwallowedJoins(n: string, id: string, n2: string, id2: string)
    ensures Swallows(n, id, n2, id2) ==> n + [NUL] + Labelled(id) == n2 + [NUL] + Labelled(id2) && NUL in id
  {
    if Swallows(n, id, n2, id2) {
      hide Digits;
      var l1, tail := Labelled(id), [NUL] + Labelled(id2);
      var k := |l1| - |tail|;
      assert l1[k..] == id[|id| - |tail|..];
      assert l1 == l1[..k] + tail;
      assert n + [NUL] + (l1[..k] + tail) == (n + [NUL] + l1[..k]) + tail;
      assert n2 + tail == n2 + [NUL] + Labelled(id2);
      assert id[|id| - |tail|] == tail[0];
    }
  }

  lemma LongerSwallows(n: string, id: string, n2: string, id2: string)
    requires n + [NUL] + Labelled(id) == n2 + [NUL] + Labelled(id2) && |n| < |n2|
    ensures Swallows(n, id, n2, id2)
  {
    hide Digits;
    var l1, tail := Labelled(id), [NUL] + Labelled(id2);
    var joined, k, d := n + [NUL] + l1, |n2| - |n| - 1, |Digits(|id|)|;
    assert joined == n2 + tail;
    assert joined[..|n2|] == n2 && joined[|n2|..] == tail;
    assert joined[..|n2|] == n + [NUL] + l1[..k] && joined[|n2|..] == l1[k..];
    DigitsAreDigits(|id|);
    assert l1[k] == tail[0] == NUL;
    assert forall j :: 0 <= j < d + 1 ==> l1[j] == (Digits(|id|) + ":")[j] && l1[j] != NUL;
    assert l1[k..] == id[k - d - 1..];
  }

  // ---- the memo ---------------------------------------------------------------------------------------------

  // A call to the model: whether it is up, and in what order it answers.
  datatype Model = Model(up: bool, order: seq<Candidate> -> seq<Candidate>)

  type Scorer = (string, string, string) -> real

  // A score is determined by the normalised query, the id and the text.
  function ScoreOf(t: Text, scorer: Scorer, query: string, c: Candidate): real {
    scorer(t.normalise(query), c.id, c.text)
  }

  function ScoreAll(t: Text, scorer: Scorer, query: string, candidates: seq<Candidate>): seq<Score> {
    if candidates == [] then []
    else
      [Score(candidates[0].id, ScoreOf(t, scorer, query, candidates[0]))] + ScoreAll(t, scorer, query, candidates[1..])
  }

  function Uncached(t: Text, m: map<string, real>, query: string, candidates: seq<Candidate>): seq<Candidate> {
    if candidates == [] then []
    else
      var front, last := Uncached(t, m, query, candidates[..|candidates| - 1]), candidates[|candidates| - 1];
      if KeyFor(t, query, last) in m then front else front + [last]
  }

  function Find(candidates: seq<Candidate>, id: string): Option<Candidate> {
    if candidates == [] then None else if candidates[0].id == id then Some(candidates[0]) else Find(candidates[1..], id)
  }

  ghost predicate DistinctIds(candidates: seq<Candidate>) {
    forall i, j :: 0 <= i < |candidates| && 0 <= j < |candidates| && candidates[i].id == candidates[j].id ==> i == j
  }

  // The texts in play, whose hashes are told apart, and which side of the key is free of NULs.
  datatype Scope = Scope(texts: iset<string>, byIds: bool)

  ghost predicate InScope(t: Text, scope: Scope, query: string, c: Candidate) {
    c.text in scope.texts && if scope.byIds then Plain(c.id) else Plain(t.normalise(query))
  }

  ghost predicate Tells(t: Text, scope: Scope) {
    && (forall a :: a in scope.texts ==> Plain(t.hash(a)))
    && forall a, b :: a in scope.texts && b in scope.texts && t.hash(a) == t.hash(b) ==> a == b
  }

  // No cached score is wrong for any pair that could ask for it.
  ghost predicate CacheTrue(t: Text, scope: Scope, scorer: Scorer, m: map<string, real>) {
    forall q: string, c: Candidate {:trigger KeyFor(t, q, c)} ::
      InScope(t, scope, q, c) && KeyFor(t, q, c) in m ==> m[KeyFor(t, q, c)] == ScoreOf(t, scorer, q, c)
  }

  lemma SetKeepsTrue(t: Text, scope: Scope, scorer: Scorer, m: map<string, real>, after: map<string, real>,
                     query: string, c: Candidate)
    requires Tells(t, scope) && CacheTrue(t, scope, scorer, m) && InScope(t, scope, query, c)
    requires KeyFor(t, query, c) in after ==> after[KeyFor(t, query, c)] == ScoreOf(t, scorer, query, c)
    requires forall k :: k in after && k != KeyFor(t, query, c) ==> k in m && after[k] == m[k]
    ensures CacheTrue(t, scope, scorer, after)
  {
    hide KeyFor;
    forall q: string, d: Candidate | InScope(t, scope, q, d) && KeyFor(t, q, d) in after
      ensures after[KeyFor(t, q, d)] == ScoreOf(t, scorer, q, d)
    {
      if KeyFor(t, q, d) == KeyFor(t, query, c) { KeyTells(t, q, d, query, c); }
    }
  }

  function Members(s: seq<Candidate>): set<Candidate> { set c | c in s }

  // The scores gathered so far: those of the candidates in done, and no others.
  ghost predicate Gathered(t: Text, scorer: Scorer, query: string, out: map<string, real>, done: set<Candidate>) {
    && (forall c :: c in done ==> c.id in out && out[c.id] == ScoreOf(t, scorer, query, c))
    && forall id :: id in out ==> exists c :: c in done && c.id == id
  }

  lemma OneMoreGathered(t: Text, scorer: Scorer, query: string, out: map<string, real>, done: set<Candidate>,
                        c: Candidate)
    requires Gathered(t, scorer, query, out, done) && forall d :: d in done && d.id == c.id ==> d == c
    ensures Gathered(t, scorer, query, out[c.id := ScoreOf(t, scorer, query, c)], done + {c})
  {
  }

  lemma {:induction false} FindsItself(candidates: seq<Candidate>, c: Candidate)
    requires c in candidates && forall d :: d in candidates && d.id == c.id ==> d == c
    ensures Find(candidates, c.id) == Some(c)
  {
    if candidates[0].id != c.id {
      assert candidates == [candidates[0]] + candidates[1..];
      FindsItself(candidates[1..], c);
    }
  }

  lemma {:induction false} UncachedAre(t: Text, m: map<string, real>, query: string, candidates: seq<Candidate>)
    ensures forall c :: c in Uncached(t, m, query, candidates) <==> c in candidates && KeyFor(t, query, c) !in m
    ensures |Uncached(t, m, query, candidates)| <= |candidates|
  {
    hide KeyFor;
    if candidates != [] {
      var front := candidates[..|candidates| - 1];
      assert candidates == front + [candidates[|candidates| - 1]];
      UncachedAre(t, m, query, front);
    }
  }

  lemma UncachedStep(t: Text, m: map<string, real>, query: string, candidates: seq<Candidate>, i: nat)
    requires i < |candidates|
    ensures Uncached(t, m, query, candidates[..i + 1])
         == if KeyFor(t, query, candidates[i]) in m then Uncached(t, m, query, candidates[..i])
            else Uncached(t, m, query, candidates[..i]) + [candidates[i]]
  {
    hide KeyFor;
    assert candidates[..i + 1][..i] == candidates[..i];
  }

  class RerankMemo {
    const t: Text
    const scorer: Scorer
    const cache: Lru
    ghost const scope: Scope
    var hits: nat
    var misses: nat

    constructor (t: Text, scorer: Scorer, max: nat, ghost scope: Scope)
      requires Tells(t, scope)
      ensures this.t == t && this.scorer == scorer && this.scope == scope && fresh(cache) && cache.m == map[]
      ensures Valid() && hits == 0 && misses == 0
    {
      this.t, this.scorer, this.scope, hits, misses := t, scorer, scope, 0, 0;
      cache := new Lru(max);
    }

    ghost predicate Valid()
      reads this, cache
    {
      cache.Valid() && Tells(t, scope) && CacheTrue(t, scope, scorer, cache.m)
    }

    // The hits, in candidate order, and what is left to ask for.
    method Lookup(query: string, candidates: seq<Candidate>) returns (out: map<string, real>, missing: seq<Candidate>)
      requires Valid() && DistinctIds(candidates) && forall c :: c in candidates ==> InScope(t, scope, query, c)
      modifies this`hits, cache
      ensures Valid() && cache.m == old(cache.m)
      ensures missing == Uncached(t, cache.m, query, candidates) && hits == old(hits) + |candidates| - |missing|
      ensures Gathered(t, scorer, query, out, set c | c in candidates && c !in missing)
    {
      hide KeyFor, Uncached, Gathered, DistinctIds, InScope;
      out, missing := map[], [];
      ghost var done: set<Candidate> := {};
      NothingYet(t, scorer, cache.m, query, candidates);
      var i := 0;
      while i < |candidates|
        invariant 0 <= i <= |candidates| && Valid() && cache.m == old(cache.m)
        invariant missing == Uncached(t, cache.m, query, candidates[..i]) && hits == old(hits) + i - |missing|
        invariant Gathered(t, scorer, query, out, done) && done == set c | c in candidates[..i] && c !in missing
        invariant |missing| <= i
      {
        var c := candidates[i];
        UncachedStep(t, cache.m, query, candidates, i);
        LookupStep(t, cache.m, query, candidates, i);
        OnlyByItself(candidates, c);
        OneMoreGathered(t, scorer, query, out, done, c);
        var hit := cache.Get(KeyFor(t, query, c));
        if hit.None? {
          missing := missing + [c];
        } else {
          hits := hits + 1;
          TrueAt(t, scope, scorer, cache.m, query, c);
          out := out[c.id := hit.value];
          done := done + {c};
        }
        i := i + 1;
      }
      assert candidates[..|candidates|] == candidates;
    }

    // What the model answered, merged in and remembered; eviction may drop some of it again.
    method Remember(query: string, missing: seq<Candidate>, answer: seq<Candidate>, out0: map<string, real>,
                    ghost done: set<Candidate>)
      returns (out: map<string, real>)
      requires Valid() && multiset(answer) == multiset(missing)
      requires forall c :: c in missing ==> InScope(t, scope, query, c)
      requires forall c, d :: c in missing && (d in missing || d in done) && c.id == d.id ==> c == d
      requires Gathered(t, scorer, query, out0, done)
      modifies cache
      ensures Valid() && Gathered(t, scorer, query, out, done + Members(missing))
    {
      hide KeyFor, Gathered, InScope, Find;
      AnswerMembers(answer, missing);
      assert done + Members(answer[..0]) == done;
      out := out0;
      var i := 0;
      while i < |answer|
        invariant 0 <= i <= |answer| && Valid()
        invariant Gathered(t, scorer, query, out, done + Members(answer[..i]))
      {
        var s := Score(answer[i].id, ScoreOf(t, scorer, query, answer[i]));
        assert answer[..i + 1] == answer[..i] + [answer[i]];
        OneMoreGathered(t, scorer, query, out, done + Members(answer[..i]), answer[i]);
        out := out[s.id := s.score];
        assert done + Members(answer[..i + 1]) == done + Members(answer[..i]) + {answer[i]};
        FindsItself(missing, answer[i]);
        var cand := Find(missing, s.id);
        if cand.Some? {
          ghost var m := cache.m;
          cache.Set(KeyFor(t, query, cand.value), s.score);
          SetKeepsTrue(t, scope, scorer, m, cache.m, query, cand.value);
        }
        i := i + 1;
      }
      assert answer[..|answer|] == answer;
    }

    // One search's rerank. It answers what the model itself would, in candidate order, and asks the
    // model for nothing the cache already holds; a model that is down is passed through as such.
    method Rerank(query: string, candidates: seq<Candidate>, model: Model)
      returns (r: Option<seq<Score>>, asked: seq<Candidate>)
      requires Valid() && DistinctIds(candidates) && forall c :: c in candidates ==> InScope(t, scope, query, c)
      requires forall cs :: multiset(model.order(cs)) == multiset(cs)
      modifies this`hits, this`misses, cache
      ensures Valid()
      ensures asked == Uncached(t, old(cache.m), query, candidates)
      ensures r == if asked != [] && !model.up then None else Some(ScoreAll(t, scorer, query, candidates))
      ensures hits == old(hits) + |candidates| - |asked| && misses == old(misses) + |asked|
    {
      hide KeyFor, Gathered, InScope, Uncached, Tells, CacheTrue;
      var out, missing := Lookup(query, candidates);
      asked := missing;
      UncachedAre(t, old(cache.m), query, candidates);
      ghost var done := set c | c in candidates && c !in missing;
      assert missing == [] ==> done == Members(candidates);
      if |missing| > 0 {
        misses := misses + |missing|;
        if !model.up { return None, asked; }
        forall c, d | c in missing && (d in missing || d in done) && c.id == d.id ensures c == d {
          OnlyByItself(candidates, c);
        }
        out := Remember(query, missing, model.order(missing), out, done);
        assert done + Members(missing) == Members(candidates);
      }
      var scores := Merge(query, candidates, out);
      r := Some(scores);
    }

    // candidates.filter(…).map(…)
    method Merge(query: string, candidates: seq<Candidate>, out: map<string, real>) returns (scores: seq<Score>)
      requires Gathered(t, scorer, query, out, Members(candidates))
      ensures scores == ScoreAll(t, scorer, query, candidates)
    {
      scores := [];
      var i := 0;
      assert candidates[0..] == candidates;
      while i < |candidates|
        invariant 0 <= i <= |candidates|
        invariant scores + ScoreAll(t, scorer, query, candidates[i..]) == ScoreAll(t, scorer, query, candidates)
      {
        var c := candidates[i];
        assert candidates[i..][1..] == candidates[i + 1..];
        ScoreAllStep(t, scorer, query, candidates, i, scores);
        if c.id in out { scores := scores + [Score(c.id, out[c.id])]; }
        i := i + 1;
      }
      assert candidates[|candidates|..] == [] && scores + [] == scores;
    }
  }

  lemma AnswerMembers(answer: seq<Candidate>, missing: seq<Candidate>)
    requires multiset(answer) == multiset(missing)
    ensures (forall c :: c in answer <==> c in missing) && Members(answer) == Members(missing)
  {
    forall c ensures c in answer <==> c in missing { assert c in multiset(answer) <==> c in multiset(missing); }
  }

  lemma ScoreAllStep(t: Text, scorer: Scorer, query: string, candidates: seq<Candidate>, i: nat, scores: seq<Score>)
    requires i < |candidates|
    ensures var s := Score(candidates[i].id, ScoreOf(t, scorer, query, candidates[i]));
            scores + [s] + ScoreAll(t, scorer, query, candidates[i + 1..])
              == scores + ScoreAll(t, scorer, query, candidates[i..])
  {
    assert candidates[i..][0] == candidates[i] && candidates[i..][1..] == candidates[i + 1..];
  }

  lemma NothingYet(t: Text, scorer: Scorer, m: map<string, real>, query: string, candidates: seq<Candidate>)
    ensures Gathered(t, scorer, query, map[], {}) && Uncached(t, m, query, candidates[..0]) == []
  {
  }

  lemma TrueAt(t: Text, scope: Scope, scorer: Scorer, m: map<string, real>, query: string, c: Candidate)
    requires CacheTrue(t, scope, scorer, m) && InScope(t, scope, query, c) && KeyFor(t, query, c) in m
    ensures m[KeyFor(t, query, c)] == ScoreOf(t, scorer, query, c)
  {
  }

  lemma OnlyByItself(candidates: seq<Candidate>, c: Candidate)
    requires DistinctIds(candidates) && c in candidates
    ensures forall d :: d in candidates && d.id == c.id ==> d == c
  {
  }

  // How one step of the lookup moves the split between found and missing.
  lemma LookupStep(t: Text, m: map<string, real>, query: string, candidates: seq<Candidate>, i: nat)
    requires i < |candidates|
    ensures var c, before, after := candidates[i], Uncached(t, m, query, candidates[..i]),
            Uncached(t, m, query, candidates[..i + 1]);
            (set d | d in candidates[..i + 1] && d !in after)
            == (set d | d in candidates[..i] && d !in before) + if KeyFor(t, query, c) in m then {c} else {}
  {
    hide KeyFor, Uncached;
    UncachedAre(t, m, query, candidates[..i]);
    UncachedAre(t, m, query, candidates[..i + 1]);
    assert candidates[..i + 1] == candidates[..i] + [candidates[i]];
  }
}
