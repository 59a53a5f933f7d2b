// apps/updater/src/versions.ts: the canonical release order, ordinals over it,
// and the two directions between persisted version strings and ordinals.
module Versions {
  import opened Options
  import opened Semvers

  datatype Release = Release(version: string, imageDigest: string, channel: string, yanked: bool)

  datatype PersistedState = PersistedState(
    currentVersion: string,
    floorVersion: string,
    attempts: map<string, nat>,
    keptVersions: seq<string>,
    verifyDeferrals: map<string, nat>,
    honoredRestart: Option<int>,
    boxId: Option<string>,
    attempting: Option<string>)

  // ---- the order ------------------------------------------------------------

  function SemverOf(version: string): Semver {
    match Parse(version) case Some(v) => v case None => Semver(0, 0, 0, false)
  }

  // Code-point order stands for localeCompare, which only breaks ties between equal semvers.
  predicate StringLe(a: string, b: string) {
    a == [] || (b != [] && (a[0] < b[0] || (a[0] == b[0] && StringLe(a[1..], b[1..]))))
  }

  predicate InOrder(x: Release, y: Release) {
    var c := Compare(SemverOf(x.version), SemverOf(y.version));
    c < 0 || (c == 0 && StringLe(x.version, y.version))
  }

  lemma StringLeOrder(a: string, b: string, c: string)
    ensures StringLe(a, b) || StringLe(b, a)
    ensures StringLe(a, b) && StringLe(b, a) ==> a == b
    ensures StringLe(a, b) && StringLe(b, c) ==> StringLe(a, c)
  {
    if a != [] && b != [] {
      StringLeOrder(a[1..], b[1..], if c == [] then c else c[1..]);
      assert a == [a[0]] + a[1..] && b == [b[0]] + b[1..];
    }
  }

  lemma InOrderOrder(x: Release, y: Release, z: Release)
    ensures InOrder(x, y) || InOrder(y, x)
    ensures InOrder(x, y) && InOrder(y, x) ==> x.version == y.version
    ensures InOrder(x, y) && InOrder(y, z) ==> InOrder(x, z)
  {
    StringLeOrder(x.version, y.version, z.version);
    if InOrder(x, y) && InOrder(y, z) {
      CompareTransitive(SemverOf(x.version), SemverOf(y.version), SemverOf(z.version));
    }
  }

  ghost predicate Sorted(s: seq<Release>) {
    forall i, j :: 0 <= i < j < |s| ==> InOrder(s[i], s[j])
  }

  // A stable sort, as Array.prototype.sort is: later elements go after equal earlier ones.
  function Insert(s: seq<Release>, x: Release): (r: seq<Release>)
    ensures multiset(r) == multiset(s) + multiset{x}
  {
    hide InOrder;
    if s == [] || InOrder(s[|s| - 1], x) then s + [x]
    else
      assert s == s[..|s| - 1] + [s[|s| - 1]];
      Insert(s[..|s| - 1], x) + [s[|s| - 1]]
  }

  function Sort(s: seq<Release>): (r: seq<Release>)
    ensures multiset(r) == multiset(s)
  {
    if s == [] then []
    else
      assert s == s[..|s| - 1] + [s[|s| - 1]];
      Insert(Sort(s[..|s| - 1]), s[|s| - 1])
  }

  lemma {:induction false} InsertSorted(s: seq<Release>, x: Release)
    requires Sorted(s)
    ensures Sorted(Insert(s, x))
  {
    hide InOrder;
    if s == [] {
    } else if InOrder(s[|s| - 1], x) {
      forall i | 0 <= i < |s| ensures InOrder(s[i], x) { InOrderOrder(s[i], s[|s| - 1], x); }
    } else {
      var front, last := s[..|s| - 1], s[|s| - 1];
      InsertSorted(front, x);
      var r := Insert(front, x);
      forall i | 0 <= i < |r| ensures InOrder(r[i], last) {
        assert r[i] in multiset(r);
        InOrderOrder(last, x, x);
      }
    }
  }

  lemma {:induction false} SortSorted(s: seq<Release>)
    ensures Sorted(Sort(s))
  {
    if s != [] {
      SortSorted(s[..|s| - 1]);
      InsertSorted(Sort(s[..|s| - 1]), s[|s| - 1]);
    }
  }

  // Entries with one version string are the only ones a tie-break cannot separate.
  ghost predicate Unambiguous(s: seq<Release>) {
    forall x, y :: x in s && y in s && x.version == y.version ==> x == y
  }

  lemma SortedHead(s: seq<Release>, x: Release)
    requires Sorted(s) && x in s
    ensures InOrder(s[0], x)
  {
    InOrderOrder(x, x, x);
  }

  lemma TailMultiset<T>(s: seq<T>)
    requires s != []
    ensures multiset(s[1..]) == multiset(s) - multiset{s[0]}
  {
    assert s == [s[0]] + s[1..];
  }

  lemma {:induction false} SortedPermutationUnique(s: seq<Release>, t: seq<Release>)
    requires Sorted(s) && Sorted(t) && multiset(s) == multiset(t) && Unambiguous(s)
    ensures s == t
  {
    hide InOrder;
    assert |multiset(s)| == |s| && |multiset(t)| == |t|;
    if s != [] {
      var x, y := s[0], t[0];
      assert y in multiset(s) && x in multiset(t);
      SortedHead(s, y);
      SortedHead(t, x);
      InOrderOrder(x, y, x);
      TailMultiset(s);
      TailMultiset(t);
      SortedPermutationUnique(s[1..], t[1..]);
      assert s == [x] + s[1..] && t == [y] + t[1..];
    }
  }

  // ---- canonicalOrder ---------------------------------------------------------

  predicate Steppable(r: Release, currentVersion: string) {
    (!r.yanked || r.version == currentVersion) && Parse(r.version).Some?
  }

  function SteppableOf(releases: seq<Release>, currentVersion: string): (r: seq<Release>)
    ensures forall x :: x in r <==> x in releases && Steppable(x, currentVersion)
  {
    if releases == [] then []
    else
      var front, last := releases[..|releases| - 1], releases[|releases| - 1];
      assert releases == front + [last];
      SteppableOf(front, currentVersion) + (if Steppable(last, currentVersion) then [last] else [])
  }

  function Canonical(releases: seq<Release>, currentVersion: string): Option<seq<Release>> {
    if Parse(currentVersion).None? then None else Some(Sort(SteppableOf(releases, currentVersion)))
  }

  method CanonicalOrder(releases: seq<Release>, currentVersion: string)
    returns (r: Option<seq<Release>>)
    ensures r == Canonical(releases, currentVersion)
  {
    if Parse(currentVersion).None? { return None; }
    var decorated: seq<Release> := [];
    var i := 0;
    while i < |releases|
      invariant 0 <= i <= |releases|
      invariant decorated == SteppableOf(releases[..i], currentVersion)
    {
      assert releases[..i + 1][..i] == releases[..i];
      if Steppable(releases[i], currentVersion) {
        decorated := decorated + [releases[i]];
      }
      i := i + 1;
    }
    assert releases[..i] == releases;
    return Some(Sort(decorated));
  }

  lemma {:induction false} SteppableOfConcat(a: seq<Release>, b: seq<Release>, c: string)
    ensures SteppableOf(a + b, c) == SteppableOf(a, c) + SteppableOf(b, c)
  {
    if b == [] {
      assert a + b == a;
    } else {
      assert (a + b)[..|a + b| - 1] == a + b[..|b| - 1];
      SteppableOfConcat(a, b[..|b| - 1], c);
    }
  }

  lemma {:induction false} SteppableMultiset(s: seq<Release>, c: string, x: Release)
    ensures multiset(SteppableOf(s, c))[x] == if Steppable(x, c) then multiset(s)[x] else 0
  {
    if s != [] {
      SteppableMultiset(s[..|s| - 1], c, x);
      assert s == s[..|s| - 1] + [s[|s| - 1]];
    }
  }

  // What stability keeps: the entries sharing one version string stay in feed order.
  function OfVersion(s: seq<Release>, v: string): seq<Release> {
    if s == [] then []
    else OfVersion(s[..|s| - 1], v) + (if s[|s| - 1].version == v then [s[|s| - 1]] else [])
  }

  lemma {:induction false} OfVersionConcat(a: seq<Release>, b: seq<Release>, v: string)
    ensures OfVersion(a + b, v) == OfVersion(a, v) + OfVersion(b, v)
  {
    if b == [] {
      assert a + b == a;
    } else {
      assert (a + b)[..|a + b| - 1] == a + b[..|b| - 1];
      OfVersionConcat(a, b[..|b| - 1], v);
    }
  }

  lemma OfVersionOne(x: Release, v: string)
    ensures OfVersion([x], v) == if x.version == v then [x] else []
  {
    assert [x][..0] == [];
  }

  lemma {:induction false} InsertStable(s: seq<Release>, x: Release, v: string)
    ensures OfVersion(Insert(s, x), v) == OfVersion(s, v) + OfVersion([x], v)
  {
    hide InOrder, OfVersion;
    if s == [] || InOrder(s[|s| - 1], x) {
      OfVersionConcat(s, [x], v);
    } else {
      var front, last := s[..|s| - 1], s[|s| - 1];
      InsertStable(front, x, v);
      OfVersionConcat(Insert(front, x), [last], v);
      OfVersionConcat(front, [last], v);
      assert s == front + [last];
      SameVersionInOrder(last, x);
      OfVersionOne(x, v);
      OfVersionOne(last, v);
    }
  }

  lemma SameVersionInOrder(x: Release, y: Release)
    ensures x.version == y.version ==> InOrder(x, y)
  {
    InOrderOrder(x, x, x);
  }

  lemma {:induction false} SortStable(s: seq<Release>, v: string)
    ensures OfVersion(Sort(s), v) == OfVersion(s, v)
  {
    if s != [] {
      var front, last := s[..|s| - 1], s[|s| - 1];
      SortStable(front, v);
      InsertStable(Sort(front), last, v);
      OfVersionConcat(Sort(front), [last], v);
    }
  }

  ghost predicate FeedOrderIrrelevant(releases: seq<Release>, c: string) {
    forall g: seq<Release> :: multiset(g) == multiset(releases) ==> Canonical(g, c) == Canonical(releases, c)
  }

  lemma SwappedFeedDiffers(a: seq<Release>, x: Release, b: seq<Release>, y: Release, d: seq<Release>, c: string)
    requires Parse(c).Some? && Steppable(x, c) && Steppable(y, c) && x.version == y.version && x != y
    ensures Canonical(a + [x] + b + [y] + d, c) != Canonical(a + [y] + b + [x] + d, c)
  {
    var v := x.version;
    forall p: Release, q: Release | p.version == v && q.version == v && Steppable(p, c) && Steppable(q, c)
      ensures OfVersion(Sort(SteppableOf(a + [p] + b + [q] + d, c)), v)
           == OfVersion(SteppableOf(a, c), v) + [p] + OfVersion(SteppableOf(b, c), v) + [q]
            + OfVersion(SteppableOf(d, c), v)
    {
      SteppableOfConcat(a + [p] + b + [q], d, c);
      SteppableOfConcat(a + [p] + b, [q], c);
      SteppableOfConcat(a + [p], b, c);
      SteppableOfConcat(a, [p], c);
      var sa, sb, sd := SteppableOf(a, c), SteppableOf(b, c), SteppableOf(d, c);
      assert SteppableOf([p], c) == [p] && SteppableOf([q], c) == [q];
      SortStable(sa + [p] + sb + [q] + sd, v);
      OfVersionConcat(sa + [p] + sb + [q], sd, v);
      OfVersionConcat(sa + [p] + sb, [q], v);
      OfVersionConcat(sa + [p], sb, v);
      OfVersionConcat(sa, [p], v);
      assert OfVersion([p], v) == [p] && OfVersion([q], v) == [q];
    }
    var n := |OfVersion(SteppableOf(a, c), v)|;
    assert OfVersion(Sort(SteppableOf(a + [x] + b + [y] + d, c)), v)[n] == x;
    assert OfVersion(Sort(SteppableOf(a + [y] + b + [x] + d, c)), v)[n] == y;
  }

  lemma UnambiguousSuffices(releases: seq<Release>, g: seq<Release>, c: string)
    requires Parse(c).Some? && Unambiguous(SteppableOf(releases, c)) && multiset(g) == multiset(releases)
    ensures Canonical(g, c) == Canonical(releases, c)
  {
    hide Sort, SteppableOf, Steppable, InOrder, Parse;
    var s, t := SteppableOf(releases, c), SteppableOf(g, c);
    forall x ensures multiset(t)[x] == multiset(s)[x] {
      SteppableMultiset(g, c, x);
      SteppableMultiset(releases, c, x);
    }
    assert multiset(t) == multiset(s);
    SortSorted(s);
    SortSorted(t);
    forall x | x in Sort(s) ensures x in s { assert x in multiset(Sort(s)); }
    SortedPermutationUnique(Sort(s), Sort(t));
  }

  lemma SplitAround<T>(s: seq<T>, x: T, y: T) returns (a: seq<T>, p: T, b: seq<T>, q: T, d: seq<T>)
    requires x in s && y in s && x != y
    ensures s == a + [p] + b + [q] + d
    ensures (p == x && q == y) || (p == y && q == x)
  {
    var i :| 0 <= i < |s| && s[i] == x;
    var j :| 0 <= j < |s| && s[j] == y;
    var lo, hi := if i < j then i else j, if i < j then j else i;
    a, p, b, q, d := s[..lo], s[lo], s[lo + 1..hi], s[hi], s[hi + 1..];
  }

  lemma AmbiguousMatters(releases: seq<Release>, c: string) returns (g: seq<Release>)
    requires Parse(c).Some? && !Unambiguous(SteppableOf(releases, c))
    ensures multiset(g) == multiset(releases) && Canonical(g, c) != Canonical(releases, c)
  {
    hide Canonical, Steppable, Parse;
    var s := SteppableOf(releases, c);
    var x, y :| x in s && y in s && x.version == y.version && x != y;
    var a, p, b, q, d := SplitAround(releases, x, y);
    g := a + [q] + b + [p] + d;
    SwappedFeedDiffers(a, p, b, q, d, c);
  }

  // The booth's list position is powerless exactly when no two steppable entries
  // carry one version string with different contents.
  lemma FeedOrderIrrelevantIff(releases: seq<Release>, c: string)
    requires Parse(c).Some?
    ensures FeedOrderIrrelevant(releases, c) <==> Unambiguous(SteppableOf(releases, c))
  {
    hide Canonical, SteppableOf, Parse, Unambiguous;
    if Unambiguous(SteppableOf(releases, c)) {
      forall g: seq<Release> | multiset(g) == multiset(releases) { UnambiguousSuffices(releases, g, c); }
    } else {
      var g := AmbiguousMatters(releases, c);
    }
  }

  // ---- ordinals ---------------------------------------------------------------

  // 1-based, the first match, as findIndex + 1.
  function OrdinalOf(canonical: seq<Release>, version: string): (r: Option<nat>)
    ensures r.Some? ==> 1 <= r.value <= |canonical| && canonical[r.value - 1].version == version
    ensures r.None? ==> forall i :: 0 <= i < |canonical| ==> canonical[i].version != version
  {
    if canonical == [] then None
    else
      var front := canonical[..|canonical| - 1];
      match OrdinalOf(front, version)
      case Some(n) => Some(n)
      case None => if canonical[|canonical| - 1].version == version then Some(|canonical|) else None
  }

  // The rungs of a list without ties: each one strictly above the one before.
  ghost predicate Ladder(canonical: seq<Release>) {
    && (forall i :: 0 <= i < |canonical| ==> Parse(canonical[i].version).Some?)
    && forall i, j :: 0 <= i < j < |canonical| ==> IsBelow(canonical[i].version, canonical[j].version)
  }

  // No two entries tie: what the run theorems assume of the feed.
  ghost predicate Untied(s: seq<Release>) {
    && (forall x :: x in s ==> multiset(s)[x] == 1)
    && forall x, y :: x in s && y in s && x != y ==> SemverOf(x.version) != SemverOf(y.version)
  }

  lemma TwicePresent<T>(s: seq<T>, i: nat, j: nat)
    requires i < j < |s| && s[i] == s[j]
    ensures multiset(s)[s[i]] >= 2
  {
    assert s == s[..j] + [s[j]] + s[j + 1..];
    assert s[..j][i] in multiset(s[..j]);
  }

  lemma CompareZero(a: Semver, b: Semver)
    requires Compare(a, b) == 0
    ensures a == b
  {
  }

  lemma SortedUntiedIsLadder(r: seq<Release>)
    requires Sorted(r) && Untied(r) && forall x :: x in r ==> Parse(x.version).Some?
    ensures Ladder(r)
  {
    hide Parse;
    forall i, j | 0 <= i < j < |r| ensures IsBelow(r[i].version, r[j].version) {
      if r[i] == r[j] { TwicePresent(r, i, j); }
      assert InOrder(r[i], r[j]);
      if Compare(SemverOf(r[i].version), SemverOf(r[j].version)) == 0 {
        CompareZero(SemverOf(r[i].version), SemverOf(r[j].version));
      }
    }
  }

  lemma CanonicalIsLadder(releases: seq<Release>, c: string)
    requires Parse(c).Some? && Untied(SteppableOf(releases, c))
    ensures Ladder(Canonical(releases, c).value)
    ensures forall r :: r in Canonical(releases, c).value <==> r in releases && Steppable(r, c)
  {
    hide Sort, SteppableOf, Parse, InOrder, SemverOf;
    var s := SteppableOf(releases, c);
    var r := Sort(s);
    SortSorted(s);
    forall x ensures x in r <==> x in s { assert x in multiset(r) <==> x in multiset(s); }
    SortedUntiedIsLadder(r);
  }

  lemma LadderOrdinal(canonical: seq<Release>, i: nat)
    requires Ladder(canonical) && i < |canonical|
    ensures OrdinalOf(canonical, canonical[i].version) == Some(i + 1)
  {
    hide OrdinalOf, Parse, Compare, IsBelow;
    forall j | 0 <= j < |canonical| && j != i ensures canonical[j].version != canonical[i].version {
      var lo, hi := if i < j then i else j, if i < j then j else i;
      assert IsBelow(canonical[lo].version, canonical[hi].version);
      BelowIrreflexive(canonical[i].version);
    }
  }

  lemma BelowIrreflexive(v: string)
    ensures !IsBelow(v, v)
  {
  }
}
