// packages/mcp-tools/src/query-ast.ts, reader.ts: keyset pages over (sort column, id).
module Keyset {
  import opened Options

  // A row's sort value and id, each as its rank in the database's own order of them.
  datatype Row = Row(sort: Option<int>, id: int)
  datatype Dir = Asc | Desc
  datatype Cursor = Cursor(v: Option<int>, id: int)

  // What JSON makes of a sort value: itself, a lesser one (a timestamp loses what is below a
  // millisecond), or null (an infinity).
  type Encoding = int -> Option<int>

  predicate Less(a: Row, b: Row) {
    match (a.sort, b.sort)
    case (Some(x), Some(y)) => x < y || (x == y && a.id < b.id)
    case (Some(_), None) => true
    case (None, Some(_)) => false
    case (None, None) => a.id < b.id
  }

  // ORDER BY sort, id with one direction for both; nulls last ascending, first descending.
  predicate Before(dir: Dir, a: Row, b: Row) { if dir.Asc? then Less(a, b) else Less(b, a) }

  // (sort, id) > (v, id), or < descending: a null on either side makes it unknown, which is no match.
  predicate After(dir: Dir, c: Cursor, r: Row) {
    && c.v.Some? && r.sort.Some?
    && if dir.Asc? then r.sort.value > c.v.value || (r.sort.value == c.v.value && r.id > c.id)
       else r.sort.value < c.v.value || (r.sort.value == c.v.value && r.id < c.id)
  }

  predicate Matches(dir: Dir, cursor: Option<Cursor>, r: Row) { cursor.Some? ==> After(dir, cursor.value, r) }

  ghost predicate UniqueIds(table: seq<Row>) {
    forall i, j :: 0 <= i < j < |table| ==> table[i].id != table[j].id
  }

  ghost predicate Sorted(dir: Dir, s: seq<Row>) {
    forall i, j :: 0 <= i < j < |s| ==> Before(dir, s[i], s[j])
  }

  // ---- the database's part ------------------------------------------------------------------

  function Insert(dir: Dir, r: Row, s: seq<Row>): seq<Row> {
    if s == [] then [r] else if Before(dir, r, s[0]) then [r] + s else [s[0]] + Insert(dir, r, s[1..])
  }

  function Ordered(dir: Dir, table: seq<Row>): seq<Row> {
    if table == [] then [] else Insert(dir, table[0], Ordered(dir, table[1..]))
  }

  function Select(dir: Dir, cursor: Option<Cursor>, table: seq<Row>): seq<Row> {
    if table == [] then []
    else if Matches(dir, cursor, table[0]) then [table[0]] + Select(dir, cursor, table[1..])
    else Select(dir, cursor, table[1..])
  }

  function Query(dir: Dir, cursor: Option<Cursor>, table: seq<Row>, limit: nat): seq<Row> {
    var found := Ordered(dir, Select(dir, cursor, table));
    if |found| <= limit then found else found[..limit]
  }

  // ---- the order ------------------------------------------------------------------------------

  lemma {:induction false} InsertKeeps(dir: Dir, r: Row, s: seq<Row>)
    requires Sorted(dir, s) && forall x :: x in s ==> x.id != r.id
    ensures Sorted(dir, Insert(dir, r, s)) && multiset(Insert(dir, r, s)) == multiset([r] + s)
  {
    if s != [] && !Before(dir, r, s[0]) {
      var rest := s[1..];
      assert s == [s[0]] + rest;
      TailSorted(dir, s);
      InsertKeeps(dir, r, rest);
      InsertMembers(dir, r, rest);
      ConsSorted(dir, s[0], Insert(dir, r, rest));
    } else if s != [] {
      ConsSorted(dir, r, s);
    }
  }

  lemma TailSorted(dir: Dir, s: seq<Row>)
    requires s != [] && Sorted(dir, s)
    ensures Sorted(dir, s[1..]) && forall x :: x in s[1..] ==> Before(dir, s[0], x)
  {
    forall x | x in s[1..] ensures Before(dir, s[0], x) {
      var i :| 0 <= i < |s[1..]| && s[1..][i] == x;
      assert s[i + 1] == x;
    }
    assert forall i :: 0 <= i < |s| - 1 ==> s[1..][i] == s[i + 1];
  }

  lemma ConsSorted(dir: Dir, r: Row, s: seq<Row>)
    requires Sorted(dir, s) && (s != [] ==> Before(dir, r, s[0]))
    ensures Sorted(dir, [r] + s)
  {
    var t := [r] + s;
    forall i, j | 0 <= i < j < |t| ensures Before(dir, t[i], t[j]) {
      if i == 0 && j > 1 { assert t[j] == s[j - 1] && Before(dir, s[0], s[j - 1]); }
      else if i > 0 { assert t[i] == s[i - 1] && t[j] == s[j - 1]; }
    }
  }

  lemma {:induction false} InsertMembers(dir: Dir, r: Row, s: seq<Row>)
    ensures forall x :: x in Insert(dir, r, s) <==> x == r || x in s
    ensures Insert(dir, r, s)[0] == r || (s != [] && Insert(dir, r, s)[0] == s[0])
  {
    if s != [] && !Before(dir, r, s[0]) {
      assert s == [s[0]] + s[1..];
      InsertMembers(dir, r, s[1..]);
    }
  }

  // The order of a result: sorted, and every row exactly as often as the table holds it.
  lemma {:induction false} OrderedIs(dir: Dir, table: seq<Row>)
    requires UniqueIds(table)
    ensures Sorted(dir, Ordered(dir, table)) && multiset(Ordered(dir, table)) == multiset(table)
    ensures |Ordered(dir, table)| == |table|
  {
    if table != [] {
      var rest := table[1..];
      assert table == [table[0]] + rest;
      assert forall i :: 0 <= i < |rest| ==> rest[i] == table[i + 1];
      OrderedIs(dir, rest);
      SameMembers(Ordered(dir, rest), rest);
      InsertKeeps(dir, table[0], Ordered(dir, rest));
      assert multiset(Ordered(dir, table)) == multiset([table[0]] + rest);
      SameSize(Ordered(dir, table), table);
    }
  }

  lemma SameMembers(a: seq<Row>, b: seq<Row>)
    requires multiset(a) == multiset(b)
    ensures forall x :: x in a <==> x in b
  {
    forall x ensures x in a <==> x in b { assert x in multiset(a) <==> x in multiset(b); }
  }

  lemma SameSize(a: seq<Row>, b: seq<Row>)
    requires multiset(a) == multiset(b)
    ensures |a| == |b|
  {
    assert |multiset(a)| == |a| && |multiset(b)| == |b|;
  }

  // ---- selecting from the sorted result --------------------------------------------------------

  lemma {:induction false} SelectKeeps(dir: Dir, cursor: Option<Cursor>, s: seq<Row>)
    ensures forall x :: x in Select(dir, cursor, s) <==> x in s && Matches(dir, cursor, x)
  {
    if s != [] {
      assert s == [s[0]] + s[1..];
      SelectKeeps(dir, cursor, s[1..]);
    }
  }

  lemma {:induction false} SelectOfInsert(dir: Dir, cursor: Option<Cursor>, r: Row, s: seq<Row>)
    requires Sorted(dir, s)
    ensures Select(dir, cursor, Insert(dir, r, s))
         == if Matches(dir, cursor, r) then Insert(dir, r, Select(dir, cursor, s)) else Select(dir, cursor, s)
  {
    hide Matches;
    if s == [] {
      assert [r][1..] == [];
    } else if Before(dir, r, s[0]) {
      assert ([r] + s)[1..] == s;
      SelectKeeps(dir, cursor, s);
      FirstStaysFirst(dir, r, s, Select(dir, cursor, s));
    } else {
      TailSorted(dir, s);
      var rest := s[1..];
      SelectOfInsert(dir, cursor, r, rest);
      assert ([s[0]] + Insert(dir, r, rest))[1..] == Insert(dir, r, rest);
      if Matches(dir, cursor, s[0]) { assert ([s[0]] + Select(dir, cursor, rest))[1..] == Select(dir, cursor, rest); }
    }
  }

  lemma FirstStaysFirst(dir: Dir, r: Row, s: seq<Row>, some: seq<Row>)
    requires Sorted(dir, s) && s != [] && Before(dir, r, s[0]) && forall x :: x in some ==> x in s
    ensures Insert(dir, r, some) == [r] + some
  {
    if some != [] {
      assert some[0] in s;
      var i :| 0 <= i < |s| && s[i] == some[0];
      assert i > 0 ==> Before(dir, s[0], s[i]);
    }
  }

  // Sorting what matches is the matching part of the sorted table.
  lemma {:induction false} SelectThenOrder(dir: Dir, cursor: Option<Cursor>, table: seq<Row>)
    requires UniqueIds(table)
    ensures Ordered(dir, Select(dir, cursor, table)) == Select(dir, cursor, Ordered(dir, table))
  {
    hide Matches;
    if table != [] {
      var rest := table[1..];
      assert forall i :: 0 <= i < |rest| ==> rest[i] == table[i + 1];
      SelectThenOrder(dir, cursor, rest);
      OrderedIs(dir, rest);
      SelectOfInsert(dir, cursor, table[0], Ordered(dir, rest));
      if Matches(dir, cursor, table[0]) {
        assert ([table[0]] + Select(dir, cursor, rest))[1..] == Select(dir, cursor, rest);
      }
    }
  }

  lemma {:induction false} SelectRange(dir: Dir, cursor: Option<Cursor>, s: seq<Row>, lo: nat, hi: nat)
    requires lo <= hi <= |s| && forall i :: 0 <= i < |s| ==> (Matches(dir, cursor, s[i]) <==> lo <= i < hi)
    ensures Select(dir, cursor, s) == s[lo..hi]
  {
    hide Matches;
    if s != [] {
      var rest := s[1..];
      assert forall i :: 0 <= i < |rest| ==> rest[i] == s[i + 1];
      if lo > 0 {
        SelectRange(dir, cursor, rest, lo - 1, hi - 1);
        assert rest[lo - 1..hi - 1] == s[lo..hi];
      } else if hi > 0 {
        SelectRange(dir, cursor, rest, 0, hi - 1);
        assert [s[0]] + rest[..hi - 1] == s[..hi];
      } else {
        SelectRange(dir, cursor, rest, 0, 0);
      }
    }
  }

  // ---- nulls -----------------------------------------------------------------------------------

  function FirstNull(s: seq<Row>): (n: nat)
    ensures n <= |s| && (n < |s| ==> s[n].sort.None?) && forall i :: 0 <= i < n ==> s[i].sort.Some?
  {
    if s == [] || s[0].sort.None? then 0 else 1 + FirstNull(s[1..])
  }

  // How far pages past a non-null cursor can reach into the sorted table.
  function Reach(dir: Dir, s: seq<Row>): (n: nat)
    ensures n <= |s|
  {
    if dir.Asc? then FirstNull(s) else |s|
  }

  function CursorAt(enc: Encoding, r: Row): Cursor {
    Cursor(match r.sort case None => None case Some(v) => enc(v), r.id)
  }

  // Where the rows behind a cursor begin in the sorted table.
  function Start(dir: Dir, c: Cursor, s: seq<Row>): (n: nat)
    ensures n <= |s|
  {
    if s == [] || After(dir, c, s[0]) then 0 else 1 + Start(dir, c, s[1..])
  }

  lemma {:induction false} StartIs(dir: Dir, c: Cursor, s: seq<Row>)
    ensures Start(dir, c, s) < |s| ==> After(dir, c, s[Start(dir, c, s)])
    ensures forall i :: 0 <= i < Start(dir, c, s) ==> !After(dir, c, s[i])
  {
    hide After;
    if s != [] && !After(dir, c, s[0]) {
      StartIs(dir, c, s[1..]);
      forall i | 0 < i < Start(dir, c, s) ensures !After(dir, c, s[i]) { assert s[i] == s[1..][i - 1]; }
    }
  }

  // Behind a row that matches, every row within reach matches.
  lemma AfterStays(dir: Dir, c: Cursor, s: seq<Row>, i: nat, k: nat)
    requires Sorted(dir, s) && i < k < |s| && After(dir, c, s[i])
    ensures After(dir, c, s[k]) <==> k < Reach(dir, s)
  {
    var n := FirstNull(s);
    assert Before(dir, s[i], s[k]);
    if dir.Asc? && n < k { assert Before(dir, s[n], s[k]); }
  }

  // What a page asks for: the sorted rows from the cursor's start to the reach.
  lemma RowsBehind(dir: Dir, c: Cursor, s: seq<Row>)
    requires Sorted(dir, s)
    ensures Select(dir, Some(c), s)
         == if Start(dir, c, s) < Reach(dir, s) then s[Start(dir, c, s)..Reach(dir, s)] else []
  {
    hide After, Reach;
    var n := Start(dir, c, s);
    StartIs(dir, c, s);
    forall i | n <= i < |s|
      ensures Matches(dir, Some(c), s[i]) <==> i < Reach(dir, s)
    {
      if i > n { AfterStays(dir, c, s, n, i); } else { MatchIsWithinReach(dir, c, s, i); }
    }
    if n < Reach(dir, s) {
      SelectRange(dir, Some(c), s, n, Reach(dir, s));
    } else {
      SelectRange(dir, Some(c), s, 0, 0);
    }
  }

  lemma MatchIsWithinReach(dir: Dir, c: Cursor, s: seq<Row>, i: nat)
    requires Sorted(dir, s) && i < |s|
    ensures After(dir, c, s[i]) ==> i < Reach(dir, s)
  {
    var n := FirstNull(s);
    if dir.Asc? && n < i { assert Before(dir, s[n], s[i]); }
  }

  // An exact cursor at row k matches everything behind it up to the reach.
  lemma MatchesAfter(dir: Dir, s: seq<Row>, k: nat, i: nat)
    requires Sorted(dir, s) && k < |s| && i < |s| && s[k].sort.Some?
    ensures After(dir, Cursor(s[k].sort, s[k].id), s[i]) <==> k + 1 <= i < Reach(dir, s)
  {
    var n := FirstNull(s);
    if i < k { assert Before(dir, s[i], s[k]); }
    if k < i { assert Before(dir, s[k], s[i]); }
    if dir.Asc? && n < i { assert Before(dir, s[n], s[i]); }
  }

  // The page behind row k, whatever became of its sort value on the way: it is the rest of the
  // sorted table, up to the reach, exactly when the cursor continues at the next row.
  lemma PageAfter(dir: Dir, enc: Encoding, table: seq<Row>, k: nat)
    requires UniqueIds(table) && k + 1 < |table|
    ensures |Ordered(dir, table)| == |table|
    ensures var s := Ordered(dir, table);
            var c := CursorAt(enc, s[k]);
            var found := Ordered(dir, Select(dir, Some(c), table));
            && found == (if Start(dir, c, s) < Reach(dir, s) then s[Start(dir, c, s)..Reach(dir, s)] else [])
            && (k + 1 < Reach(dir, s) ==> (found == s[k + 1..Reach(dir, s)] <==> Continues(dir, enc, s, k)))
  {
    hide Ordered, Select, After, Reach, Continues;
    OrderedIs(dir, table);
    var s := Ordered(dir, table);
    var c := CursorAt(enc, s[k]);
    BehindCursor(dir, table, c);
    RowsBehind(dir, c, s);
    ContinuesIsStart(dir, enc, s, k);
    var m := Start(dir, c, s);
    if k + 1 < Reach(dir, s) && m < Reach(dir, s) && s[m..Reach(dir, s)] == s[k + 1..Reach(dir, s)] {
      assert |s[m..Reach(dir, s)]| == |s[k + 1..Reach(dir, s)]|;
    }
  }

  lemma BehindCursor(dir: Dir, table: seq<Row>, c: Cursor)
    requires UniqueIds(table)
    ensures var s := Ordered(dir, table);
            Ordered(dir, Select(dir, Some(c), table)) == Select(dir, Some(c), s) && Sorted(dir, s)
  {
    SelectThenOrder(dir, Some(c), table);
    OrderedIs(dir, table);
  }

  // The cursor of row k continues at row k + 1: it leaves its own row behind and matches the next.
  predicate Continues(dir: Dir, enc: Encoding, s: seq<Row>, k: nat)
    requires k + 1 < |s|
  {
    var c := CursorAt(enc, s[k]);
    !After(dir, c, s[k]) && After(dir, c, s[k + 1])
  }

  lemma {:induction false} ContinuesIsStart(dir: Dir, enc: Encoding, s: seq<Row>, k: nat)
    requires Sorted(dir, s) && k + 1 < |s|
    ensures Continues(dir, enc, s, k) <==> Start(dir, CursorAt(enc, s[k]), s) == k + 1
  {
    hide After, Reach;
    var c := CursorAt(enc, s[k]);
    StartIs(dir, c, s);
    if Continues(dir, enc, s, k) {
      var n := Start(dir, c, s);
      if n < k {
        AfterStays(dir, c, s, n, k);
        AfterStays(dir, c, s, n, k + 1);
      }
    }
  }

  // When that is: ascending, exactly when the row's sort value survives the encoding; descending,
  // also when no row lies between what survives and the value itself.
  lemma ContinuesIff(dir: Dir, enc: Encoding, s: seq<Row>, k: nat)
    requires Sorted(dir, s) && k + 1 < |s| && s[k].sort.Some? && s[k + 1].sort.Some?
    requires enc(s[k].sort.value).Some? ==> enc(s[k].sort.value).value <= s[k].sort.value
    ensures dir.Asc? ==> (Continues(dir, enc, s, k) <==> enc(s[k].sort.value) == s[k].sort)
    ensures dir.Desc? ==>
              (Continues(dir, enc, s, k) <==>
                && enc(s[k].sort.value).Some?
                && var v := enc(s[k].sort.value).value;
                   s[k + 1].sort.value < v || (s[k + 1].sort.value == v && s[k + 1].id < s[k].id))
    ensures enc(s[k].sort.value) == s[k].sort ==> Continues(dir, enc, s, k)
  {
    assert Before(dir, s[k], s[k + 1]);
  }

  lemma {:induction false} SelectAll(dir: Dir, table: seq<Row>)
    ensures Select(dir, None, table) == table
  {
    if table != [] { SelectAll(dir, table[1..]); }
  }

  // ---- the pages ----------------------------------------------------------------------------------

  // One list call: ask for one row more than the page to learn whether there is a next.
  method Page(dir: Dir, enc: Encoding, table: seq<Row>, cursor: Option<Cursor>, limit: nat)
    returns (items: seq<Row>, next: Option<Cursor>)
    requires limit >= 1
    ensures var found := Ordered(dir, Select(dir, cursor, table));
            if |found| > limit then items == found[..limit] && next == Some(CursorAt(enc, found[limit - 1]))
            else items == found && next == None
  {
    var rows := Query(dir, cursor, table, limit + 1);
    next := None;
    if |rows| > limit {
      next := Some(CursorAt(enc, rows[limit - 1]));
      rows := rows[..limit];
    }
    items := rows;
  }

  // Where a client stands that follows the cursors.
  datatype Place = First | Behind(cursor: Cursor) | End

  function CursorOf(place: Place): Option<Cursor> {
    if place.Behind? then Some(place.cursor) else None
  }

  function Next(enc: Encoding, found: seq<Row>, limit: nat): Place
    requires limit >= 1
  {
    if |found| <= limit then End else Behind(CursorAt(enc, found[limit - 1]))
  }

  // The rows shown over the next n calls, and where the client stands then.
  function Shown(dir: Dir, enc: Encoding, s: seq<Row>, limit: nat, place: Place, n: nat): (seq<Row>, Place)
    requires limit >= 1
    decreases n
  {
    if n == 0 || place.End? then ([], place)
    else
      var found := Select(dir, CursorOf(place), s);
      var page := if |found| <= limit then found else found[..limit];
      var (rest, last) := Shown(dir, enc, s, limit, Next(enc, found, limit), n - 1);
      (page + rest, last)
  }

  // Follow the cursors for a number of calls, or until there is none.
  method Pages(dir: Dir, enc: Encoding, table: seq<Row>, limit: nat, calls: nat) returns (all: seq<Row>, place: Place)
    requires limit >= 1 && UniqueIds(table)
    ensures (all, place) == Shown(dir, enc, Ordered(dir, table), limit, First, calls)
  {
    hide Ordered, Select, UniqueIds, Sorted, Matches, Shown;
    ghost var s := Ordered(dir, table);
    OrderedIs(dir, table);
    all, place := [], First;
    var i := 0;
    NothingBefore(Shown(dir, enc, s, limit, First, calls));
    while i < calls && !place.End?
      invariant 0 <= i <= calls
      invariant Shown(dir, enc, s, limit, First, calls) == Prefixed(all, Shown(dir, enc, s, limit, place, calls - i))
    {
      if place.Behind? { BehindCursor(dir, table, place.cursor); } else { SelectAll(dir, table); SelectAll(dir, s); }
      ghost var found := Ordered(dir, Select(dir, CursorOf(place), table));
      OneCall(dir, enc, s, limit, all, place, calls - i);
      var items, next := Page(dir, enc, table, CursorOf(place), limit);
      all, place := all + items, if next.Some? then Behind(next.value) else End;
      i := i + 1;
    }
    NoCalls(dir, enc, s, limit, all, place, calls - i);
  }

  ghost function Prefixed(all: seq<Row>, shown: (seq<Row>, Place)): (seq<Row>, Place) { (all + shown.0, shown.1) }

  lemma NothingBefore(shown: (seq<Row>, Place))
    ensures Prefixed([], shown) == shown
  {
    assert [] + shown.0 == shown.0;
  }

  lemma OneCall(dir: Dir, enc: Encoding, s: seq<Row>, limit: nat, all: seq<Row>, place: Place, n: nat)
    requires limit >= 1 && n > 0 && !place.End?
    ensures var found := Select(dir, CursorOf(place), s);
            var page := if |found| <= limit then found else found[..limit];
            Prefixed(all, Shown(dir, enc, s, limit, place, n))
              == Prefixed(all + page, Shown(dir, enc, s, limit, Next(enc, found, limit), n - 1))
  {
    hide Select;
    var found := Select(dir, CursorOf(place), s);
    var page := if |found| <= limit then found else found[..limit];
    var rest := Shown(dir, enc, s, limit, Next(enc, found, limit), n - 1);
    assert all + (page + rest.0) == (all + page) + rest.0;
  }

  lemma NoCalls(dir: Dir, enc: Encoding, s: seq<Row>, limit: nat, all: seq<Row>, place: Place, n: nat)
    requires limit >= 1 && (n == 0 || place.End?)
    ensures Prefixed(all, Shown(dir, enc, s, limit, place, n)) == (all, place)
  {
    assert all + [] == all;
  }

  // ---- what that covers ------------------------------------------------------------------------------

  function Nulls(table: seq<Row>): nat {
    if table == [] then 0 else (if table[0].sort.None? then 1 else 0) + Nulls(table[1..])
  }

  lemma {:induction false} NullsOfInsert(dir: Dir, r: Row, s: seq<Row>)
    ensures Nulls(Insert(dir, r, s)) == Nulls(s) + if r.sort.None? then 1 else 0
  {
    if s == [] {
      assert [r][1..] == [];
    } else if Before(dir, r, s[0]) {
      assert ([r] + s)[1..] == s;
    } else {
      NullsOfInsert(dir, r, s[1..]);
      assert ([s[0]] + Insert(dir, r, s[1..]))[1..] == Insert(dir, r, s[1..]);
    }
  }

  lemma {:induction false} NullsOfOrdered(dir: Dir, table: seq<Row>)
    ensures Nulls(Ordered(dir, table)) == Nulls(table)
  {
    if table != [] {
      NullsOfOrdered(dir, table[1..]);
      NullsOfInsert(dir, table[0], Ordered(dir, table[1..]));
    }
  }

  lemma {:induction false} NoNulls(s: seq<Row>)
    ensures Nulls(s) == 0 <==> FirstNull(s) == |s|
  {
    if s != [] { NoNulls(s[1..]); }
  }

  // Descending, the nulls come first: row k is null exactly while k is below their number.
  lemma {:induction false} NullsFirst(s: seq<Row>, k: nat)
    requires Sorted(Desc, s) && k < |s|
    ensures s[k].sort.None? <==> k < Nulls(s)
  {
    TailSorted(Desc, s);
    if k > 0 {
      NullsFirst(s[1..], k - 1);
    }
    if s[0].sort.Some? { NullsAfterSome(s); }
  }

  lemma {:induction false} NullsAfterSome(s: seq<Row>)
    requires Sorted(Desc, s) && s != [] && s[0].sort.Some?
    ensures Nulls(s) == 0 && forall i :: 0 <= i < |s| ==> s[i].sort.Some?
  {
    TailSorted(Desc, s);
    if |s| > 1 {
      assert Before(Desc, s[0], s[1]);
      NullsAfterSome(s[1..]);
      forall i | 0 <= i < |s| ensures s[i].sort.Some? { if i > 0 { assert s[i] == s[1..][i - 1]; } }
    }
  }

  // A client that follows the cursors sees the whole result, each row once and in order, and then
  // no further cursor.
  ghost predicate Covers(dir: Dir, enc: Encoding, s: seq<Row>, limit: nat)
    requires limit >= 1
  {
    exists n: nat :: Shown(dir, enc, s, limit, First, n) == (s, End)
  }

  // From row k on, every page boundary continues at the next row.
  ghost predicate Seamless(dir: Dir, enc: Encoding, s: seq<Row>, limit: nat, k: nat)
    requires limit >= 1
    decreases |s| - k
  {
    k + 1 < |s| ==> Continues(dir, enc, s, k) && Reach(dir, s) == |s| && Seamless(dir, enc, s, limit, k + limit)
  }

  lemma {:induction false} SeamlessShows(dir: Dir, enc: Encoding, s: seq<Row>, limit: nat, k: nat)
    requires limit >= 1 && Sorted(dir, s) && k + 1 < |s| && Seamless(dir, enc, s, limit, k)
    ensures exists n: nat :: Shown(dir, enc, s, limit, Behind(CursorAt(enc, s[k])), n) == (s[k + 1..], End)
    decreases |s| - k
  {
    hide Continues, Reach, After, Sorted, Select;
    var c := CursorAt(enc, s[k]);
    ContinuesIsStart(dir, enc, s, k);
    RowsBehind(dir, c, s);
    var found := s[k + 1..];
    assert Select(dir, CursorOf(Behind(c)), s) == found;
    if |found| <= limit {
      var rest := Shown(dir, enc, s, limit, End, 0);
      assert found + rest.0 == found;
      assert Shown(dir, enc, s, limit, Behind(c), 1) == (found, End);
    } else {
      SeamlessShows(dir, enc, s, limit, k + limit);
      var n: nat :| Shown(dir, enc, s, limit, Behind(CursorAt(enc, s[k + limit])), n) == (s[k + limit + 1..], End);
      assert found[limit - 1] == s[k + limit] && found[..limit] + s[k + limit + 1..] == found;
      assert Shown(dir, enc, s, limit, Behind(c), n + 1) == (found, End);
    }
  }

  lemma DistinctRows(dir: Dir, s: seq<Row>, i: nat, j: nat)
    requires Sorted(dir, s) && i < |s| && j < |s|
    ensures s[i] == s[j] ==> i == j
  {
    if i < j { assert Before(dir, s[i], s[j]); }
    if j < i { assert Before(dir, s[j], s[i]); }
  }

  // Nothing behind a cursor is past the reach.
  lemma {:induction false} ShownWithinReach(dir: Dir, enc: Encoding, s: seq<Row>, limit: nat, c: Cursor, n: nat, x: Row)
    requires limit >= 1 && Sorted(dir, s) && x in Shown(dir, enc, s, limit, Behind(c), n).0
    ensures exists i :: 0 <= i < Reach(dir, s) && s[i] == x
    decreases n
  {
    hide After, Reach, Sorted, Select;
    if n > 0 {
      RowsBehind(dir, c, s);
      var found := Select(dir, Some(c), s);
      var page := if |found| <= limit then found else found[..limit];
      if x in page {
        var i :| 0 <= i < |page| && page[i] == x;
        assert s[Start(dir, c, s) + i] == x;
      } else {
        ShownWithinReach(dir, enc, s, limit, CursorAt(enc, found[limit - 1]), n - 1, x);
      }
    }
  }

  lemma {:induction false} ShowsSeamless(dir: Dir, enc: Encoding, s: seq<Row>, limit: nat, k: nat, n: nat)
    requires limit >= 1 && Sorted(dir, s) && k + 1 < |s|
    requires Shown(dir, enc, s, limit, Behind(CursorAt(enc, s[k])), n) == (s[k + 1..], End)
    ensures Seamless(dir, enc, s, limit, k)
    decreases n
  {
    hide Continues, Reach, After, Sorted, Select;
    var c := CursorAt(enc, s[k]);
    ContinuesIsStart(dir, enc, s, k);
    RowsBehind(dir, c, s);
    var all := s[k + 1..];
    assert s[|s| - 1] in all;
    ShownWithinReach(dir, enc, s, limit, c, n, s[|s| - 1]);
    LastIsAtReach(dir, s);
    var found, m := Select(dir, Some(c), s), Start(dir, c, s);
    var next := Next(enc, found, limit);
    var page := if |found| <= limit then found else found[..limit];
    var rest := Shown(dir, enc, s, limit, next, n - 1);
    assert page + rest.0 == all;
    EndShowsNothing(dir, enc, s, limit, n - 1);
    assert found != [];
    assert page[0] == all[0];
    assert s[m] == s[k + 1];
    DistinctRows(dir, s, m, k + 1);
    if |found| > limit {
      assert found[limit - 1] == s[k + limit] && rest.0 == s[k + limit + 1..];
      ShowsSeamless(dir, enc, s, limit, k + limit, n - 1);
    }
  }

  lemma LastIsAtReach(dir: Dir, s: seq<Row>)
    requires Sorted(dir, s) && s != [] && exists i :: 0 <= i < Reach(dir, s) && s[i] == s[|s| - 1]
    ensures Reach(dir, s) == |s|
  {
    var i :| 0 <= i < Reach(dir, s) && s[i] == s[|s| - 1];
    DistinctRows(dir, s, i, |s| - 1);
  }

  lemma EndShowsNothing(dir: Dir, enc: Encoding, s: seq<Row>, limit: nat, n: nat)
    requires limit >= 1
    ensures Shown(dir, enc, s, limit, End, n) == ([], End)
  {
  }

  // From row k on, a page boundary every `limit` rows, each continuing at the next row.
  ghost predicate Boundaries(dir: Dir, enc: Encoding, s: seq<Row>, limit: nat, k: nat)
    requires limit >= 1
    decreases |s| - k
  {
    k + 1 < |s| ==> Continues(dir, enc, s, k) && Boundaries(dir, enc, s, limit, k + limit)
  }

  lemma {:induction false} SeamlessIs(dir: Dir, enc: Encoding, s: seq<Row>, limit: nat, k: nat)
    requires limit >= 1
    ensures k + 1 < |s| ==>
              (Seamless(dir, enc, s, limit, k) <==> Boundaries(dir, enc, s, limit, k) && Reach(dir, s) == |s|)
    ensures k + 1 >= |s| ==> Seamless(dir, enc, s, limit, k) && Boundaries(dir, enc, s, limit, k)
    decreases |s| - k
  {
    hide Continues, Reach;
    if k + 1 < |s| { SeamlessIs(dir, enc, s, limit, k + limit); }
  }

  lemma CoversIffSeamless(dir: Dir, enc: Encoding, s: seq<Row>, limit: nat)
    requires limit >= 1 && Sorted(dir, s)
    ensures Covers(dir, enc, s, limit) <==> |s| <= limit || Seamless(dir, enc, s, limit, limit - 1)
  {
    hide Continues, Sorted, Select, Seamless;
    SelectAll(dir, s);
    if |s| <= limit {
      EndShowsNothing(dir, enc, s, limit, 0);
      assert s + [] == s;
      assert Shown(dir, enc, s, limit, First, 1) == (s, End);
    } else {
      var place := Behind(CursorAt(enc, s[limit - 1]));
      assert s[..limit] + s[limit..] == s && Select(dir, CursorOf(First), s) == s;
      if Covers(dir, enc, s, limit) {
        var n: nat :| Shown(dir, enc, s, limit, First, n) == (s, End);
        var rest := Shown(dir, enc, s, limit, place, n - 1);
        assert s[..limit] + rest.0 == s && rest.0 == s[limit..];
        ShowsSeamless(dir, enc, s, limit, limit - 1, n - 1);
      }
      if Seamless(dir, enc, s, limit, limit - 1) {
        SeamlessShows(dir, enc, s, limit, limit - 1);
        var n: nat :| Shown(dir, enc, s, limit, place, n) == (s[limit..], End);
        assert Shown(dir, enc, s, limit, First, n + 1) == (s[..limit] + s[limit..], End);
      }
    }
  }

  // Pages partition the result, every row once and in order, exactly when it fits one page, or no
  // null sort value stands in the way (there is none, or it is read descending with fewer nulls than
  // a page holds) and every page boundary continues at the next row, as Continues says of the values.
  lemma PagesCoverIff(dir: Dir, enc: Encoding, table: seq<Row>, limit: nat)
    requires limit >= 1 && UniqueIds(table)
    ensures Covers(dir, enc, Ordered(dir, table), limit) <==>
              || |table| <= limit
              || (&& (Nulls(table) == 0 || (dir.Desc? && Nulls(table) < limit))
                  && Boundaries(dir, enc, Ordered(dir, table), limit, limit - 1))
  {
    hide Ordered, Covers, Seamless;
    var s := Ordered(dir, table);
    OrderedIs(dir, table);
    NullsOfOrdered(dir, table);
    NoNulls(s);
    CoversIffSeamless(dir, enc, s, limit);
    SeamlessIs(dir, enc, s, limit, limit - 1);
    if |s| > limit && dir.Desc? {
      NullsFirst(s, limit - 1);
    }
  }

  // When every sort value survives, as ids, texts and whole numbers do, only the nulls count.
  lemma ExactCursorsCover(dir: Dir, enc: Encoding, table: seq<Row>, limit: nat)
    requires limit >= 1 && UniqueIds(table)
    requires forall r :: r in table && r.sort.Some? ==> enc(r.sort.value) == r.sort
    ensures Covers(dir, enc, Ordered(dir, table), limit) <==>
              |table| <= limit || Nulls(table) == 0 || (dir.Desc? && Nulls(table) < limit)
  {
    hide Ordered, Covers, Boundaries, Continues;
    var s := Ordered(dir, table);
    OrderedIs(dir, table);
    SameMembers(s, table);
    NullsOfOrdered(dir, table);
    PagesCoverIff(dir, enc, table, limit);
    if Nulls(table) == 0 || (dir.Desc? && Nulls(table) < limit) {
      ExactBoundaries(dir, enc, s, limit, limit - 1);
    }
  }

  lemma {:induction false} ExactBoundaries(dir: Dir, enc: Encoding, s: seq<Row>, limit: nat, k: nat)
    requires limit >= 1 && Sorted(dir, s) && limit - 1 <= k
    requires forall r :: r in s && r.sort.Some? ==> enc(r.sort.value) == r.sort
    requires Nulls(s) == 0 || (dir.Desc? && Nulls(s) < limit)
    ensures Boundaries(dir, enc, s, limit, k)
    decreases |s| - k
  {
    hide Continues, Sorted;
    if k + 1 < |s| {
      NoNulls(s);
      if dir.Desc? {
        NullsFirst(s, k);
        NullsFirst(s, k + 1);
      }
      assert s[k] in s;
      ContinuesIff(dir, enc, s, k);
      ExactBoundaries(dir, enc, s, limit, k + limit);
    }
  }

  lemma FirstNullIsThere(s: seq<Row>)
    ensures FirstNull(s) < |s| ==> exists r :: r in s && r.sort.None?
  {
    if FirstNull(s) < |s| { assert s[FirstNull(s)] in s; }
  }

  // The failing input ascending: more rows than a page holds, written within one millisecond, whose
  // sort values all encode to the instant before them. Every page is the first one again.
  lemma {:induction false} BulkNeverEnds(enc: Encoding, s: seq<Row>, limit: nat, instant: int, c: Cursor, n: nat)
    requires limit >= 1 && Sorted(Asc, s) && |s| > limit && c.v == Some(instant)
    requires forall r :: r in s ==> r.sort.Some? && instant < r.sort.value && enc(r.sort.value) == Some(instant)
    ensures Shown(Asc, enc, s, limit, Behind(c), n).1.Behind?
    ensures n > 0 ==> s[..limit] <= Shown(Asc, enc, s, limit, Behind(c), n).0
    decreases n
  {
    hide Sorted, Select;
    if n > 0 {
      assert s[0] in s && s[limit - 1] in s;
      FirstNullIsThere(s);
      assert Start(Asc, c, s) == 0 && Reach(Asc, s) == |s|;
      RowsBehind(Asc, c, s);
      assert s[0..|s|] == s;
      BulkNeverEnds(enc, s, limit, instant, CursorAt(enc, s[limit - 1]), n - 1);
    }
  }

  lemma BulkNeverCovers(enc: Encoding, s: seq<Row>, limit: nat, instant: int, n: nat)
    requires limit >= 1 && Sorted(Asc, s) && |s| > limit
    requires forall r :: r in s ==> r.sort.Some? && instant < r.sort.value && enc(r.sort.value) == Some(instant)
    ensures !Shown(Asc, enc, s, limit, First, n).1.End?
  {
    hide Sorted, Select;
    SelectAll(Asc, s);
    if n > 0 {
      assert s[limit - 1] in s;
      BulkNeverEnds(enc, s, limit, instant, CursorAt(enc, s[limit - 1]), n - 1);
    }
  }

  // And descending: a row whose value lies between the last one shown and what its cursor kept of it
  // is never shown.
  lemma GapIsSkipped(enc: Encoding, r: Row, x: Row, n: nat)
    requires r.sort.Some? && x.sort.Some? && enc(r.sort.value).Some?
    requires enc(r.sort.value).value < x.sort.value < r.sort.value
    ensures Sorted(Desc, [r, x])
    ensures Shown(Desc, enc, [r, x], 1, First, n + 2) == ([r], End)
  {
    var s, c := [r, x], CursorAt(enc, r);
    SelectAll(Desc, s);
    RowsBehind(Desc, c, s);
    assert Start(Desc, c, s) == 2 by { assert s[1..] == [x] && s[1..][1..] == []; }
    EndShowsNothing(Desc, enc, s, 1, n);
    var none: seq<Row> := [];
    assert Select(Desc, CursorOf(Behind(c)), s) == none && none + none == none && Next(enc, none, 1) == End;
    OneCall(Desc, enc, s, 1, none, Behind(c), n + 1);
    NothingBefore(Shown(Desc, enc, s, 1, Behind(c), n + 1));
    NothingBefore(Shown(Desc, enc, s, 1, End, n));
    OneCall(Desc, enc, s, 1, none, First, n + 2);
    NothingBefore(Shown(Desc, enc, s, 1, First, n + 2));
    assert none + s[..1] == [r] && [r] + none == [r];
  }
}
