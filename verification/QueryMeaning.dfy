// What the compiled where text means to the database: SQL's precedence, three-valued logic, and
// the parameters it was sent with.
module QueryMeaning {
  import opened Options
  import opened Query

  // ---- three-valued logic ---------------------------------------------------------------------

  datatype Tri = T | F | U

  function TriNot(a: Tri): Tri { match a case T => F case F => T case U => U }
  function TriAnd(a: Tri, b: Tri): Tri { if a.F? || b.F? then F else if a.U? || b.U? then U else T }
  function TriOr(a: Tri, b: Tri): Tri { if a.T? || b.T? then T else if a.U? || b.U? then U else F }
  function Truth(b: bool): Tri { if b then T else F }

  // One object: its columns, and its manual edges as (verb, target id). Comparisons between
  // non-null values are the database's own, whatever they are.
  datatype Row = Row(column: string -> Scalar, edges: set<(string, string)>)
  type Comparison = (Op, Scalar, Scalar) -> bool

  function Compared(cmp: Comparison, op: Op, a: Scalar, b: Scalar): Tri {
    if a.Null? || b.Null? then U else Truth(cmp(op, a, b))
  }

  function AnyEqual(cmp: Comparison, a: Scalar, items: seq<Scalar>): Tri {
    if items == [] then F else TriOr(Compared(cmp, Eq, a, items[0]), AnyEqual(cmp, a, items[1..]))
  }

  predicate Linked(row: Row, rel: string, ids: seq<Scalar>) {
    exists i :: 0 <= i < |ids| && ids[i].Str? && (rel, ids[i].s) in row.edges
  }

  // ---- what a tree means ------------------------------------------------------------------------

  function LeafMeans(field: string, op: Op, value: Value, resolve: Resolver, row: Row, cmp: Comparison): Tri {
    match resolve(field)
    case None => U
    case Some(col) =>
      if col.kind.RefList? then
        (match value
         case One(id) => Truth(Linked(row, col.rel, [id]))
         case Many(ids) => Truth(Linked(row, col.rel, ids))
         case Missing => U)
      else
        match op
        case IsNull => Truth(row.column(col.column).Null?)
        case IsNotNull => Truth(!row.column(col.column).Null?)
        case In => if value.Many? then AnyEqual(cmp, row.column(col.column), value.items) else U
        case _ => if value.One? then Compared(cmp, op, row.column(col.column), value.scalar) else U
  }

  function Means(node: Where, resolve: Resolver, row: Row, cmp: Comparison): Tri
    decreases node
  {
    match node
    case And(nodes) => AllMean(nodes, resolve, row, cmp)
    case Or(nodes) => AnyMeans(nodes, resolve, row, cmp)
    case Not(inner) => TriNot(Means(inner, resolve, row, cmp))
    case Leaf(field, op, value) => LeafMeans(field, op, value, resolve, row, cmp)
    case Broken => U
  }

  function AllMean(nodes: seq<Where>, resolve: Resolver, row: Row, cmp: Comparison): Tri
    decreases nodes
  {
    if nodes == [] then T else TriAnd(Means(nodes[0], resolve, row, cmp), AllMean(nodes[1..], resolve, row, cmp))
  }

  function AnyMeans(nodes: seq<Where>, resolve: Resolver, row: Row, cmp: Comparison): Tri
    decreases nodes
  {
    if nodes == [] then F else TriOr(Means(nodes[0], resolve, row, cmp), AnyMeans(nodes[1..], resolve, row, cmp))
  }

  // ---- what a text means: NOT binds tighter than AND, AND tighter than OR --------------------------

  datatype Expr = EAnd(l: Expr, r: Expr) | EOr(l: Expr, r: Expr) | ENot(e: Expr) | EAtom(token: Token)
  datatype Parsed = Parsed(expr: Expr, rest: seq<Token>)

  predicate IsAtom(t: Token) { t.FalseT? || t.NullTest? || t.Compare? || t.AnyOf? || t.Edge? }

  function ParsePrimary(t: seq<Token>): (r: Option<Parsed>)
    ensures r.Some? ==> |r.value.rest| < |t|
    decreases |t|, 0
  {
    if t == [] then None
    else if IsAtom(t[0]) then Some(Parsed(EAtom(t[0]), t[1..]))
    else if t[0].LParen? then
      match ParseOr(t[1..])
      case None => None
      case Some(p) => if p.rest != [] && p.rest[0].RParen? then Some(Parsed(p.expr, p.rest[1..])) else None
    else None
  }

  function ParseNot(t: seq<Token>): (r: Option<Parsed>)
    ensures r.Some? ==> |r.value.rest| < |t|
    decreases |t|, 1
  {
    if t != [] && t[0].NotT? then
      match ParseNot(t[1..])
      case None => None
      case Some(p) => Some(Parsed(ENot(p.expr), p.rest))
    else ParsePrimary(t)
  }

  function ParseAnd(t: seq<Token>): (r: Option<Parsed>)
    ensures r.Some? ==> |r.value.rest| < |t|
    decreases |t|, 2
  {
    match ParseNot(t)
    case None => None
    case Some(p) => ParseAndTail(p.expr, p.rest)
  }

  function ParseAndTail(left: Expr, t: seq<Token>): (r: Option<Parsed>)
    ensures r.Some? ==> |r.value.rest| <= |t|
    decreases |t|, 0
  {
    if t == [] || !t[0].AndT? then Some(Parsed(left, t))
    else
      match ParseNot(t[1..])
      case None => None
      case Some(p) => ParseAndTail(EAnd(left, p.expr), p.rest)
  }

  function ParseOr(t: seq<Token>): (r: Option<Parsed>)
    ensures r.Some? ==> |r.value.rest| < |t|
    decreases |t|, 3
  {
    match ParseAnd(t)
    case None => None
    case Some(p) => ParseOrTail(p.expr, p.rest)
  }

  function ParseOrTail(left: Expr, t: seq<Token>): (r: Option<Parsed>)
    ensures r.Some? ==> |r.value.rest| <= |t|
    decreases |t|, 0
  {
    if t == [] || !t[0].OrT? then Some(Parsed(left, t))
    else
      match ParseAnd(t[1..])
      case None => None
      case Some(p) => ParseOrTail(EOr(left, p.expr), p.rest)
  }

  function Param(bound: Bound, k: nat): Value { if 1 <= k <= |bound| then bound[k - 1] else Missing }

  function AtomMeans(t: Token, bound: Bound, row: Row, cmp: Comparison): Tri {
    match t
    case FalseT => F
    case NullTest(c, isNull) => Truth(row.column(c).Null? == isNull)
    case Compare(c, op, k) => (match Param(bound, k) case One(v) => Compared(cmp, op, row.column(c), v) case _ => U)
    case AnyOf(c, k) => (match Param(bound, k) case Many(items) => AnyEqual(cmp, row.column(c), items) case _ => U)
    case Edge(r, i, anyOf) =>
      var rel, ids := Param(bound, r), Param(bound, i);
      if !(rel.One? && rel.scalar.Str?) then U
      else if anyOf then (if ids.Many? then Truth(Linked(row, rel.scalar.s, ids.items)) else U)
      else if ids.One? then Truth(Linked(row, rel.scalar.s, [ids.scalar])) else U
    case _ => U
  }

  function ExprMeans(e: Expr, bound: Bound, row: Row, cmp: Comparison): Tri {
    match e
    case EAnd(l, r) => TriAnd(ExprMeans(l, bound, row, cmp), ExprMeans(r, bound, row, cmp))
    case EOr(l, r) => TriOr(ExprMeans(l, bound, row, cmp), ExprMeans(r, bound, row, cmp))
    case ENot(inner) => TriNot(ExprMeans(inner, bound, row, cmp))
    case EAtom(t) => AtomMeans(t, bound, row, cmp)
  }

  // ---- the theorem ------------------------------------------------------------------------------------

  // The text parses as one primary, whatever follows it, to an expression that means the tree.
  ghost predicate Renders(text: seq<Token>, tail: seq<Token>, e: Expr, node: Where, resolve: Resolver, bound: Bound,
                          row: Row, cmp: Comparison) {
    && text != [] && !text[0].NotT?
    && ParsePrimary(text + tail) == Some(Parsed(e, tail))
    && ExprMeans(e, bound, row, cmp) == Means(node, resolve, row, cmp)
  }

  lemma LeafRenders(field: string, op: Op, value: Value, resolve: Resolver, params: Bound, bound: Bound,
                    tail: seq<Token>, row: Row, cmp: Comparison) returns (e: Expr)
    requires CompileLeaf(field, op, value, resolve, params).Ok?
             && CompileLeaf(field, op, value, resolve, params).value.1 <= bound
    ensures Renders(CompileLeaf(field, op, value, resolve, params).value.0, tail, e, Leaf(field, op, value), resolve,
                    bound, row, cmp)
  {
    hide Linked, AnyEqual;
    var text := CompileLeaf(field, op, value, resolve, params).value.0;
    assert |text| == 1 && (text + tail)[0] == text[0] && (text + tail)[1..] == tail;
    e := EAtom(text[0]);
    LeafMeaning(field, op, value, resolve, params, bound, row, cmp);
  }

  lemma LeafMeaning(field: string, op: Op, value: Value, resolve: Resolver, params: Bound, bound: Bound, row: Row,
                    cmp: Comparison)
    requires CompileLeaf(field, op, value, resolve, params).Ok?
             && CompileLeaf(field, op, value, resolve, params).value.1 <= bound
    ensures var text := CompileLeaf(field, op, value, resolve, params).value.0;
            |text| == 1 && IsAtom(text[0])
                && AtomMeans(text[0], bound, row, cmp) == LeafMeans(field, op, value, resolve, row, cmp)
  {
    hide Linked;
    var more := CompileLeaf(field, op, value, resolve, params).value.1;
    forall k | 1 <= k <= |more| ensures Param(bound, k) == more[k - 1] {}
    NothingLinked(row);
  }

  lemma NothingLinked(row: Row)
    ensures forall rel: string :: !Linked(row, rel, [])
  {
  }

  lemma PrimaryIsNot(text: seq<Token>, tail: seq<Token>)
    requires text != [] && !text[0].NotT?
    ensures ParseNot(text + tail) == ParsePrimary(text + tail)
  {
    hide ParsePrimary;
  }

  // Parentheses around anything that parses as an OR-level expression.
  lemma InParens(inner: seq<Token>, tail: seq<Token>, e: Expr)
    requires ParseOr(inner + ([RParen] + tail)) == Some(Parsed(e, [RParen] + tail))
    ensures ParsePrimary([LParen] + inner + [RParen] + tail) == Some(Parsed(e, tail))
  {
    hide ParseOr;
    var t := [LParen] + inner + [RParen] + tail;
    assert t[1..] == inner + ([RParen] + tail);
    assert ([RParen] + tail)[1..] == tail;
  }

  lemma NotInParens(text: seq<Token>, tail: seq<Token>, e: Expr)
    requires text != [] && !text[0].NotT? && ParsePrimary(text + ([RParen] + tail)) == Some(Parsed(e, [RParen] + tail))
    ensures ParsePrimary([LParen, NotT] + text + [RParen] + tail) == Some(Parsed(ENot(e), tail))
  {
    hide ParsePrimary;
    var after := [RParen] + tail;
    PrimaryIsNot(text, after);
    var t := [NotT] + text + after;
    assert t[1..] == text + after;
    assert ParseNot(t) == Some(Parsed(ENot(e), after));
    AndTailStops(ENot(e), after);
    assert ParseAnd(t) == Some(Parsed(ENot(e), after));
    assert ParseOr(t) == Some(Parsed(ENot(e), after));
    assert [NotT] + text + ([RParen] + tail) == t;
    InParens([NotT] + text, tail, ENot(e));
    assert [LParen] + ([NotT] + text) == [LParen, NotT] + text;
  }

  lemma {:induction false} TreeRenders(node: Where, resolve: Resolver, params: Bound, depth: nat, bound: Bound,
                                       tail: seq<Token>, row: Row, cmp: Comparison) returns (e: Expr)
    requires CompileWhere(node, resolve, params, depth).Ok?
             && CompileWhere(node, resolve, params, depth).value.1 <= bound
    ensures Renders(CompileWhere(node, resolve, params, depth).value.0, tail, e, node, resolve, bound, row, cmp)
    decreases node
  {
    hide CompileLeaf, LeafMeans, ParsePrimary, ParseOr, CompileJoin, AllMean, AnyMeans;
    match node
    case Leaf(field, op, value) =>
      e := LeafRenders(field, op, value, resolve, params, bound, tail, row, cmp);
    case Not(inner) =>
      var text := CompileWhere(inner, resolve, params, depth + 1).value.0;
      e := TreeRenders(inner, resolve, params, depth + 1, bound, [RParen] + tail, row, cmp);
      NotInParens(text, tail, e);
      e := ENot(e);
    case And(nodes) =>
      var text := CompileJoin(nodes, AndT, resolve, params, depth + 1).value.0;
      e := AndRenders(nodes, resolve, params, depth + 1, bound, [RParen] + tail, row, cmp);
      InParens(text, tail, e);
    case Or(nodes) =>
      var text := CompileJoin(nodes, OrT, resolve, params, depth + 1).value.0;
      e := OrRenders(nodes, resolve, params, depth + 1, bound, [RParen] + tail, row, cmp);
      InParens(text, tail, e);
  }

  predicate StopsAnd(tail: seq<Token>) { tail == [] || !tail[0].AndT? }
  predicate StopsOr(tail: seq<Token>) { tail == [] || !(tail[0].AndT? || tail[0].OrT?) }

  // The head of a join, then the glue and the rest of it.
  lemma JoinParts(nodes: seq<Where>, glue: Token, resolve: Resolver, params: Bound, depth: nat, bound: Bound,
                  tail: seq<Token>)
    returns (first: seq<Token>, more: Bound, rest: seq<Token>)
    requires nodes != [] && CompileJoin(nodes, glue, resolve, params, depth).Ok?
    requires CompileJoin(nodes, glue, resolve, params, depth).value.1 <= bound
    ensures CompileWhere(nodes[0], resolve, params, depth) == Ok((first, more)) && more <= bound
    ensures CompileJoin(nodes, glue, resolve, params, depth).value.0 + tail == first + rest
    ensures |nodes| == 1 ==> rest == tail
    ensures |nodes| > 1 ==> CompileJoin(nodes[1..], glue, resolve, more, depth).Ok?
                            && CompileJoin(nodes[1..], glue, resolve, more, depth).value.1 <= bound
                            && rest == [glue] + (CompileJoin(nodes[1..], glue, resolve, more, depth).value.0 + tail)
  {
    hide CompileWhere;
    first, more := CompileWhere(nodes[0], resolve, params, depth).value.0,
        CompileWhere(nodes[0], resolve, params, depth).value.1;
    if |nodes| == 1 {
      rest := tail;
    } else {
      var j := CompileJoin(nodes[1..], glue, resolve, more, depth).value;
      rest := [glue] + (j.0 + tail);
      assert first + [glue] + j.0 + tail == first + rest;
      BindsAllExactly(nodes[1..], glue, resolve, more, depth);
      assert more <= j.1;
    }
  }

  lemma {:induction false} AndTailRenders(left: Expr, nodes: seq<Where>, resolve: Resolver, params: Bound, depth: nat,
                                          bound: Bound, tail: seq<Token>, row: Row, cmp: Comparison) returns (e: Expr)
    requires nodes != [] && CompileJoin(nodes, AndT, resolve, params, depth).Ok? && StopsAnd(tail)
    requires CompileJoin(nodes, AndT, resolve, params, depth).value.1 <= bound
    ensures ParseAndTail(left, [AndT] + (CompileJoin(nodes, AndT, resolve, params, depth).value.0 + tail))
         == Some(Parsed(e, tail))
    ensures ExprMeans(e, bound, row, cmp) == TriAnd(ExprMeans(left, bound, row, cmp), AllMean(nodes, resolve, row, cmp))
    decreases nodes
  {
    hide CompileWhere, CompileJoin, ParsePrimary, ParseNot, Means;
    var first, more, rest := JoinParts(nodes, AndT, resolve, params, depth, bound, tail);
    var one := TreeRenders(nodes[0], resolve, params, depth, bound, rest, row, cmp);
    PrimaryIsNot(first, rest);
    var t := [AndT] + (first + rest);
    assert t[1..] == first + rest;
    assert ParseAndTail(left, t) == ParseAndTail(EAnd(left, one), rest);
    e := EAnd(left, one);
    AllMeanOf(nodes, resolve, row, cmp);
    if |nodes| > 1 { e := AndTailRenders(e, nodes[1..], resolve, more, depth, bound, tail, row, cmp); }
  }

  lemma AllMeanOf(nodes: seq<Where>, resolve: Resolver, row: Row, cmp: Comparison)
    requires nodes != []
    ensures AllMean(nodes, resolve, row, cmp)
         == if |nodes| == 1 then Means(nodes[0], resolve, row, cmp)
            else TriAnd(Means(nodes[0], resolve, row, cmp), AllMean(nodes[1..], resolve, row, cmp))
    ensures AnyMeans(nodes, resolve, row, cmp)
         == if |nodes| == 1 then Means(nodes[0], resolve, row, cmp)
            else TriOr(Means(nodes[0], resolve, row, cmp), AnyMeans(nodes[1..], resolve, row, cmp))
  {
    hide Means;
    if |nodes| == 1 { assert nodes[1..] == []; }
  }

  lemma AndRenders(nodes: seq<Where>, resolve: Resolver, params: Bound, depth: nat, bound: Bound, tail: seq<Token>,
                   row: Row, cmp: Comparison) returns (e: Expr)
    requires nodes != [] && CompileJoin(nodes, AndT, resolve, params, depth).Ok? && StopsOr(tail)
    requires CompileJoin(nodes, AndT, resolve, params, depth).value.1 <= bound
    ensures ParseOr(CompileJoin(nodes, AndT, resolve, params, depth).value.0 + tail) == Some(Parsed(e, tail))
    ensures ExprMeans(e, bound, row, cmp) == AllMean(nodes, resolve, row, cmp)
    decreases nodes
  {
    hide CompileWhere, CompileJoin, ParsePrimary, ParseNot, Means, ParseAndTail, AllMean;
    var first, more, rest := JoinParts(nodes, AndT, resolve, params, depth, bound, tail);
    e := TreeRenders(nodes[0], resolve, params, depth, bound, rest, row, cmp);
    PrimaryIsNot(first, rest);
    AllMeanOf(nodes, resolve, row, cmp);
    if |nodes| > 1 {
      e := AndTailRenders(e, nodes[1..], resolve, more, depth, bound, tail, row, cmp);
    } else {
      AndTailStops(e, tail);
    }
  }

  lemma AndTailStops(left: Expr, tail: seq<Token>)
    ensures StopsAnd(tail) ==> ParseAndTail(left, tail) == Some(Parsed(left, tail))
    ensures StopsOr(tail) ==> StopsAnd(tail)
  {
  }

  // One operand of an OR: a primary that no AND follows.
  lemma PrimaryIsAnd(text: seq<Token>, tail: seq<Token>, e: Expr)
    requires text != [] && !text[0].NotT? && ParsePrimary(text + tail) == Some(Parsed(e, tail)) && StopsAnd(tail)
    ensures ParseAnd(text + tail) == Some(Parsed(e, tail))
  {
    hide ParsePrimary, ParseNot;
    PrimaryIsNot(text, tail);
  }

  lemma {:induction false} OrTailRenders(left: Expr, nodes: seq<Where>, resolve: Resolver, params: Bound, depth: nat,
                                         bound: Bound, tail: seq<Token>, row: Row, cmp: Comparison) returns (e: Expr)
    requires nodes != [] && CompileJoin(nodes, OrT, resolve, params, depth).Ok? && StopsOr(tail)
    requires CompileJoin(nodes, OrT, resolve, params, depth).value.1 <= bound
    ensures ParseOrTail(left, [OrT] + (CompileJoin(nodes, OrT, resolve, params, depth).value.0 + tail))
         == Some(Parsed(e, tail))
    ensures ExprMeans(e, bound, row, cmp) == TriOr(ExprMeans(left, bound, row, cmp), AnyMeans(nodes, resolve, row, cmp))
    decreases nodes
  {
    hide CompileWhere, CompileJoin, ParsePrimary, ParseAnd, Means;
    var first, more, rest := JoinParts(nodes, OrT, resolve, params, depth, bound, tail);
    var one := TreeRenders(nodes[0], resolve, params, depth, bound, rest, row, cmp);
    PrimaryIsAnd(first, rest, one);
    var t := [OrT] + (first + rest);
    assert t[1..] == first + rest;
    assert ParseOrTail(left, t) == ParseOrTail(EOr(left, one), rest);
    e := EOr(left, one);
    AllMeanOf(nodes, resolve, row, cmp);
    if |nodes| > 1 { e := OrTailRenders(e, nodes[1..], resolve, more, depth, bound, tail, row, cmp); }
  }

  lemma OrRenders(nodes: seq<Where>, resolve: Resolver, params: Bound, depth: nat, bound: Bound, tail: seq<Token>,
                  row: Row, cmp: Comparison) returns (e: Expr)
    requires nodes != [] && CompileJoin(nodes, OrT, resolve, params, depth).Ok? && StopsOr(tail)
    requires CompileJoin(nodes, OrT, resolve, params, depth).value.1 <= bound
    ensures ParseOr(CompileJoin(nodes, OrT, resolve, params, depth).value.0 + tail) == Some(Parsed(e, tail))
    ensures ExprMeans(e, bound, row, cmp) == AnyMeans(nodes, resolve, row, cmp)
    decreases nodes
  {
    hide CompileWhere, CompileJoin, ParsePrimary, ParseAnd, Means, AnyMeans;
    var first, more, rest := JoinParts(nodes, OrT, resolve, params, depth, bound, tail);
    e := TreeRenders(nodes[0], resolve, params, depth, bound, rest, row, cmp);
    PrimaryIsAnd(first, rest, e);
    AllMeanOf(nodes, resolve, row, cmp);
    if |nodes| > 1 { e := OrTailRenders(e, nodes[1..], resolve, more, depth, bound, tail, row, cmp); }
  }

  // The compiled text, read with SQL's precedence and evaluated against the parameters it was sent
  // with, is the tree: every accepted filter, every row, every notion of comparison.
  lemma WherePreservesMeaning(node: Where, resolve: Resolver, params: Bound, row: Row, cmp: Comparison)
    returns (e: Expr)
    requires CompileWhere(node, resolve, params, 0).Ok?
    ensures var (text, bound) := CompileWhere(node, resolve, params, 0).value;
            && ParseOr(text) == Some(Parsed(e, []))
            && ExprMeans(e, bound, row, cmp) == Means(node, resolve, row, cmp)
            && params <= bound
  {
    hide CompileWhere, ParsePrimary, ParseAnd;
    var (text, bound) := CompileWhere(node, resolve, params, 0).value;
    e := TreeRenders(node, resolve, params, 0, bound, [], row, cmp);
    assert text + [] == text;
    PrimaryIsAnd(text, [], e);
    BindsExactly(node, resolve, params, 0);
  }

  // Spliced behind the list query's own conditions it still means the tree, and they keep theirs.
  lemma SplicedWhere(own: Token, live: Token, node: Where, resolve: Resolver, params: Bound, row: Row, cmp: Comparison)
    returns (e: Expr)
    requires CompileWhere(node, resolve, params, 0).Ok? && IsAtom(own) && IsAtom(live)
    ensures var (text, bound) := CompileWhere(node, resolve, params, 0).value;
            && ParseOr([own, AndT, live, AndT] + text) == Some(Parsed(e, []))
            && ExprMeans(e, bound, row, cmp)
               == TriAnd(TriAnd(AtomMeans(own, bound, row, cmp), AtomMeans(live, bound, row, cmp)),
                         Means(node, resolve, row, cmp))
  {
    hide CompileWhere, AtomMeans;
    var (text, bound) := CompileWhere(node, resolve, params, 0).value;
    var one := TreeRenders(node, resolve, params, 0, bound, [], row, cmp);
    assert text + [] == text;
    PrimaryIsNot(text, []);
    AtomsThen(own, live, text, one);
    var conditions := EAnd(EAtom(own), EAtom(live));
    e := EAnd(conditions, one);
    assert ExprMeans(conditions, bound, row, cmp)
        == TriAnd(AtomMeans(own, bound, row, cmp), AtomMeans(live, bound, row, cmp));
  }

  lemma AtomsThen(own: Token, live: Token, text: seq<Token>, one: Expr)
    requires IsAtom(own) && IsAtom(live) && ParseNot(text) == Some(Parsed(one, []))
    ensures ParseOr([own, AndT, live, AndT] + text) == Some(Parsed(EAnd(EAnd(EAtom(own), EAtom(live)), one), []))
  {
    hide ParseNot, ParsePrimary;
    var t := [own, AndT, live, AndT] + text;
    AtomThen(own, t[1..]);
    AtomThen(live, t[3..]);
    assert t == [own] + t[1..] && t[1..][1..] == [live] + t[3..] && t[3..][1..] == text;
    AndTailStops(EAnd(EAnd(EAtom(own), EAtom(live)), one), []);
    assert ParseAndTail(EAnd(EAtom(own), EAtom(live)), t[3..])
        == Some(Parsed(EAnd(EAnd(EAtom(own), EAtom(live)), one), []));
    assert ParseAndTail(EAtom(own), t[1..]) == ParseAndTail(EAnd(EAtom(own), EAtom(live)), t[3..]);
  }

  lemma AtomThen(a: Token, rest: seq<Token>)
    requires IsAtom(a)
    ensures ParseNot([a] + rest) == Some(Parsed(EAtom(a), rest))
  {
    assert ([a] + rest)[1..] == rest;
  }
}
