// packages/mcp-tools/src/query-ast.ts: the where compiler. Field names become catalogued columns,
// values become bound parameters, and the emitted text means what the tree meant.
module Query {
  import opened Options

  const MAX_AST_DEPTH := 8

  datatype Scalar = Null | Str(s: string) | Num(n: real) | Bool(b: bool)
  datatype Value = Missing | One(scalar: Scalar) | Many(items: seq<Scalar>)
  datatype Op = Eq | Ne | Lt | Lte | Gt | Gte | Like | Ilike | In | IsNull | IsNotNull | Unknown

  // Broken: a node of none of the four shapes, or an and/or whose value is not an array.
  datatype Where = And(nodes: seq<Where>) | Or(nodes: seq<Where>) | Not(node: Where)
    | Leaf(field: string, op: Op, value: Value) | Broken

  datatype Kind = Number | Boolean | Text | RefList
  datatype Field = Field(column: string, kind: Kind, rel: string)
  type Resolver = string -> Option<Field>

  datatype Refusal =
    | TooDeep | Malformed | EmptyAnd | EmptyOr | UnknownField | UnknownOperator | NeedsArray | NeedsScalar
    | WrongType | ListFilter
  datatype Result<+T> = Ok(value: T) | Err(error: Refusal) {
    predicate IsFailure() { Err? }
    function PropagateFailure<U>(): Result<U>
      requires Err?
    { Err(error) }
    function Extract(): T
      requires Ok?
    { value }
  }

  // The emitted text, lexed. Param(k) is $k; AnyParam(k) is ANY($k); Edge is the EXISTS over edges.
  datatype Token = LParen | RParen | AndT | OrT | NotT | FalseT | NullTest(column: string, isNull: bool)
    | Compare(column: string, op: Op, param: nat) | AnyOf(column: string, param: nat)
    | Edge(rel: nat, id: nat, anyOf: bool)
  type Bound = seq<Value>

  // ---- the compiler -----------------------------------------------------------------------

  predicate KindTakes(kind: Kind, v: Scalar) {
    v.Null? || match kind case Number => v.Num? case Boolean => v.Bool? case _ => v.Str?
  }

  function CompileRefList(rel: string, op: Op, value: Value, params: Bound): Result<(seq<Token>, Bound)> {
    match op
    case Eq =>
      if value.One? && value.scalar.Str? then
        Ok(([Edge(|params| + 1, |params| + 2, false)], params + [One(Str(rel)), value]))
      else Err(ListFilter)
    case In =>
      if !value.Many? then Err(NeedsArray)
      else if value.items == [] then Ok(([FalseT], params))
      else if exists i :: 0 <= i < |value.items| && !value.items[i].Str? then Err(ListFilter)
      else Ok(([Edge(|params| + 1, |params| + 2, true)], params + [One(Str(rel)), value]))
    case _ => Err(ListFilter)
  }

  function CompileLeaf(field: string, op: Op, value: Value, resolve: Resolver,
                       params: Bound): Result<(seq<Token>, Bound)> {
    match resolve(field)
    case None => Err(UnknownField)
    case Some(col) =>
      if col.kind.RefList? then CompileRefList(col.rel, op, value, params)
      else
        match op
        case IsNull => Ok(([NullTest(col.column, true)], params))
        case IsNotNull => Ok(([NullTest(col.column, false)], params))
        case In =>
          if !value.Many? then Err(NeedsArray)
          else if value.items == [] then Ok(([FalseT], params))
          else if exists i :: 0 <= i < |value.items| && !KindTakes(col.kind, value.items[i]) then Err(WrongType)
          else Ok(([AnyOf(col.column, |params| + 1)], params + [value]))
        case Unknown => Err(UnknownOperator)
        case _ =>
          if !value.One? then Err(NeedsScalar)
          else if !KindTakes(col.kind, value.scalar) then Err(WrongType)
          else Ok(([Compare(col.column, op, |params| + 1)], params + [value]))
  }

  function CompileWhere(node: Where, resolve: Resolver, params: Bound, depth: nat): Result<(seq<Token>, Bound)>
    decreases node
  {
    if depth > MAX_AST_DEPTH then Err(TooDeep)
    else
      match node
      case Broken => Err(Malformed)
      case And(nodes) =>
        if nodes == [] then Err(EmptyAnd)
        else
          var joined :- CompileJoin(nodes, AndT, resolve, params, depth + 1);
          Ok(([LParen] + joined.0 + [RParen], joined.1))
      case Or(nodes) =>
        if nodes == [] then Err(EmptyOr)
        else
          var joined :- CompileJoin(nodes, OrT, resolve, params, depth + 1);
          Ok(([LParen] + joined.0 + [RParen], joined.1))
      case Not(inner) =>
        var compiled :- CompileWhere(inner, resolve, params, depth + 1);
        Ok(([LParen, NotT] + compiled.0 + [RParen], compiled.1))
      case Leaf(field, op, value) => CompileLeaf(field, op, value, resolve, params)
  }

  // node.map(compile).join(glue)
  function CompileJoin(nodes: seq<Where>, glue: Token, resolve: Resolver, params: Bound,
                       depth: nat): Result<(seq<Token>, Bound)>
    requires nodes != []
    decreases nodes
  {
    var first :- CompileWhere(nodes[0], resolve, params, depth);
    if |nodes| == 1 then Ok(first)
    else
      var rest :- CompileJoin(nodes[1..], glue, resolve, first.1, depth);
      Ok((first.0 + [glue] + rest.0, rest.1))
  }

  // ---- the growing parameter list, and the compiler over it -----------------------------------

  class Params {
    var values: Bound

    constructor (seeds: Bound)
      ensures values == seeds
    {
      values := seeds;
    }

    method Push(v: Value) returns (k: nat)
      modifies this
      ensures values == old(values) + [v] && k == |values| && values[k - 1] == v
    {
      values := values + [v];
      k := |values|;
    }
  }

  method CompileRefListWhere(rel: string, op: Op, value: Value, params: Params) returns (r: Result<seq<Token>>)
    modifies params
    ensures Emitted(CompileRefList(rel, op, value, old(params.values)), r, params.values)
  {
    if op.Eq? {
      if !(value.One? && value.scalar.Str?) { return Err(ListFilter); }
      var k := params.Push(One(Str(rel)));
      var i := params.Push(value);
      return Ok([Edge(k, i, false)]);
    }
    if op.In? {
      if !value.Many? { return Err(NeedsArray); }
      if value.items == [] { return Ok([FalseT]); }
      var j := 0;
      while j < |value.items|
        invariant 0 <= j <= |value.items| && forall i :: 0 <= i < j ==> value.items[i].Str?
      {
        if !value.items[j].Str? { return Err(ListFilter); }
        j := j + 1;
      }
      var k := params.Push(One(Str(rel)));
      var i := params.Push(value);
      return Ok([Edge(k, i, true)]);
    }
    r := Err(ListFilter);
  }

  // What a run of the compiler must show: the tokens and parameters of the specification, or its refusal.
  ghost predicate Emitted(spec: Result<(seq<Token>, Bound)>, r: Result<seq<Token>>, values: Bound) {
    match spec
    case Ok((tokens, params)) => r == Ok(tokens) && values == params
    case Err(e) => r == Err(e)
  }

  method CompileLeafWhere(field: string, op: Op, value: Value, resolve: Resolver, params: Params)
    returns (r: Result<seq<Token>>)
    modifies params
    ensures Emitted(CompileLeaf(field, op, value, resolve, old(params.values)), r, params.values)
  {
    var found := resolve(field);
    if found.None? { return Err(UnknownField); }
    var col := found.value;
    if col.kind.RefList? {
      r := CompileRefListWhere(col.rel, op, value, params);
      return;
    }
    match op
    case IsNull => r := Ok([NullTest(col.column, true)]);
    case IsNotNull => r := Ok([NullTest(col.column, false)]);
    case In =>
      if !value.Many? { return Err(NeedsArray); }
      if value.items == [] { return Ok([FalseT]); }
      var j := 0;
      while j < |value.items|
        invariant 0 <= j <= |value.items| && forall i :: 0 <= i < j ==> KindTakes(col.kind, value.items[i])
      {
        if !KindTakes(col.kind, value.items[j]) { return Err(WrongType); }
        j := j + 1;
      }
      var k := params.Push(value);
      r := Ok([AnyOf(col.column, k)]);
    case Unknown => r := Err(UnknownOperator);
    case _ =>
      if !value.One? { return Err(NeedsScalar); }
      if !KindTakes(col.kind, value.scalar) { return Err(WrongType); }
      var k := params.Push(value);
      r := Ok([Compare(col.column, op, k)]);
  }

  method Compile(node: Where, resolve: Resolver, params: Params, depth: nat) returns (r: Result<seq<Token>>)
    modifies params
    ensures Emitted(CompileWhere(node, resolve, old(params.values), depth), r, params.values)
    decreases node
  {
    hide CompileLeaf, CompileJoin;
    if depth > MAX_AST_DEPTH { return Err(TooDeep); }
    match node
    case Broken => r := Err(Malformed);
    case And(nodes) =>
      if nodes == [] { return Err(EmptyAnd); }
      var joined := CompileEach(nodes, AndT, resolve, params, depth + 1);
      if joined.Err? { return joined; }
      r := Ok([LParen] + joined.value + [RParen]);
    case Or(nodes) =>
      if nodes == [] { return Err(EmptyOr); }
      var joined := CompileEach(nodes, OrT, resolve, params, depth + 1);
      if joined.Err? { return joined; }
      r := Ok([LParen] + joined.value + [RParen]);
    case Not(inner) =>
      var compiled := Compile(inner, resolve, params, depth + 1);
      if compiled.Err? { return compiled; }
      r := Ok([LParen, NotT] + compiled.value + [RParen]);
    case Leaf(field, op, value) => r := CompileLeafWhere(field, op, value, resolve, params);
  }

  // Where the join stands once the first i nodes have been emitted as text.
  function JoinFrom(nodes: seq<Where>, i: nat, glue: Token, resolve: Resolver, params: Bound, depth: nat,
                    text: seq<Token>)
    : Result<(seq<Token>, Bound)>
    requires i <= |nodes|
  {
    if i == |nodes| then Ok((text, params))
    else
      var rest :- CompileJoin(nodes[i..], glue, resolve, params, depth);
      Ok((if i == 0 then rest.0 else text + [glue] + rest.0, rest.1))
  }

  lemma JoinMoves(nodes: seq<Where>, i: nat, glue: Token, resolve: Resolver, params: Bound, depth: nat,
                  text: seq<Token>)
    requires i < |nodes|
    ensures JoinFrom(nodes, i, glue, resolve, params, depth, text)
         == match CompileWhere(nodes[i], resolve, params, depth)
            case Err(e) => Err(e)
            case Ok((one, more)) =>
              JoinFrom(nodes, i + 1, glue, resolve, more, depth, if i == 0 then one else text + [glue] + one)
  {
    hide CompileWhere;
    assert nodes[i..][0] == nodes[i] && nodes[i..][1..] == nodes[i + 1..];
    match CompileWhere(nodes[i], resolve, params, depth)
    case Err(_) =>
    case Ok((one, more)) =>
      if i + 1 < |nodes| {
        var tail := CompileJoin(nodes[i + 1..], glue, resolve, more, depth);
        if tail.Ok? {
          assert text + [glue] + (one + [glue] + tail.value.0) == text + [glue] + one + [glue] + tail.value.0;
        }
      }
  }

  // The map over an and/or's nodes, pushing onto the one list as it goes, then the join.
  method CompileEach(nodes: seq<Where>, glue: Token, resolve: Resolver, params: Params, depth: nat)
    returns (r: Result<seq<Token>>)
    requires nodes != []
    modifies params
    ensures Emitted(CompileJoin(nodes, glue, resolve, old(params.values), depth), r, params.values)
    decreases nodes
  {
    hide CompileWhere, CompileJoin, JoinFrom;
    var i, text: seq<Token> := 0, [];
    JoinStarts(nodes, glue, resolve, params.values, depth);
    while i < |nodes|
      invariant 0 <= i <= |nodes|
      invariant JoinFrom(nodes, i, glue, resolve, params.values, depth, text)
             == CompileJoin(nodes, glue, resolve, old(params.values), depth)
    {
      JoinMoves(nodes, i, glue, resolve, params.values, depth, text);
      var one := Compile(nodes[i], resolve, params, depth);
      if one.Err? { return one; }
      text := if i == 0 then one.value else text + [glue] + one.value;
      i := i + 1;
    }
    JoinEnds(nodes, glue, resolve, params.values, depth, text);
    r := Ok(text);
  }

  lemma JoinStarts(nodes: seq<Where>, glue: Token, resolve: Resolver, params: Bound, depth: nat)
    requires nodes != []
    ensures JoinFrom(nodes, 0, glue, resolve, params, depth, []) == CompileJoin(nodes, glue, resolve, params, depth)
  {
    hide CompileJoin;
    assert nodes[0..] == nodes;
  }

  lemma JoinEnds(nodes: seq<Where>, glue: Token, resolve: Resolver, params: Bound, depth: nat, text: seq<Token>)
    ensures JoinFrom(nodes, |nodes|, glue, resolve, params, depth, text) == Ok((text, params))
  {
  }

  // ---- what is accepted --------------------------------------------------------------------------

  function Height(node: Where): nat
    decreases node
  {
    match node
    case And(nodes) => HeightOfAll(nodes)
    case Or(nodes) => HeightOfAll(nodes)
    case Not(inner) => 1 + Height(inner)
    case _ => 0
  }

  function HeightOfAll(nodes: seq<Where>): nat
    decreases nodes
  {
    if nodes == [] then 0
    else
      var first, rest := 1 + Height(nodes[0]), HeightOfAll(nodes[1..]);
      if first < rest then rest else first
  }

  predicate AllStrings(items: seq<Scalar>) { forall i :: 0 <= i < |items| ==> items[i].Str? }
  predicate AllOfKind(kind: Kind, items: seq<Scalar>) { forall i :: 0 <= i < |items| ==> KindTakes(kind, items[i]) }

  // A filter on one field that the catalog knows and whose value fits it.
  predicate Filterable(resolve: Resolver, field: string, op: Op, value: Value) {
    && resolve(field).Some?
    && var col := resolve(field).value;
       if col.kind.RefList? then
         (op.Eq? && value.One? && value.scalar.Str?) || (op.In? && value.Many? && AllStrings(value.items))
       else
         || op.IsNull? || op.IsNotNull?
         || (op.In? && value.Many? && AllOfKind(col.kind, value.items))
         || (op !in {In, Unknown} && value.One? && KindTakes(col.kind, value.scalar))
  }

  predicate Proper(resolve: Resolver, node: Where)
    decreases node
  {
    match node
    case And(nodes) => nodes != [] && AllProper(resolve, nodes)
    case Or(nodes) => nodes != [] && AllProper(resolve, nodes)
    case Not(inner) => Proper(resolve, inner)
    case Leaf(field, op, value) => Filterable(resolve, field, op, value)
    case Broken => false
  }

  predicate AllProper(resolve: Resolver, nodes: seq<Where>)
    decreases nodes
  {
    nodes == [] || (Proper(resolve, nodes[0]) && AllProper(resolve, nodes[1..]))
  }

  lemma LeafAcceptedIff(field: string, op: Op, value: Value, resolve: Resolver, params: Bound)
    ensures CompileLeaf(field, op, value, resolve, params).Ok? <==> Filterable(resolve, field, op, value)
  {
  }

  // Accepted exactly when every field and value fits the catalog and nothing nests below level 8.
  lemma {:induction false} AcceptedIff(node: Where, resolve: Resolver, params: Bound, depth: nat)
    ensures CompileWhere(node, resolve, params, depth).Ok? <==>
              Proper(resolve, node) && depth + Height(node) <= MAX_AST_DEPTH
    decreases node
  {
    hide CompileLeaf, Filterable;
    match node
    case And(nodes) => if nodes != [] { AllAcceptedIff(nodes, AndT, resolve, params, depth + 1); }
    case Or(nodes) => if nodes != [] { AllAcceptedIff(nodes, OrT, resolve, params, depth + 1); }
    case Not(inner) => AcceptedIff(inner, resolve, params, depth + 1);
    case Leaf(field, op, value) => LeafAcceptedIff(field, op, value, resolve, params);
    case Broken =>
  }

  lemma {:induction false} AllAcceptedIff(nodes: seq<Where>, glue: Token, resolve: Resolver, params: Bound, depth: nat)
    requires nodes != [] && depth > 0
    ensures CompileJoin(nodes, glue, resolve, params, depth).Ok? <==>
              AllProper(resolve, nodes) && depth - 1 + HeightOfAll(nodes) <= MAX_AST_DEPTH
    decreases nodes
  {
    hide CompileWhere, Proper, Height, AllProper, HeightOfAll;
    AcceptedIff(nodes[0], resolve, params, depth);
    if |nodes| > 1 && CompileWhere(nodes[0], resolve, params, depth).Ok? {
      AllAcceptedIff(nodes[1..], glue, resolve, CompileWhere(nodes[0], resolve, params, depth).value.1, depth);
    }
    HeightOfMore(resolve, nodes);
  }

  lemma HeightOfMore(resolve: Resolver, nodes: seq<Where>)
    requires nodes != []
    ensures AllProper(resolve, nodes) <==> Proper(resolve, nodes[0]) && (|nodes| > 1 ==> AllProper(resolve, nodes[1..]))
    ensures |nodes| == 1 ==> HeightOfAll(nodes) == 1 + Height(nodes[0])
    ensures |nodes| > 1 ==> HeightOfAll(nodes) == if 1 + Height(nodes[0]) < HeightOfAll(nodes[1..])
                                                  then HeightOfAll(nodes[1..]) else 1 + Height(nodes[0])
  {
    hide Proper, Height;
    if |nodes| == 1 { assert AllProper(resolve, nodes[1..]) && HeightOfAll(nodes[1..]) == 0; }
  }

  // ---- what is bound ---------------------------------------------------------------------------------

  // The values a tree binds, left to right: every leaf its own, a list field its verb first.
  function Values(resolve: Resolver, node: Where): Bound
    decreases node
  {
    match node
    case And(nodes) => ValuesOfAll(resolve, nodes)
    case Or(nodes) => ValuesOfAll(resolve, nodes)
    case Not(inner) => Values(resolve, inner)
    case Broken => []
    case Leaf(field, op, value) =>
      if op.IsNull? || op.IsNotNull? || value == Many([]) then []
      else if resolve(field).Some? && resolve(field).value.kind.RefList?
      then [One(Str(resolve(field).value.rel)), value]
      else [value]
  }

  function ValuesOfAll(resolve: Resolver, nodes: seq<Where>): Bound
    decreases nodes
  {
    if nodes == [] then [] else Values(resolve, nodes[0]) + ValuesOfAll(resolve, nodes[1..])
  }

  // The seeds stay an untouched prefix; after them come the leaves' values and nothing else.
  lemma {:induction false} BindsExactly(node: Where, resolve: Resolver, params: Bound, depth: nat)
    requires CompileWhere(node, resolve, params, depth).Ok?
    ensures CompileWhere(node, resolve, params, depth).value.1 == params + Values(resolve, node)
    decreases node
  {
    match node
    case And(nodes) => BindsAllExactly(nodes, AndT, resolve, params, depth + 1);
    case Or(nodes) => BindsAllExactly(nodes, OrT, resolve, params, depth + 1);
    case Not(inner) => BindsExactly(inner, resolve, params, depth + 1);
    case Leaf(field, op, value) => assert params + [] == params;
    case Broken =>
  }

  lemma {:induction false} BindsAllExactly(nodes: seq<Where>, glue: Token, resolve: Resolver, params: Bound, depth: nat)
    requires nodes != [] && CompileJoin(nodes, glue, resolve, params, depth).Ok?
    ensures CompileJoin(nodes, glue, resolve, params, depth).value.1 == params + ValuesOfAll(resolve, nodes)
    decreases nodes
  {
    hide CompileWhere, Values;
    BindsExactly(nodes[0], resolve, params, depth);
    var first := params + Values(resolve, nodes[0]);
    if |nodes| > 1 {
      BindsAllExactly(nodes[1..], glue, resolve, first, depth);
      assert first + ValuesOfAll(resolve, nodes[1..])
          == params + (Values(resolve, nodes[0]) + ValuesOfAll(resolve, nodes[1..]));
    } else {
      assert nodes[1..] == [] && Values(resolve, nodes[0]) + [] == Values(resolve, nodes[0]);
    }
  }
}
