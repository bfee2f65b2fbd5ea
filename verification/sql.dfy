/**
The part of the query language a function call in FROM is written in, and what
its rows are: comma joins read left to right, a WHERE, named projections, and
calls to functions whose body is itself one query.
*/
module Sql {
  import opened Wrappers

  /** Whatever a row, a column or an argument holds. Nothing is assumed of it. */
  type Value(!new)

  /** `Read` is a column: the leftmost identifier and the ones written after it. */
  datatype Expr =
    | Read(name: string, path: seq<string>)
    | Dots(base: Expr, path: seq<string>)
    | Paren(inner: Expr)
    | And(left: Expr, right: Expr)
    | Or(left: Expr, right: Expr)
    | Op(op: string, args: seq<Expr>)

  datatype Projection = Projection(expr: Expr, name: Option<string>)

  /** A FROM item. `Source` covers every item that is not a call: a table, an
      `unnest`, an `input`, and `generate_series` (`series`), whose alias names
      its one column too. `Derived` is a generated CTE read under an alias. */
  datatype Item =
    | Source(op: string, args: seq<Expr>, alias: string, series: bool)
    | Call(fn: Function, args: seq<Expr>, alias: string)
    | Derived(name: string, query: Query, alias: string)

  datatype Query = Query(items: seq<Item>, where: Option<Expr>, projections: seq<Projection>)

  datatype Param = Param(name: string, default: Option<Expr>)

  datatype Function = Function(name: string, params: seq<Param>, columns: seq<string>, body: Query)

  const TAGS := "tags"

  // The names a query writes

  function Reads(e: Expr): set<(string, seq<string>)>
  {
    match e
    case Read(name, path) => {(name, path)}
    case Dots(base, _) => Reads(base)
    case Paren(inner) => Reads(inner)
    case And(left, right) => Reads(left) + Reads(right)
    case Or(left, right) => Reads(left) + Reads(right)
    case Op(_, args) => set i, r | 0 <= i < |args| && r in Reads(args[i]) :: r
  }

  function ReadsOfAll(es: seq<Expr>): set<(string, seq<string>)>
  {
    set i, r | 0 <= i < |es| && r in Reads(es[i]) :: r
  }

  function ReadsOfItem(item: Item): set<(string, seq<string>)>
  {
    match item
    case Source(_, args, _, _) => ReadsOfAll(args)
    case Call(_, args, _) => ReadsOfAll(args)
    case Derived(_, _, _) => {}
  }

  function ReadsOfItems(items: seq<Item>): set<(string, seq<string>)>
  {
    set i, r | 0 <= i < |items| && r in ReadsOfItem(items[i]) :: r
  }

  function ReadsOfWhere(where: Option<Expr>): set<(string, seq<string>)>
  {
    if where.Some? then Reads(where.value) else {}
  }

  function ReadsOfProjections(ps: seq<Projection>): set<(string, seq<string>)>
  {
    set i, r | 0 <= i < |ps| && r in Reads(ps[i].expr) :: r
  }

  function ReadsOf(q: Query): set<(string, seq<string>)>
  {
    ReadsOfItems(q.items) + ReadsOfWhere(q.where) + ReadsOfProjections(q.projections)
  }

  function NamesIn(rs: set<(string, seq<string>)>): set<string>
  {
    set r | r in rs :: r.0
  }

  function Aliases(items: seq<Item>): set<string>
  {
    set i | 0 <= i < |items| :: items[i].alias
  }

  predicate Distinct(items: seq<Item>)
  {
    forall i, j :: 0 <= i < j < |items| ==> items[i].alias != items[j].alias
  }

  // Meaning

  /** The data a query runs over and what its operators compute. */
  datatype World = World(
    rows: (string, seq<Value>) -> seq<Value>,
    apply: (string, seq<Value>) -> Value,
    field: (Value, string) -> Value,
    record: map<string, Value> -> Value,
    conj: (Value, Value) -> Value,
    disj: (Value, Value) -> Value,
    holds: Value -> bool,
    missing: Value)

  /** A record's columns read back, nothing has no columns, and a conjunction
      holds exactly when both sides do: WHERE keeps a row on true alone. */
  ghost predicate Lawful(w: World)
  {
    && (forall c: string :: w.field(w.missing, c) == w.missing)
    && (forall m: map<string, Value>, c: string :: c in m ==> w.field(w.record(m), c) == m[c])
    && (forall a, b :: w.holds(w.conj(a, b)) <==> w.holds(a) && w.holds(b))
  }

  type Env = map<string, Value>

  ghost function Lookup(w: World, name: string, env: Env): Value
  {
    if name in env then env[name] else w.missing
  }

  ghost function Follow(w: World, v: Value, path: seq<string>): Value
  {
    if path == [] then v else Follow(w, w.field(v, path[0]), path[1..])
  }

  ghost function Eval(w: World, e: Expr, env: Env): Value
  {
    match e
    case Read(name, path) => Follow(w, Lookup(w, name, env), path)
    case Dots(base, path) => Follow(w, Eval(w, base, env), path)
    case Paren(inner) => Eval(w, inner, env)
    case And(left, right) => w.conj(Eval(w, left, env), Eval(w, right, env))
    case Or(left, right) => w.disj(Eval(w, left, env), Eval(w, right, env))
    case Op(op, args) => w.apply(op, seq(|args|, i requires 0 <= i < |args| => Eval(w, args[i], env)))
  }

  ghost function EvalAll(w: World, es: seq<Expr>, env: Env): (vs: seq<Value>)
    ensures |vs| == |es|
  {
    seq(|es|, i requires 0 <= i < |es| => Eval(w, es[i], env))
  }

  ghost predicate Passes(w: World, where: Option<Expr>, env: Env)
  {
    where.Some? ==> w.holds(Eval(w, where.value, env))
  }

  ghost function Project(w: World, ps: seq<Projection>, env: Env): (vs: seq<Value>)
    ensures |vs| == |ps|
  {
    seq(|ps|, i requires 0 <= i < |ps| => Eval(w, ps[i].expr, env))
  }

  /** The name a SELECT exposes a projection under: its alias, else the last
      identifier of a plain column; anything else names nothing. */
  function NameOf(p: Projection): string
  {
    match p.name
    case Some(name) => name
    case None =>
      if !p.expr.Read? then ""
      else if p.expr.path == [] then p.expr.name
      else p.expr.path[|p.expr.path| - 1]
  }

  function Header(ps: seq<Projection>): (names: seq<string>)
    ensures |names| == |ps|
  {
    seq(|ps|, i requires 0 <= i < |ps| => NameOf(ps[i]))
  }

  /** The columns by name; of two under one name, the last written stands. */
  function Columns<T>(names: seq<string>, values: seq<T>): (m: map<string, T>)
    requires |names| == |values|
    ensures m.Keys == set i | 0 <= i < |names| :: names[i]
    decreases |names|
  {
    if names == [] then map[]
    else
      var last := |names| - 1;
      var m := Columns(names[..last], values[..last])[names[last] := values[last]];
      assert forall n :: n in m.Keys <==> exists i :: 0 <= i < |names| && names[i] == n by {
        assert forall i :: 0 <= i < last ==> names[..last][i] == names[i];
        forall n | n in m.Keys ensures exists i :: 0 <= i < |names| && names[i] == n {
          if n == names[last] { } else { var i :| 0 <= i < last && names[..last][i] == n; assert names[i] == n; }
        }
        forall n | exists i :: 0 <= i < |names| && names[i] == n ensures n in m.Keys {
          var i :| 0 <= i < |names| && names[i] == n;
          if i < last { assert names[..last][i] == n; }
        }
      }
      m
  }

  /** Each row of values as one record value. */
  ghost function Records(w: World, names: seq<string>, rows: seq<seq<Value>>): (vs: seq<Value>)
    requires forall i :: 0 <= i < |rows| ==> |rows[i]| == |names|
    ensures |vs| == |rows|
  {
    seq(|rows|, i requires 0 <= i < |rows| => w.record(Columns(names, rows[i])))
  }

  /** A series row: the alias names its one column. */
  ghost function Wrapped(w: World, alias: string, vs: seq<Value>): (rs: seq<Value>)
    ensures |rs| == |vs|
  {
    seq(|vs|, i requires 0 <= i < |vs| => w.record(map[alias := vs[i]]))
  }

  /** A written NULL, through any wrapping parens (`_is_null`). */
  predicate IsNull(e: Expr)
  {
    match e
    case Paren(inner) => IsNull(inner)
    case Op(op, args) => op == "null" && args == []
    case _ => false
  }

  lemma {:induction false} NullMeans(w: World, e: Expr, env: Env)
    requires IsNull(e)
    ensures Eval(w, e, env) == w.apply("null", [])
  {
    match e
    case Paren(inner) => NullMeans(w, inner, env);
    case Op(op, args) =>
      assert seq(|args|, i requires 0 <= i < |args| => Eval(w, args[i], env)) == [];
  }

  /** A column and nothing around it but parens. */
  predicate IsBare(e: Expr)
  {
    match e
    case Paren(inner) => IsBare(inner)
    case _ => e.Read?
  }

  /** The column under the parens. */
  function Column(e: Expr): (read: Expr)
    requires IsBare(e)
    ensures read.Read? && Reads(read) == Reads(e)
  {
    match e
    case Paren(inner) => Column(inner)
    case _ => e
  }

  /** The argument bound to each parameter: what the call wrote, or the default
      of a parameter it left NULL or unwritten. */
  function Bound(params: seq<Param>, args: seq<Expr>): (bound: seq<Expr>)
    ensures |bound| == |params|
  {
    seq(|params|, i requires 0 <= i < |params| =>
      if params[i].default.Some? && (i >= |args| || IsNull(args[i])) then params[i].default.value
      else if i >= |args| then Op("null", [])
      else args[i])
  }

  function ParamNames(params: seq<Param>): (names: seq<string>)
    ensures |names| == |params|
  {
    seq(|params|, i requires 0 <= i < |params| => params[i].name)
  }

  /** The projections named for the declared columns, in order; a projection
      the body aliased `tags` keeps its name and is no declared column. */
  function NameColumns(ps: seq<Projection>, columns: seq<string>): (named: seq<Projection>)
    ensures |named| <= |ps|
    ensures forall i :: 0 <= i < |named| ==> named[i].expr == ps[i].expr && named[i].name.Some?
  {
    if ps == [] then []
    else if ps[0].name == Some(TAGS) then [ps[0]] + NameColumns(ps[1..], columns)
    else if columns == [] then []
    else [Projection(ps[0].expr, Some(columns[0]))] + NameColumns(ps[1..], columns[1..])
  }

  function Named(q: Query, columns: seq<string>): Query
  {
    q.(projections := NameColumns(q.projections, columns))
  }

  predicate IsTags(p: Projection) { p.name == Some(TAGS) }

  /** How many declared columns a SELECT list fills. */
  function Width(ps: seq<Projection>): nat
  {
    if ps == [] then 0 else (if IsTags(ps[0]) then 0 else 1) + Width(ps[1..])
  }

  /** Every row of a FROM list, a WHERE and a SELECT list over `env`, in order:
      the leftmost item varies slowest, and each item sees the ones before it. */
  ghost function Rows(w: World, items: seq<Item>, where: Option<Expr>, ps: seq<Projection>, env: Env)
    : (rows: seq<seq<Value>>)
    ensures forall i :: 0 <= i < |rows| ==> |rows[i]| == |ps|
    decreases items, 2, 0
  {
    if items == [] then
      if Passes(w, where, env) then [Project(w, ps, env)] else []
    else
      Each(w, Bindings(w, items[0], env), items[0].alias, items[1..], where, ps, env)
  }

  ghost function Each(w: World, vs: seq<Value>, alias: string, rest: seq<Item>, where: Option<Expr>,
                      ps: seq<Projection>, env: Env): (rows: seq<seq<Value>>)
    ensures forall i :: 0 <= i < |rows| ==> |rows[i]| == |ps|
    decreases rest, 3, |vs|
  {
    if vs == [] then []
    else Rows(w, rest, where, ps, env[alias := vs[0]]) + Each(w, vs[1..], alias, rest, where, ps, env)
  }

  /** What one FROM item binds its alias to, row by row. A call runs its body
      over its arguments alone: once per row of the items to its left. */
  ghost function Bindings(w: World, item: Item, env: Env): seq<Value>
    decreases item, 1, 0
  {
    match item
    case Source(op, args, alias, series) =>
      var vs := w.rows(op, EvalAll(w, args, env));
      if series then Wrapped(w, alias, vs) else vs
    case Call(fn, args, _) =>
      var ps := NameColumns(fn.body.projections, fn.columns);
      Records(w, Header(ps), Rows(w, fn.body.items, fn.body.where, ps, Arguments(w, fn, args, env)))
    case Derived(_, q, _) =>
      Records(w, Header(q.projections), Rows(w, q.items, q.where, q.projections, map[]))
  }

  ghost function Arguments(w: World, fn: Function, args: seq<Expr>, env: Env): Env
  {
    Columns(ParamNames(fn.params), EvalAll(w, Bound(fn.params, args), env))
  }

  ghost function Run(w: World, q: Query, env: Env): seq<seq<Value>>
  {
    Rows(w, q.items, q.where, q.projections, env)
  }

  /** The same rows in the same order under the same column names, over every
      world and every binding of the names `known` around the query. */
  ghost predicate SameMeaning(q: Query, q': Query, known: set<string>)
  {
    && Header(q'.projections) == Header(q.projections)
    && (forall w: World, env: Env :: Lawful(w) && env.Keys <= known ==> Run(w, q', env) == Run(w, q, env))
  }
}
