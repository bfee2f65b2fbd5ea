/**
The tree passes an inlining makes, each one a replacement of column reads, and
what they do to meaning: renaming a body's aliases, putting arguments in place
of parameters, and reading a call's columns off the projections behind them.
*/
module Rewriting {
  import opened Wrappers
  import opened Sql

  type Replacement = (string, seq<string>) -> Expr

  function Rewrite(e: Expr, f: Replacement): Expr
  {
    match e
    case Read(name, path) => f(name, path)
    case Dots(base, path) => Dots(Rewrite(base, f), path)
    case Paren(inner) => Paren(Rewrite(inner, f))
    case And(left, right) => And(Rewrite(left, f), Rewrite(right, f))
    case Or(left, right) => Or(Rewrite(left, f), Rewrite(right, f))
    case Op(op, args) => Op(op, seq(|args|, i requires 0 <= i < |args| => Rewrite(args[i], f)))
  }

  function RewriteAll(es: seq<Expr>, f: Replacement): (es': seq<Expr>)
    ensures |es'| == |es|
  {
    seq(|es|, i requires 0 <= i < |es| => Rewrite(es[i], f))
  }

  function RewriteItem(item: Item, f: Replacement): Item
  {
    match item
    case Source(op, args, alias, series) => Source(op, RewriteAll(args, f), alias, series)
    case Call(fn, args, alias) => Call(fn, RewriteAll(args, f), alias)
    case Derived(_, _, _) => item
  }

  function RewriteItems(items: seq<Item>, f: Replacement): (items': seq<Item>)
    ensures |items'| == |items|
    ensures forall i :: 0 <= i < |items| ==> items'[i] == RewriteItem(items[i], f)
  {
    seq(|items|, i requires 0 <= i < |items| => RewriteItem(items[i], f))
  }

  function RewriteWhere(where: Option<Expr>, f: Replacement): Option<Expr>
  {
    if where.Some? then Some(Rewrite(where.value, f)) else None
  }

  function RewriteProjections(ps: seq<Projection>, f: Replacement): (ps': seq<Projection>)
    ensures |ps'| == |ps|
    ensures forall i :: 0 <= i < |ps| ==> ps'[i] == Projection(Rewrite(ps[i].expr, f), ps[i].name)
  {
    seq(|ps|, i requires 0 <= i < |ps| => Projection(Rewrite(ps[i].expr, f), ps[i].name))
  }

  /** Replacements that mean in `env'` what the reads they replace mean in `env`. */
  ghost predicate Faithful(w: World, rs: set<(string, seq<string>)>, f: Replacement, env: Env, env': Env)
  {
    forall n: string, p: seq<string> :: (n, p) in rs ==> Eval(w, f(n, p), env') == Eval(w, Read(n, p), env)
  }

  lemma {:induction false} RewriteMeans(w: World, e: Expr, f: Replacement, env: Env, env': Env)
    requires Faithful(w, Reads(e), f, env, env')
    ensures Eval(w, Rewrite(e, f), env') == Eval(w, e, env)
  {
    match e
    case Read(name, path) => assert (name, path) in Reads(e);
    case Dots(base, path) => RewriteMeans(w, base, f, env, env');
    case Paren(inner) => RewriteMeans(w, inner, f, env, env');
    case And(left, right) => RewriteMeans(w, left, f, env, env'); RewriteMeans(w, right, f, env, env');
    case Or(left, right) => RewriteMeans(w, left, f, env, env'); RewriteMeans(w, right, f, env, env');
    case Op(op, args) =>
      forall i | 0 <= i < |args|
        ensures Eval(w, Rewrite(args[i], f), env') == Eval(w, args[i], env)
      {
        assert Reads(args[i]) <= Reads(e);
        RewriteMeans(w, args[i], f, env, env');
      }
      var args' := seq(|args|, i requires 0 <= i < |args| => Rewrite(args[i], f));
      assert seq(|args'|, i requires 0 <= i < |args'| => Eval(w, args'[i], env'))
          == seq(|args|, i requires 0 <= i < |args| => Eval(w, args[i], env));
  }

  lemma RewriteAllMeans(w: World, es: seq<Expr>, f: Replacement, env: Env, env': Env)
    requires Faithful(w, ReadsOfAll(es), f, env, env')
    ensures EvalAll(w, RewriteAll(es, f), env') == EvalAll(w, es, env)
  {
    forall i | 0 <= i < |es| ensures Eval(w, Rewrite(es[i], f), env') == Eval(w, es[i], env) {
      assert Reads(es[i]) <= ReadsOfAll(es);
      RewriteMeans(w, es[i], f, env, env');
    }
  }

  lemma RewriteProjectionsMeans(w: World, ps: seq<Projection>, f: Replacement, env: Env, env': Env)
    requires Faithful(w, ReadsOfProjections(ps), f, env, env')
    ensures Project(w, RewriteProjections(ps, f), env') == Project(w, ps, env)
  {
    forall i | 0 <= i < |ps| ensures Eval(w, Rewrite(ps[i].expr, f), env') == Eval(w, ps[i].expr, env) {
      assert Reads(ps[i].expr) <= ReadsOfProjections(ps);
      RewriteMeans(w, ps[i].expr, f, env, env');
    }
  }

  /** A rewritten expression reads only what the replacements read. */
  lemma {:induction false} RewriteReads(e: Expr, f: Replacement, n: string, p: seq<string>)
    requires (n, p) in Reads(Rewrite(e, f))
    ensures exists r :: r in Reads(e) && (n, p) in Reads(f(r.0, r.1))
  {
    match e
    case Read(name, path) => assert (name, path) in Reads(e);
    case Dots(base, path) => RewriteReads(base, f, n, p);
    case Paren(inner) => RewriteReads(inner, f, n, p);
    case And(left, right) =>
      if (n, p) in Reads(Rewrite(left, f)) { RewriteReads(left, f, n, p); } else { RewriteReads(right, f, n, p); }
    case Or(left, right) =>
      if (n, p) in Reads(Rewrite(left, f)) { RewriteReads(left, f, n, p); } else { RewriteReads(right, f, n, p); }
    case Op(op, args) =>
      var args' := seq(|args|, i requires 0 <= i < |args| => Rewrite(args[i], f));
      var i :| 0 <= i < |args'| && (n, p) in Reads(args'[i]);
      RewriteReads(args[i], f, n, p);
  }

  /** Meaning depends only on the names an expression reads. */
  lemma {:induction false} ReadsDecide(w: World, e: Expr, env: Env, env': Env)
    requires forall n :: n in NamesIn(Reads(e)) ==> Lookup(w, n, env') == Lookup(w, n, env)
    ensures Eval(w, e, env') == Eval(w, e, env)
  {
    match e
    case Read(name, path) => assert (name, path) in Reads(e);
    case Dots(base, path) => ReadsDecide(w, base, env, env');
    case Paren(inner) => ReadsDecide(w, inner, env, env');
    case And(left, right) =>
      assert NamesIn(Reads(left)) <= NamesIn(Reads(e)) && NamesIn(Reads(right)) <= NamesIn(Reads(e));
      ReadsDecide(w, left, env, env'); ReadsDecide(w, right, env, env');
    case Or(left, right) =>
      assert NamesIn(Reads(left)) <= NamesIn(Reads(e)) && NamesIn(Reads(right)) <= NamesIn(Reads(e));
      ReadsDecide(w, left, env, env'); ReadsDecide(w, right, env, env');
    case Op(op, args) =>
      forall i | 0 <= i < |args| ensures Eval(w, args[i], env') == Eval(w, args[i], env) {
        assert Reads(args[i]) <= Reads(e);
        assert NamesIn(Reads(args[i])) <= NamesIn(Reads(e));
        ReadsDecide(w, args[i], env, env');
      }
      assert seq(|args|, i requires 0 <= i < |args| => Eval(w, args[i], env'))
          == seq(|args|, i requires 0 <= i < |args| => Eval(w, args[i], env));
  }

  lemma FollowConcat(w: World, v: Value, p: seq<string>, q: seq<string>)
    ensures Follow(w, v, p + q) == Follow(w, Follow(w, v, p), q)
    decreases p
  {
    if p == [] {
      assert p + q == q;
    } else {
      assert (p + q)[1..] == p[1..] + q;
      FollowConcat(w, w.field(v, p[0]), p[1..], q);
    }
  }

  // `_accessor`

  /** How many identifiers one column can be written with. */
  const QUALIFIERS := 4

  /** A path read off an expression: one longer column where it fits, else dots. */
  function Accessor(argument: Expr, path: seq<string>): (read: Expr)
    ensures NamesIn(Reads(read)) == NamesIn(Reads(argument))
  {
    if argument.Read? && 1 + |argument.path| + |path| <= QUALIFIERS then
      assert NamesIn({(argument.name, argument.path + path)}) == {argument.name};
      assert NamesIn({(argument.name, argument.path)}) == {argument.name};
      Read(argument.name, argument.path + path)
    else Dots(Paren(argument), path)
  }

  /** Both shapes read the same thing. */
  lemma AccessorMeans(w: World, argument: Expr, path: seq<string>, env: Env)
    ensures Eval(w, Accessor(argument, path), env) == Follow(w, Eval(w, argument, env), path)
  {
    if argument.Read? {
      FollowConcat(w, Lookup(w, argument.name, env), argument.path, path);
    }
  }

  // One instance of a body: `_rename`, then `_substitute`

  /** The read once its alias is renamed: a series alias names its column too,
      which is the last identifier of a read that is not bare. */
  function Renamed(mapping: map<string, string>, series: set<string>, name: string, path: seq<string>): Expr
  {
    if name !in mapping then Read(name, path)
    else if path != [] && name in series && path[|path| - 1] == name then
      Read(mapping[name], path[..|path| - 1] + [mapping[name]])
    else Read(mapping[name], path)
  }

  function Substituted(bindings: map<string, Expr>, name: string, path: seq<string>): Expr
  {
    if name !in bindings then Read(name, path)
    else if path == [] then bindings[name]
    else Accessor(bindings[name], path)
  }

  /** Both passes over one read, in the order they run. */
  function Instantiated(mapping: map<string, string>, series: set<string>, bindings: map<string, Expr>): Replacement
  {
    (name, path) => Rewrite(Renamed(mapping, series, name, path), (n, p) => Substituted(bindings, n, p))
  }

  function SeriesAliases(items: seq<Item>): set<string>
  {
    set i | 0 <= i < |items| && items[i].Source? && items[i].series :: items[i].alias
  }

  function WithAlias(item: Item, alias: string): Item
  {
    match item
    case Source(op, args, _, series) => Source(op, args, alias, series)
    case Call(fn, args, _) => Call(fn, args, alias)
    case Derived(name, q, _) => Derived(name, q, alias)
  }

  function InstanceItem(item: Item, mapping: map<string, string>, f: Replacement): Item
  {
    RewriteItem(if item.alias in mapping then WithAlias(item, mapping[item.alias]) else item, f)
  }

  function InstanceItems(items: seq<Item>, mapping: map<string, string>, f: Replacement): (items': seq<Item>)
    ensures |items'| == |items|
    ensures forall i :: 0 <= i < |items| ==> items'[i] == InstanceItem(items[i], mapping, f)
  {
    seq(|items|, i requires 0 <= i < |items| => InstanceItem(items[i], mapping, f))
  }

  /** A private copy of `fn`'s body over the arguments of one call. */
  function Instance(fn: Function, mapping: map<string, string>, args: seq<Expr>): Query
  {
    var f := Instantiated(mapping, SeriesAliases(fn.body.items), Columns(ParamNames(fn.params), Bound(fn.params, args)));
    Query(InstanceItems(fn.body.items, mapping, f),
          RewriteWhere(fn.body.where, f),
          RewriteProjections(fn.body.projections, f))
  }

  // `_read_lateral`

  /** What a read of the call's alias becomes: the projection behind its column,
      and the rest of the path read off that. */
  function LateralRead(alias: string, columns: map<string, Expr>): Replacement
  {
    (name, path) =>
      if name != alias || path == [] || path[0] !in columns then Read(name, path)
      else if |path| == 1 then columns[path[0]]
      else Accessor(columns[path[0]], path[1..])
  }

  /** An unaliased projection that was one read of the call keeps the name it
      was read under. */
  function LateralProjection(p: Projection, alias: string, columns: map<string, Expr>): Projection
  {
    var read := Rewrite(p.expr, LateralRead(alias, columns));
    if p.expr.Read? && p.expr.name == alias && p.name.None? then Projection(read, Some(NameOf(p)))
    else Projection(read, p.name)
  }

  function LateralProjections(ps: seq<Projection>, alias: string, columns: map<string, Expr>): (ps': seq<Projection>)
    ensures |ps'| == |ps|
    ensures forall i :: 0 <= i < |ps| ==> ps'[i] == LateralProjection(ps[i], alias, columns)
  {
    seq(|ps|, i requires 0 <= i < |ps| => LateralProjection(ps[i], alias, columns))
  }

  function ProjectionExprs(ps: seq<Projection>): (es: seq<Expr>)
    ensures |es| == |ps|
  {
    seq(|ps|, i requires 0 <= i < |ps| => ps[i].expr)
  }

  /** The expression behind each column of an instance. */
  function ColumnsOf(q: Query): map<string, Expr>
  {
    Columns(Header(q.projections), ProjectionExprs(q.projections))
  }

  // `_and_into`

  function Conjoined(host: Option<Expr>, body: Option<Expr>): Option<Expr>
  {
    if body.None? then host
    else
      var conjunct := if body.value.Or? then Paren(body.value) else body.value;
      if host.Some? then Some(And(host.value, conjunct)) else Some(conjunct)
  }

  lemma ConjoinedPasses(w: World, host: Option<Expr>, body: Option<Expr>, env: Env)
    requires Lawful(w)
    ensures Passes(w, Conjoined(host, body), env) <==> Passes(w, host, env) && Passes(w, body, env)
  {
    if body.Some? {
      var conjunct := if body.value.Or? then Paren(body.value) else body.value;
      assert Eval(w, conjunct, env) == Eval(w, body.value, env);
    }
  }

  /** What the host writes after a call, once the call's body is spliced in. */
  function After(host: Query, body: Query, alias: string): Query
  {
    var columns := ColumnsOf(body);
    var f := LateralRead(alias, columns);
    Query(RewriteItems(host.items, f),
          Conjoined(RewriteWhere(host.where, f), body.where),
          LateralProjections(host.projections, alias, columns))
  }

  /** The body's FROM items in the call's place, its WHERE joined to the host's,
      and every read of the call replaced (`_read_lateral`, `_splice_over`). */
  function Spliced(host: Query, at: nat, body: Query): Query
    requires at < |host.items|
  {
    var alias := host.items[at].alias;
    var after := After(host.(items := host.items[at + 1..]), body, alias);
    after.(items := RewriteItems(host.items[..at], LateralRead(alias, ColumnsOf(body))) + body.items + after.items)
  }
}
