/**
Splicing a body into the query that calls it keeps the query's rows and their
order: the body's FROM items multiply the rows to their left exactly as the
call did, and the body's WHERE, moved to the end, drops the same ones.
*/
module Splicing {
  import opened Wrappers
  import opened Sql
  import opened Rewriting

  /** What the host writes to the right of a call under `alias`, against the
      body to be spliced: no alias of one is read by the other, and every read
      of the call names one of its columns. */
  ghost predicate Apart(rest: seq<Item>, where: Option<Expr>, ps: seq<Projection>, body: Query, alias: string,
                        own: set<string>)
  {
    var rs := ReadsOf(Query(rest, where, ps));
    && alias !in own && alias !in Aliases(rest)
    && Aliases(rest) !! own
    && NamesIn(rs) !! own
    && NamesIn(ReadsOfWhere(body.where) + ReadsOfProjections(body.projections)) !! Aliases(rest)
    && ReadsColumns(rs, alias, ColumnsOf(body))
  }

  /** Every read of `alias` is of one of `columns` (`_read_lateral`'s checks). */
  predicate ReadsColumns(rs: set<(string, seq<string>)>, alias: string, columns: map<string, Expr>)
  {
    forall r :: r in rs && r.0 == alias ==> r.1 != [] && r.1[0] in columns
  }

  /** The host's rows seen from the spliced query's: the same names, except the
      body's own, and the call's row as the record of the body's projections. */
  ghost predicate Sees(w: World, body: Query, alias: string, own: set<string>, env: Env, env': Env)
  {
    && (forall n :: n !in own && n != alias ==> Lookup(w, n, env') == Lookup(w, n, env))
    && alias in env
    && env[alias] == w.record(Columns(Header(body.projections), Project(w, body.projections, env')))
  }

  lemma {:induction false} ColumnsMapped(w: World, names: seq<string>, es: seq<Expr>, env: Env, n: string)
    requires |names| == |es| && n in Columns(names, es)
    ensures n in Columns(names, EvalAll(w, es, env))
    ensures Columns(names, EvalAll(w, es, env))[n] == Eval(w, Columns(names, es)[n], env)
    decreases |names|
  {
    var last := |names| - 1;
    assert EvalAll(w, es, env)[..last] == EvalAll(w, es[..last], env);
    if names[last] != n {
      ColumnsMapped(w, names[..last], es[..last], env, n);
    }
  }

  lemma CallReadMeans(w: World, body: Query, alias: string, own: set<string>, p: seq<string>, env: Env, env': Env)
    requires Lawful(w)
    requires Sees(w, body, alias, own, env, env')
    requires p != [] && p[0] in ColumnsOf(body)
    ensures Eval(w, LateralRead(alias, ColumnsOf(body))(alias, p), env') == Eval(w, Read(alias, p), env)
  {
    var columns := ColumnsOf(body);
    var names, es := Header(body.projections), ProjectionExprs(body.projections);
    assert EvalAll(w, es, env') == Project(w, body.projections, env');
    ColumnsMapped(w, names, es, env', p[0]);
    var v := Eval(w, columns[p[0]], env');
    assert w.field(env[alias], p[0]) == v;
    assert Eval(w, Read(alias, p), env) == Follow(w, v, p[1..]);
    if |p| > 1 {
      AccessorMeans(w, columns[p[0]], p[1..], env');
    }
  }

  /** A read of the host's means, after `_read_lateral`, what it meant before. */
  lemma LateralReadMeans(w: World, rs: set<(string, seq<string>)>, body: Query, alias: string, own: set<string>,
                         env: Env, env': Env)
    requires Lawful(w)
    requires Sees(w, body, alias, own, env, env')
    requires NamesIn(rs) !! own && ReadsColumns(rs, alias, ColumnsOf(body))
    ensures Faithful(w, rs, LateralRead(alias, ColumnsOf(body)), env, env')
  {
    forall n: string, p: seq<string> | (n, p) in rs
      ensures Eval(w, LateralRead(alias, ColumnsOf(body))(n, p), env') == Eval(w, Read(n, p), env)
    {
      assert (n, p).0 in NamesIn(rs);
      if n == alias {
        assert (n, p).1 != [] && (n, p).1[0] in ColumnsOf(body);
        CallReadMeans(w, body, alias, own, p, env, env');
      }
    }
  }

  lemma LateralWhere(w: World, where: Option<Expr>, f: Replacement, env: Env, env': Env)
    requires Faithful(w, ReadsOfWhere(where), f, env, env')
    ensures Passes(w, RewriteWhere(where, f), env') <==> Passes(w, where, env)
  {
    if where.Some? {
      RewriteMeans(w, where.value, f, env, env');
    }
  }

  lemma LateralSelect(w: World, ps: seq<Projection>, alias: string, columns: map<string, Expr>, env: Env, env': Env)
    requires Faithful(w, ReadsOfProjections(ps), LateralRead(alias, columns), env, env')
    ensures Project(w, LateralProjections(ps, alias, columns), env') == Project(w, ps, env)
  {
    var f := LateralRead(alias, columns);
    RewriteProjectionsMeans(w, ps, f, env, env');
    var ps' := LateralProjections(ps, alias, columns);
    forall i | 0 <= i < |ps| ensures ps'[i].expr == RewriteProjections(ps, f)[i].expr { }
    assert Project(w, ps', env') == Project(w, RewriteProjections(ps, f), env');
  }

  /** No argument of a parameter with a DEFAULT turns into NULL, unless NULL is
      the default: a NULL written there, and only there, means the default. */
  predicate NullsKept(fn: Function, args: seq<Expr>, f: Replacement)
  {
    forall j :: 0 <= j < |args| && j < |fn.params| && fn.params[j].default.Some? && IsNull(Rewrite(args[j], f))
      ==> IsNull(args[j]) || IsNull(fn.params[j].default.value)
  }

  lemma {:induction false} NullStays(e: Expr, f: Replacement)
    requires IsNull(e)
    ensures IsNull(Rewrite(e, f))
  {
    if e.Paren? {
      NullStays(e.inner, f);
    }
  }

  predicate ItemsKeepNulls(items: seq<Item>, f: Replacement)
  {
    forall i :: 0 <= i < |items| && items[i].Call? ==> NullsKept(items[i].fn, items[i].args, f)
  }

  /** A DEFAULT is a literal: it reads nothing. */
  predicate DefaultsClosed(fn: Function)
  {
    forall j :: 0 <= j < |fn.params| && fn.params[j].default.Some? ==> Reads(fn.params[j].default.value) == {}
  }

  predicate ItemsDefaultsClosed(items: seq<Item>)
  {
    forall i :: 0 <= i < |items| && items[i].Call? ==> DefaultsClosed(items[i].fn)
  }

  /** What a written argument is bound to means the same after a rewriting as
      before, but where it turned NULL: it then means the default, for NULL. */
  lemma ArgumentMeans(w: World, params: seq<Param>, args: seq<Expr>, f: Replacement, env: Env, env': Env, j: nat)
    requires j < |params| && j < |args| && Faithful(w, Reads(args[j]), f, env, env')
    requires params[j].default.Some? ==> Reads(params[j].default.value) == {}
    ensures var before, after := Eval(w, Bound(params, args)[j], env), Eval(w, Bound(params, RewriteAll(args, f))[j], env');
      if params[j].default.Some? && IsNull(Rewrite(args[j], f)) && !IsNull(args[j])
      then before == w.apply("null", []) && after == Eval(w, params[j].default.value, env)
      else after == before
  {
    RewriteMeans(w, args[j], f, env, env');
    assert RewriteAll(args, f)[j] == Rewrite(args[j], f);
    if params[j].default.Some? {
      ReadsDecide(w, params[j].default.value, env, env');
      if IsNull(args[j]) {
        NullStays(args[j], f);
      } else if IsNull(Rewrite(args[j], f)) {
        NullMeans(w, Rewrite(args[j], f), env');
      }
    }
  }

  lemma RewrittenArguments(w: World, fn: Function, args: seq<Expr>, f: Replacement, env: Env, env': Env)
    requires Faithful(w, ReadsOfAll(args), f, env, env')
    requires NullsKept(fn, args, f) && DefaultsClosed(fn)
    ensures Arguments(w, fn, RewriteAll(args, f), env') == Arguments(w, fn, args, env)
  {
    var params := fn.params;
    forall j | 0 <= j < |params|
      ensures Eval(w, Bound(params, RewriteAll(args, f))[j], env') == Eval(w, Bound(params, args)[j], env)
    {
      if j < |args| {
        assert Reads(args[j]) <= ReadsOfAll(args);
        ArgumentMeans(w, params, args, f, env, env', j);
        if params[j].default.Some? && IsNull(params[j].default.value) {
          NullMeans(w, params[j].default.value, env);
        }
      } else if params[j].default.Some? {
        ReadsDecide(w, params[j].default.value, env, env');
      } else {
        ReadsDecide(w, Op("null", []), env, env');
      }
    }
    assert EvalAll(w, Bound(params, RewriteAll(args, f)), env') == EvalAll(w, Bound(params, args), env);
  }

  lemma RewrittenItem(w: World, item: Item, f: Replacement, env: Env, env': Env)
    requires Faithful(w, ReadsOfItem(item), f, env, env')
    requires item.Call? ==> NullsKept(item.fn, item.args, f) && DefaultsClosed(item.fn)
    ensures Bindings(w, RewriteItem(item, f), env') == Bindings(w, item, env)
    ensures RewriteItem(item, f).alias == item.alias
  {
    match item
    case Source(op, args, alias, series) => RewriteAllMeans(w, args, f, env, env');
    case Call(fn, args, alias) => RewrittenArguments(w, fn, args, f, env, env');
    case Derived(_, _, _) =>
  }

  // To the right of the call

  /** Past the body's items, the spliced query goes on as the host did on the
      call's row, and drops everything where the body's WHERE does. */
  lemma {:induction false} SpliceTail(w: World, rest: seq<Item>, where: Option<Expr>, ps: seq<Projection>,
                                      body: Query, alias: string, own: set<string>, env: Env, env': Env)
    requires Lawful(w)
    requires Apart(rest, where, ps, body, alias, own)
    requires ItemsKeepNulls(rest, LateralRead(alias, ColumnsOf(body))) && ItemsDefaultsClosed(rest)
    requires Sees(w, body, alias, own, env, env')
    ensures var columns := ColumnsOf(body);
      var f := LateralRead(alias, columns);
      Rows(w, RewriteItems(rest, f), Conjoined(RewriteWhere(where, f), body.where), LateralProjections(ps, alias, columns), env')
      == if Passes(w, body.where, env') then Rows(w, rest, where, ps, env) else []
    decreases |rest|, 1, 0
  {
    var columns := ColumnsOf(body);
    var f := LateralRead(alias, columns);
    var rs := ReadsOf(Query(rest, where, ps));
    LateralReadMeans(w, rs, body, alias, own, env, env');
    if rest == [] {
      LateralWhere(w, where, f, env, env');
      LateralSelect(w, ps, alias, columns, env, env');
      ConjoinedPasses(w, RewriteWhere(where, f), body.where, env');
    } else {
      assert ReadsOfItem(rest[0]) <= ReadsOfItems(rest);
      RewrittenItem(w, rest[0], f, env, env');
      assert RewriteItems(rest, f)[1..] == RewriteItems(rest[1..], f);
      SpliceTailEach(w, Bindings(w, rest[0], env), rest, where, ps, body, alias, own, env, env');
    }
  }

  lemma {:induction false} SpliceTailEach(w: World, vs: seq<Value>, rest: seq<Item>, where: Option<Expr>,
                                          ps: seq<Projection>, body: Query, alias: string, own: set<string>,
                                          env: Env, env': Env)
    requires Lawful(w) && rest != []
    requires Apart(rest, where, ps, body, alias, own)
    requires ItemsKeepNulls(rest, LateralRead(alias, ColumnsOf(body))) && ItemsDefaultsClosed(rest)
    requires Sees(w, body, alias, own, env, env')
    ensures var columns := ColumnsOf(body);
      var f := LateralRead(alias, columns);
      Each(w, vs, rest[0].alias, RewriteItems(rest[1..], f), Conjoined(RewriteWhere(where, f), body.where),
           LateralProjections(ps, alias, columns), env')
      == if Passes(w, body.where, env') then Each(w, vs, rest[0].alias, rest[1..], where, ps, env) else []
    decreases |rest|, 0, |vs|
  {
    if vs != [] {
      var n := rest[0].alias;
      assert n in Aliases(rest);
      var inner, inner' := env[n := vs[0]], env'[n := vs[0]];
      BodyUnmoved(w, body, n, env', inner');
      assert Sees(w, body, alias, own, inner, inner');
      ApartFromRest(rest, where, ps, body, alias, own);
      SpliceTail(w, rest[1..], where, ps, body, alias, own, inner, inner');
      SpliceTailEach(w, vs[1..], rest, where, ps, body, alias, own, env, env');
    }
  }

  /** Binding a name the body does not read changes nothing it computes. */
  lemma BodyUnmoved(w: World, body: Query, name: string, env: Env, env': Env)
    requires name !in NamesIn(ReadsOfWhere(body.where) + ReadsOfProjections(body.projections))
    requires forall n :: n != name ==> Lookup(w, n, env') == Lookup(w, n, env)
    ensures Passes(w, body.where, env') <==> Passes(w, body.where, env)
    ensures Project(w, body.projections, env') == Project(w, body.projections, env)
  {
    var rs := ReadsOfWhere(body.where) + ReadsOfProjections(body.projections);
    if body.where.Some? {
      assert NamesIn(Reads(body.where.value)) <= NamesIn(rs);
      ReadsDecide(w, body.where.value, env, env');
    }
    forall i | 0 <= i < |body.projections|
      ensures Eval(w, body.projections[i].expr, env') == Eval(w, body.projections[i].expr, env)
    {
      assert Reads(body.projections[i].expr) <= ReadsOfProjections(body.projections);
      assert NamesIn(Reads(body.projections[i].expr)) <= NamesIn(rs);
      ReadsDecide(w, body.projections[i].expr, env, env');
    }
  }

  lemma ApartFromRest(rest: seq<Item>, where: Option<Expr>, ps: seq<Projection>, body: Query, alias: string,
                      own: set<string>)
    requires rest != [] && Apart(rest, where, ps, body, alias, own)
    ensures Apart(rest[1..], where, ps, body, alias, own)
  {
    assert Aliases(rest[1..]) <= Aliases(rest);
    assert ReadsOfItems(rest[1..]) <= ReadsOfItems(rest);
    assert NamesIn(ReadsOf(Query(rest[1..], where, ps))) <= NamesIn(ReadsOf(Query(rest, where, ps)));
  }

  // The body's own items

  lemma {:induction false} EachConcat(w: World, vs: seq<Value>, us: seq<Value>, alias: string, rest: seq<Item>,
                                      where: Option<Expr>, ps: seq<Projection>, env: Env)
    ensures Each(w, vs + us, alias, rest, where, ps, env)
         == Each(w, vs, alias, rest, where, ps, env) + Each(w, us, alias, rest, where, ps, env)
    decreases |vs|
  {
    if vs == [] {
      assert vs + us == us;
    } else {
      assert (vs + us)[1..] == vs[1..] + us;
      EachConcat(w, vs[1..], us, alias, rest, where, ps, env);
    }
  }

  ghost predicate SameOutside(w: World, own: set<string>, env: Env, env': Env)
  {
    forall n :: n !in own ==> Lookup(w, n, env') == Lookup(w, n, env)
  }

  /** The host's rows, one call row after another. */
  ghost function OverRows(w: World, rows: seq<seq<Value>>, body: Query, alias: string, host: Query, env: Env)
    : seq<seq<Value>>
    requires forall i :: 0 <= i < |rows| ==> |rows[i]| == |body.projections|
  {
    Each(w, Records(w, Header(body.projections), rows), alias, host.items, host.where, host.projections, env)
  }

  lemma OverRowsConcat(w: World, rows: seq<seq<Value>>, more: seq<seq<Value>>, body: Query, alias: string, host: Query,
                       env: Env)
    requires forall i :: 0 <= i < |rows| ==> |rows[i]| == |body.projections|
    requires forall i :: 0 <= i < |more| ==> |more[i]| == |body.projections|
    ensures OverRows(w, rows + more, body, alias, host, env)
         == OverRows(w, rows, body, alias, host, env) + OverRows(w, more, body, alias, host, env)
  {
    var names := Header(body.projections);
    assert Records(w, names, rows + more) == Records(w, names, rows) + Records(w, names, more);
    EachConcat(w, Records(w, names, rows), Records(w, names, more), alias, host.items, host.where, host.projections, env);
  }

  /** Past the body's items, `after` gives what the host gives on one call row. */
  ghost predicate GoesOn(w: World, after: Query, body: Query, alias: string, own: set<string>, host: Query, env: Env)
  {
    forall e: Env :: SameOutside(w, own, env, e) ==>
      Run(w, after, e) == OverRows(w, Rows(w, [], body.where, body.projections, e), body, alias, host, env)
  }

  /** The spliced FROM list runs over the rows the call would have returned. */
  lemma {:induction false} SpliceBody(w: World, items: seq<Item>, after: Query, body: Query, alias: string,
                                      own: set<string>, host: Query, env: Env, env': Env)
    requires GoesOn(w, after, body, alias, own, host, env)
    requires Aliases(items) <= own && SameOutside(w, own, env, env')
    ensures Rows(w, items + after.items, after.where, after.projections, env')
         == OverRows(w, Rows(w, items, body.where, body.projections, env'), body, alias, host, env)
    decreases |items|, 1, 0
  {
    if items == [] {
      assert items + after.items == after.items;
      assert Run(w, after, env') == Rows(w, after.items, after.where, after.projections, env');
    } else {
      assert (items + after.items)[1..] == items[1..] + after.items;
      SpliceBodyEach(w, Bindings(w, items[0], env'), items, after, body, alias, own, host, env, env');
    }
  }

  lemma {:induction false} SpliceBodyEach(w: World, vs: seq<Value>, items: seq<Item>, after: Query, body: Query,
                                          alias: string, own: set<string>, host: Query, env: Env, env': Env)
    requires items != []
    requires GoesOn(w, after, body, alias, own, host, env)
    requires Aliases(items) <= own && SameOutside(w, own, env, env')
    ensures Each(w, vs, items[0].alias, items[1..] + after.items, after.where, after.projections, env')
         == OverRows(w, Each(w, vs, items[0].alias, items[1..], body.where, body.projections, env'), body, alias, host, env)
    decreases |items|, 0, |vs|
  {
    if vs != [] {
      var n := items[0].alias;
      assert n in Aliases(items) && Aliases(items[1..]) <= Aliases(items);
      SpliceBody(w, items[1..], after, body, alias, own, host, env, env'[n := vs[0]]);
      SpliceBodyEach(w, vs[1..], items, after, body, alias, own, host, env, env');
      var first := Rows(w, items[1..], body.where, body.projections, env'[n := vs[0]]);
      var others := Each(w, vs[1..], n, items[1..], body.where, body.projections, env');
      OverRowsConcat(w, first, others, body, alias, host, env);
    }
  }

  lemma TailGoesOn(w: World, host: Query, body: Query, alias: string, own: set<string>, env: Env)
    requires Lawful(w)
    requires Apart(host.items, host.where, host.projections, body, alias, own)
    requires ItemsKeepNulls(host.items, LateralRead(alias, ColumnsOf(body))) && ItemsDefaultsClosed(host.items)
    ensures GoesOn(w, After(host, body, alias), body, alias, own, host, env)
  {
    var names := Header(body.projections);
    forall e: Env | SameOutside(w, own, env, e)
      ensures Run(w, After(host, body, alias), e)
           == OverRows(w, Rows(w, [], body.where, body.projections, e), body, alias, host, env)
    {
      var v := w.record(Columns(names, Project(w, body.projections, e)));
      var inner := env[alias := v];
      SpliceTail(w, host.items, host.where, host.projections, body, alias, own, inner, e);
      if Passes(w, body.where, e) {
        OneRow(w, v, alias, host, env);
        assert Records(w, names, Rows(w, [], body.where, body.projections, e)) == [v];
      }
    }
  }

  lemma OneRow(w: World, v: Value, alias: string, host: Query, env: Env)
    ensures Each(w, [v], alias, host.items, host.where, host.projections, env) == Run(w, host, env[alias := v])
  {
    assert [v][1..] == [];
    assert Each(w, [v][1..], alias, host.items, host.where, host.projections, env) == [];
  }

  // The whole query

  lemma {:induction false} Untouched(e: Expr, f: Replacement, alias: string)
    requires alias !in NamesIn(Reads(e))
    requires forall n: string, p: seq<string> :: n != alias ==> f(n, p) == Read(n, p)
    ensures Rewrite(e, f) == e
  {
    match e
    case Read(name, path) => assert (name, path) in Reads(e);
    case Dots(base, path) => Untouched(base, f, alias);
    case Paren(inner) => Untouched(inner, f, alias);
    case And(left, right) =>
      assert NamesIn(Reads(left)) <= NamesIn(Reads(e)) && NamesIn(Reads(right)) <= NamesIn(Reads(e));
      Untouched(left, f, alias); Untouched(right, f, alias);
    case Or(left, right) =>
      assert NamesIn(Reads(left)) <= NamesIn(Reads(e)) && NamesIn(Reads(right)) <= NamesIn(Reads(e));
      Untouched(left, f, alias); Untouched(right, f, alias);
    case Op(op, args) =>
      forall i | 0 <= i < |args| ensures Rewrite(args[i], f) == args[i] {
        assert Reads(args[i]) <= Reads(e);
        assert NamesIn(Reads(args[i])) <= NamesIn(Reads(e));
        Untouched(args[i], f, alias);
      }
      assert seq(|args|, i requires 0 <= i < |args| => Rewrite(args[i], f)) == args;
  }

  lemma ItemsUntouched(items: seq<Item>, f: Replacement, alias: string)
    requires forall i :: 0 <= i < |items| ==> !items[i].Call?
    requires alias !in NamesIn(ReadsOfItems(items))
    requires forall n: string, p: seq<string> :: n != alias ==> f(n, p) == Read(n, p)
    ensures RewriteItems(items, f) == items
  {
    forall i | 0 <= i < |items| ensures RewriteItem(items[i], f) == items[i] {
      if items[i].Source? {
        forall k | 0 <= k < |items[i].args| ensures Rewrite(items[i].args[k], f) == items[i].args[k] {
          assert Reads(items[i].args[k]) <= ReadsOfItem(items[i]) <= ReadsOfItems(items);
          Untouched(items[i].args[k], f, alias);
        }
        assert RewriteAll(items[i].args, f) == items[i].args;
      }
    }
  }

  /** Queries alike after a prefix are alike with it. */
  lemma {:induction false} PrefixMeans(w: World, prefix: seq<Item>, q: Query, q': Query, known: set<string>, env: Env)
    requires Aliases(prefix) <= known && env.Keys <= known
    requires |q'.projections| == |q.projections|
    requires forall e: Env :: e.Keys <= known ==> Run(w, q', e) == Run(w, q, e)
    ensures Run(w, q'.(items := prefix + q'.items), env) == Run(w, q.(items := prefix + q.items), env)
    decreases |prefix|, 1, 0
  {
    if prefix == [] {
      assert prefix + q'.items == q'.items && prefix + q.items == q.items;
      assert Run(w, q', env) == Run(w, q, env);
    } else {
      assert (prefix + q.items)[1..] == prefix[1..] + q.items;
      assert (prefix + q'.items)[1..] == prefix[1..] + q'.items;
      PrefixMeansEach(w, Bindings(w, prefix[0], env), prefix, q, q', known, env);
    }
  }

  lemma {:induction false} PrefixMeansEach(w: World, vs: seq<Value>, prefix: seq<Item>, q: Query, q': Query,
                                           known: set<string>, env: Env)
    requires prefix != [] && Aliases(prefix) <= known && env.Keys <= known
    requires |q'.projections| == |q.projections|
    requires forall e: Env :: e.Keys <= known ==> Run(w, q', e) == Run(w, q, e)
    ensures Each(w, vs, prefix[0].alias, prefix[1..] + q'.items, q'.where, q'.projections, env)
         == Each(w, vs, prefix[0].alias, prefix[1..] + q.items, q.where, q.projections, env)
    decreases |prefix|, 0, |vs|
  {
    if vs != [] {
      var n := prefix[0].alias;
      assert n in Aliases(prefix) && Aliases(prefix[1..]) <= Aliases(prefix);
      PrefixMeans(w, prefix[1..], q, q', known, env[n := vs[0]]);
      PrefixMeansEach(w, vs[1..], prefix, q, q', known, env);
    }
  }

  /** `body` gives the rows the call at `at` gives, whatever is to its left. */
  ghost predicate StandsFor(w: World, body: Query, item: Item, known: set<string>)
  {
    forall e: Env :: e.Keys <= known ==>
      Bindings(w, item, e) == Records(w, Header(body.projections), Run(w, body, e))
  }

  ghost predicate Spliceable(host: Query, at: nat, body: Query, known: set<string>)
    requires at < |host.items|
  {
    var alias := host.items[at].alias;
    var rest := host.items[at + 1..];
    && (forall i :: 0 <= i < at ==> !host.items[i].Call?)
    && alias !in NamesIn(ReadsOfItems(host.items[..at]))
    && Aliases(host.items) <= known && Aliases(body.items) !! known
    && Apart(rest, host.where, host.projections, body, alias, Aliases(body.items))
    && ItemsKeepNulls(rest, LateralRead(alias, ColumnsOf(body))) && ItemsDefaultsClosed(rest)
  }

  /** From the call on, the spliced query runs as the host does. */
  lemma SpliceOn(w: World, host: Query, at: nat, body: Query, known: set<string>, e: Env)
    requires Lawful(w) && at < |host.items| && e.Keys <= known
    requires Spliceable(host, at, body, known) && StandsFor(w, body, host.items[at], known)
    ensures var after := After(host.(items := host.items[at + 1..]), body, host.items[at].alias);
      Run(w, after.(items := body.items + after.items), e) == Run(w, host.(items := host.items[at..]), e)
  {
    var alias := host.items[at].alias;
    var rest := host.(items := host.items[at + 1..]);
    TailGoesOn(w, rest, body, alias, Aliases(body.items), e);
    SpliceBody(w, body.items, After(rest, body, alias), body, alias, Aliases(body.items), rest, e, e);
    assert Bindings(w, host.items[at], e) == Records(w, Header(body.projections), Run(w, body, e));
    assert host.items[at..][1..] == rest.items;
  }

  /** Splicing in a body that stands for the call keeps the rows and their order. */
  lemma SpliceMeans(w: World, host: Query, at: nat, body: Query, known: set<string>, env: Env)
    requires Lawful(w) && at < |host.items| && env.Keys <= known
    requires Spliceable(host, at, body, known) && StandsFor(w, body, host.items[at], known)
    ensures Run(w, Spliced(host, at, body), env) == Run(w, host, env)
  {
    hide *;
    var q := host.(items := host.items[at..]);
    var q' := FromCall(host, at, body);
    forall e: Env | e.Keys <= known ensures Run(w, q', e) == Run(w, q, e) {
      SpliceOn(w, host, at, body, known, e);
      FromCallIs(host, at, body);
    }
    SplicedSplits(host, at, body, known);
    PrefixMeans(w, host.items[..at], q, q', known, env);
  }

  /** The spliced query from the call's place on. */
  function FromCall(host: Query, at: nat, body: Query): Query
    requires at < |host.items|
  {
    var after := After(host.(items := host.items[at + 1..]), body, host.items[at].alias);
    after.(items := body.items + after.items)
  }

  lemma FromCallIs(host: Query, at: nat, body: Query)
    requires at < |host.items|
    ensures var after := After(host.(items := host.items[at + 1..]), body, host.items[at].alias);
      FromCall(host, at, body) == after.(items := body.items + after.items)
  {
  }

  lemma SplicedSplits(host: Query, at: nat, body: Query, known: set<string>)
    requires at < |host.items| && Spliceable(host, at, body, known)
    ensures var q, q' := host.(items := host.items[at..]), FromCall(host, at, body);
      && Aliases(host.items[..at]) <= known && |q'.projections| == |q.projections|
      && Spliced(host, at, body) == q'.(items := host.items[..at] + q'.items)
      && host == q.(items := host.items[..at] + q.items)
  {
    var alias, prefix := host.items[at].alias, host.items[..at];
    assert Aliases(prefix) <= Aliases(host.items);
    ItemsUntouched(prefix, LateralRead(alias, ColumnsOf(body)), alias);
    hide Spliceable, Aliases, ReadsOfItems, NamesIn;
    assert prefix + host.items[at..] == host.items;
    assert Spliced(host, at, body).items == prefix + FromCall(host, at, body).items;
  }
}
