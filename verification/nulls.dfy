/**
NULL is absence: written for a parameter with a DEFAULT it means the default
(`_bound`). An inlining that turns such an argument into a written NULL would
change what it means, so: when it does, and two ways for a script to be sure
that no inlining ever will.
*/
module Nulls {
  import opened Sql
  import opened Rewriting
  import opened Splicing
  import opened Instancing
  import opened Hosting

  /** An argument turns into NULL exactly when it is a column, in any parens,
      whose replacement is NULL. */
  lemma {:induction false} NullHandedOn(e: Expr, f: Replacement)
    ensures IsNull(Rewrite(e, f)) && !IsNull(e)
       <==> IsBare(e) && IsNull(f(Column(e).name, Column(e).path))
  {
    match e
    case Paren(inner) => NullHandedOn(inner, f);
    case Op(op, args) => assert IsNull(Rewrite(e, f)) ==> args == [];
    case _ =>
  }

  /** A parameter with a DEFAULT is then bound to that, so what it means is kept
      exactly when the argument did not turn NULL or the default means NULL too. */
  lemma DefaultTaken(w: World, params: seq<Param>, args: seq<Expr>, f: Replacement, env: Env, env': Env, j: nat)
    requires j < |params| && j < |args| && Faithful(w, Reads(args[j]), f, env, env')
    requires params[j].default.Some? && Reads(params[j].default.value) == {}
    ensures var turned := IsBare(args[j]) && IsNull(f(Column(args[j]).name, Column(args[j]).path));
      Eval(w, Bound(params, RewriteAll(args, f))[j], env') == Eval(w, Bound(params, args)[j], env)
      <==> !turned || Eval(w, params[j].default.value, env) == w.apply("null", [])
  {
    ArgumentMeans(w, params, args, f, env, env', j);
    NullHandedOn(args[j], f);
  }

  /** No parameter without a DEFAULT is left unwritten, and none is undeclared. */
  predicate ArgumentsFit(fn: Function, args: seq<Expr>)
  {
    |args| <= |fn.params| && forall j :: |args| <= j < |fn.params| ==> fn.params[j].default.Some?
  }

  // No NULL to hand on

  /** No NULL is an argument of a call, a default or a column of a function,
      wherever the FROM list leads. */
  predicate NullFreeItems(items: seq<Item>)
  {
    forall i :: 0 <= i < |items| && items[i].Call? ==> NullFree(items[i].fn) && NullFreeAll(items[i].args)
  }

  predicate NullFree(fn: Function)
  {
    && (forall j :: 0 <= j < |fn.params| && fn.params[j].default.Some? ==> !IsNull(fn.params[j].default.value))
    && NullFreeSelect(fn.body.projections)
    && NullFreeItems(fn.body.items)
  }

  predicate NullFreeAll(es: seq<Expr>)
  {
    forall i :: 0 <= i < |es| ==> !IsNull(es[i])
  }

  predicate NullFreeSelect(ps: seq<Projection>)
  {
    forall i :: 0 <= i < |ps| ==> !IsNull(ps[i].expr)
  }

  /** A replacement that puts in no NULL leaves none behind. */
  lemma NullFreeArguments(args: seq<Expr>, f: Replacement)
    requires NullFreeAll(args)
    requires forall n: string, p: seq<string> :: !IsNull(f(n, p))
    ensures NullFreeAll(RewriteAll(args, f))
  {
    forall j | 0 <= j < |args| ensures !IsNull(RewriteAll(args, f)[j]) {
      NullHandedOn(args[j], f);
    }
  }

  lemma NullFreeKeeps(items: seq<Item>, f: Replacement)
    requires NullFreeItems(items)
    requires forall n: string, p: seq<string> :: !IsNull(f(n, p))
    ensures ItemsKeepNulls(items, f)
    ensures forall i :: 0 <= i < |items| && items[i].Call? ==>
      NullFree(items[i].fn) && NullFreeAll(RewriteAll(items[i].args, f))
  {
    forall i | 0 <= i < |items| && items[i].Call?
      ensures NullFree(items[i].fn) && NullFreeAll(RewriteAll(items[i].args, f))
      ensures NullsKept(items[i].fn, items[i].args, f)
    {
      assert NullFree(items[i].fn) && NullFreeAll(items[i].args);
      hide NullFree;
      NullFreeArguments(items[i].args, f);
      forall j | 0 <= j < |items[i].args| ensures !IsNull(Rewrite(items[i].args[j], f)) {
        assert !IsNull(RewriteAll(items[i].args, f)[j]);
      }
    }
  }

  lemma NullFreeBindings(fn: Function, mapping: map<string, string>, args: seq<Expr>, n: string, p: seq<string>)
    requires NullFree(fn) && NullFreeAll(args) && ArgumentsFit(fn, args)
    requires RenamingOf(fn, mapping, args).Hygienic()
    ensures !IsNull(RenamingOf(fn, mapping, args).Reading()(n, p))
  {
    var r := RenamingOf(fn, mapping, args);
    if n in r.mapping {
      assert r.mapping[n] in r.mapping.Values;
    } else if n in r.bindings {
      var names, bound := ParamNames(fn.params), Bound(fn.params, args);
      ColumnsFrom(names, bound, n);
      var i :| 0 <= i < |bound| && names[i] == n && r.bindings[n] == bound[i];
      assert !IsNull(bound[i]);
    }
  }

  lemma InstanceNullFree(fn: Function, mapping: map<string, string>, args: seq<Expr>)
    requires NullFree(fn) && NullFreeAll(args) && ArgumentsFit(fn, args)
    requires RenamingOf(fn, mapping, args).Hygienic()
    ensures ItemsKeepNulls(fn.body.items, RenamingOf(fn, mapping, args).Reading())
    ensures NullFreeItems(Instance(fn, mapping, args).items)
    ensures NullFreeSelect(Instance(fn, mapping, args).projections)
  {
    var f := RenamingOf(fn, mapping, args).Reading();
    forall n: string, p: seq<string> ensures !IsNull(f(n, p)) {
      NullFreeBindings(fn, mapping, args, n, p);
    }
    var ps := fn.body.projections;
    assert NullFreeItems(fn.body.items) && NullFreeSelect(ps);
    hide NullFree, Renaming.Hygienic, Renaming.Reading, NullFreeAll, RewriteAll;
    NullFreeKeeps(fn.body.items, f);
    forall i | 0 <= i < |ps| ensures !IsNull(Rewrite(ps[i].expr, f)) {
      NullHandedOn(ps[i].expr, f);
    }
  }

  lemma ColumnNullFree(body: Query, alias: string, n: string, p: seq<string>)
    requires NullFreeSelect(body.projections)
    ensures !IsNull(LateralRead(alias, ColumnsOf(body))(n, p))
  {
    var names, es := Header(body.projections), ProjectionExprs(body.projections);
    if n == alias && p != [] && p[0] in ColumnsOf(body) {
      ColumnsFrom(names, es, p[0]);
      var i :| 0 <= i < |es| && names[i] == p[0] && ColumnsOf(body)[p[0]] == es[i];
      assert !IsNull(body.projections[i].expr);
    }
  }

  lemma SplicedNullFree(host: Query, at: nat, body: Query)
    requires at < |host.items| && CallFree(host.items[..at]) && CallFree(body.items)
    requires NullFreeItems(host.items) && NullFreeSelect(body.projections)
    ensures ItemsKeepNulls(host.items[at + 1..], LateralRead(host.items[at].alias, ColumnsOf(body)))
    ensures NullFreeItems(Spliced(host, at, body).items)
    ensures NullFreeSelect(host.projections) ==> NullFreeSelect(Spliced(host, at, body).projections)
  {
    var f := LateralRead(host.items[at].alias, ColumnsOf(body));
    var rest, items := host.items[at + 1..], Spliced(host, at, body).items;
    forall n: string, p: seq<string> ensures !IsNull(f(n, p)) {
      ColumnNullFree(body, host.items[at].alias, n, p);
    }
    assert NullFreeItems(rest) by {
      forall i | 0 <= i < |rest| && rest[i].Call? ensures NullFree(rest[i].fn) && NullFreeAll(rest[i].args) {
        assert rest[i] == host.items[at + 1 + i];
      }
    }
    hide NullFree, NullFreeAll, RewriteAll;
    NullFreeKeeps(rest, f);
    forall i | 0 <= i < |items| && items[i].Call? ensures NullFree(items[i].fn) && NullFreeAll(items[i].args) {
      SplicedCall(host, at, body, i);
    }
    forall i | 0 <= i < |host.projections| && !IsNull(host.projections[i].expr)
      ensures !IsNull(Spliced(host, at, body).projections[i].expr)
    {
      NullHandedOn(host.projections[i].expr, f);
    }
  }

  /** A call left after a splice stood to the right of the one spliced. */
  lemma SplicedCall(host: Query, at: nat, body: Query, i: nat)
    requires at < |host.items| && CallFree(host.items[..at]) && CallFree(body.items)
    requires i < |Spliced(host, at, body).items| && Spliced(host, at, body).items[i].Call?
    ensures at + |body.items| <= i < |body.items| + |host.items| - 1
    ensures var k := i - at - |body.items|;
      Spliced(host, at, body).items[i]
      == RewriteItem(host.items[at + 1..][k], LateralRead(host.items[at].alias, ColumnsOf(body)))
  {
    SplicedAt(host, at, body, i);
  }

  lemma SplicedAt(host: Query, at: nat, body: Query, i: nat)
    requires at < |host.items| && i < |Spliced(host, at, body).items|
    ensures |Spliced(host, at, body).items| == |body.items| + |host.items| - 1
    ensures var f := LateralRead(host.items[at].alias, ColumnsOf(body));
      Spliced(host, at, body).items[i]
      == if i < at then RewriteItem(host.items[..at][i], f)
         else if i < at + |body.items| then body.items[i - at]
         else RewriteItem(host.items[at + 1..][i - at - |body.items|], f)
  {
  }

  // No NULL where one would matter

  /** The aliases of FROM items that are no calls: no inlining replaces a read of one. */
  function RowAliases(items: seq<Item>): set<string>
  {
    set i | 0 <= i < |items| && !items[i].Call? :: items[i].alias
  }

  /** What a parameter with a DEFAULT is handed stays what it is: NULL is the
      default, or it is no bare column, or one of a table's own. */
  predicate SteadyArgument(param: Param, arg: Expr, rows: set<string>)
  {
    param.default.Some? ==> IsNull(param.default.value) || !IsBare(arg) || Column(arg).name in rows
  }

  predicate SteadyArguments(params: seq<Param>, args: seq<Expr>, rows: set<string>)
  {
    forall j :: 0 <= j < |args| && j < |params| ==> SteadyArgument(params[j], args[j], rows)
  }

  /** Every argument of every call stays what it is, wherever the FROM list leads. */
  predicate Steady(items: seq<Item>)
  {
    forall i :: 0 <= i < |items| && items[i].Call? ==>
      Steady(items[i].fn.body.items) && SteadyArguments(items[i].fn.params, items[i].args, RowAliases(items))
  }

  /** `f` leaves reads of `rows` reads, of one of `rows'`. */
  ghost predicate LeavesRows(f: Replacement, rows: set<string>, rows': set<string>)
  {
    forall n: string, p: seq<string> :: n in rows ==> f(n, p).Read? && f(n, p).name in rows'
  }

  lemma {:induction false} BareRewritten(e: Expr, f: Replacement)
    ensures IsBare(Rewrite(e, f)) ==> IsBare(e)
    ensures IsBare(e) && f(Column(e).name, Column(e).path).Read? ==>
      && IsBare(Rewrite(e, f)) && Column(Rewrite(e, f)) == f(Column(e).name, Column(e).path)
  {
    if e.Paren? {
      BareRewritten(e.inner, f);
    }
  }

  lemma SteadyRewritten(params: seq<Param>, args: seq<Expr>, f: Replacement, rows: set<string>, rows': set<string>)
    requires SteadyArguments(params, args, rows) && LeavesRows(f, rows, rows')
    ensures SteadyArguments(params, RewriteAll(args, f), rows')
    ensures forall j :: 0 <= j < |args| && j < |params| && params[j].default.Some? && IsNull(Rewrite(args[j], f)) ==>
      IsNull(args[j]) || IsNull(params[j].default.value)
  {
    forall j | 0 <= j < |args| && j < |params|
      ensures SteadyArgument(params[j], RewriteAll(args, f)[j], rows')
      ensures params[j].default.Some? && IsNull(Rewrite(args[j], f)) ==> IsNull(args[j]) || IsNull(params[j].default.value)
    {
      assert SteadyArgument(params[j], args[j], rows);
      BareRewritten(args[j], f);
      NullHandedOn(args[j], f);
    }
  }

  lemma SteadyKeeps(items: seq<Item>, f: Replacement, rows: set<string>, rows': set<string>)
    requires forall i :: 0 <= i < |items| && items[i].Call? ==>
      SteadyArguments(items[i].fn.params, items[i].args, rows)
    requires LeavesRows(f, rows, rows')
    ensures ItemsKeepNulls(items, f)
    ensures forall i :: 0 <= i < |items| && items[i].Call? ==>
      SteadyArguments(items[i].fn.params, RewriteAll(items[i].args, f), rows')
  {
    forall i | 0 <= i < |items| && items[i].Call?
      ensures NullsKept(items[i].fn, items[i].args, f)
      ensures SteadyArguments(items[i].fn.params, RewriteAll(items[i].args, f), rows')
    {
      SteadyRewritten(items[i].fn.params, items[i].args, f, rows, rows');
    }
  }

  lemma RowsRenamed(fn: Function, mapping: map<string, string>, args: seq<Expr>)
    requires RenamingOf(fn, mapping, args).Hygienic() && mapping.Keys == Aliases(fn.body.items)
    ensures LeavesRows(RenamingOf(fn, mapping, args).Reading(), RowAliases(fn.body.items),
                       RowAliases(Instance(fn, mapping, args).items))
  {
    var items, items' := fn.body.items, Instance(fn, mapping, args).items;
    forall n: string, p: seq<string> | n in RowAliases(items)
      ensures RenamingOf(fn, mapping, args).Reading()(n, p).Read?
      ensures RenamingOf(fn, mapping, args).Reading()(n, p).name in RowAliases(items')
    {
      var i: nat :| i < |items| && !items[i].Call? && items[i].alias == n;
      assert n in Aliases(items);
      hide *;
      AliasRenamed(RenamingOf(fn, mapping, args), n, p);
      RowRenamed(fn, mapping, args, i);
    }
  }

  lemma AliasRenamed(r: Renaming, n: string, p: seq<string>)
    requires r.Hygienic() && n in r.mapping
    ensures r.Reading()(n, p).Read? && r.Reading()(n, p).name == r.mapping[n]
  {
    assert r.mapping[n] in r.mapping.Values;
    assert r.Reading()(n, p) == Renamed(r.mapping, r.series, n, p);
  }

  lemma RowRenamed(fn: Function, mapping: map<string, string>, args: seq<Expr>, i: nat)
    requires i < |fn.body.items| && !fn.body.items[i].Call? && fn.body.items[i].alias in mapping
    ensures mapping[fn.body.items[i].alias] in RowAliases(Instance(fn, mapping, args).items)
  {
    var item := Instance(fn, mapping, args).items[i];
    assert !item.Call? && item.alias == mapping[fn.body.items[i].alias];
  }

  lemma InstanceSteady(fn: Function, mapping: map<string, string>, args: seq<Expr>)
    requires Steady(fn.body.items) && RenamingOf(fn, mapping, args).Hygienic()
    requires mapping.Keys == Aliases(fn.body.items)
    ensures ItemsKeepNulls(fn.body.items, RenamingOf(fn, mapping, args).Reading())
    ensures Steady(Instance(fn, mapping, args).items)
  {
    var f := RenamingOf(fn, mapping, args).Reading();
    var items, items' := fn.body.items, Instance(fn, mapping, args).items;
    RowsRenamed(fn, mapping, args);
    hide Renaming.Hygienic, Renaming.Reading, RowAliases, Aliases, RewriteAll, SteadyArguments;
    SteadyKeeps(items, f, RowAliases(items), RowAliases(items'));
    forall i | 0 <= i < |items'| && items'[i].Call?
      ensures Steady(items'[i].fn.body.items) && SteadyArguments(items'[i].fn.params, items'[i].args, RowAliases(items'))
    {
      assert items[i].Call? && items'[i].fn == items[i].fn && items'[i].args == RewriteAll(items[i].args, f);
    }
  }

  lemma SplicedSteady(host: Query, at: nat, body: Query)
    requires at < |host.items| && host.items[at].Call? && Distinct(host.items)
    requires CallFree(host.items[..at]) && CallFree(body.items) && Steady(host.items)
    ensures ItemsKeepNulls(host.items[at + 1..], LateralRead(host.items[at].alias, ColumnsOf(body)))
    ensures Steady(Spliced(host, at, body).items)
  {
    var alias := host.items[at].alias;
    var f := LateralRead(alias, ColumnsOf(body));
    var rest, items := host.items[at + 1..], Spliced(host, at, body).items;
    var rows, rows' := RowAliases(host.items), RowAliases(items);
    forall n: string, p: seq<string> | n in rows ensures f(n, p).Read? && f(n, p).name in rows' {
      var i :| 0 <= i < |host.items| && !host.items[i].Call? && host.items[i].alias == n;
      assert n != alias;
      RowStays(host, at, body, i);
    }
    forall i | 0 <= i < |rest| && rest[i].Call?
      ensures Steady(rest[i].fn.body.items) && SteadyArguments(rest[i].fn.params, rest[i].args, rows)
    {
      assert rest[i] == host.items[at + 1 + i];
    }
    hide RowAliases, RewriteAll, SteadyArguments, LateralRead;
    SteadyKeeps(rest, f, rows, rows');
    forall i | 0 <= i < |items| && items[i].Call?
      ensures Steady(items[i].fn.body.items) && SteadyArguments(items[i].fn.params, items[i].args, rows')
    {
      SplicedCall(host, at, body, i);
    }
  }

  lemma RowStays(host: Query, at: nat, body: Query, i: nat)
    requires at < |host.items| && i < |host.items| && i != at && !host.items[i].Call?
    ensures host.items[i].alias in RowAliases(Spliced(host, at, body).items)
  {
    var f := LateralRead(host.items[at].alias, ColumnsOf(body));
    var items := Spliced(host, at, body).items;
    if i < at {
      assert items[i] == RewriteItem(host.items[..at][i], f);
    } else {
      assert items[i - 1 + |body.items|] == RewriteItem(host.items[at + 1..][i - at - 1], f);
    }
  }
}
