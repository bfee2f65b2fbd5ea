/**
One instance of a function's body means what the call means: aliases renamed
fresh and arguments put in place of parameters, so that the body reads nothing
of the caller's but what the arguments read.
*/
module Instancing {
  import opened Wrappers
  import opened Sql
  import opened Rewriting
  import opened Splicing
  import Names

  /** What every definition is checked for before a call can reach it, and what
      resolving demands of a FROM item that is not a call: it reads names bound
      to its left. */
  ghost predicate WellFormed(fn: Function)
  {
    && WellFormedItems(fn.body.items)
    && Aliases(fn.body.items) !! ParamSet(fn)
    && NamesIn(ReadsOf(fn.body)) <= Aliases(fn.body.items) + ParamSet(fn)
    && SeriesReadWhole(fn.body)
    && DefaultsClosed(fn)
    && Width(fn.body.projections) == |fn.columns| && NoLooseTags(fn.body)
    && (forall p :: p in ParamSet(fn) ==> !Generated(fn, p))
  }

  /** What an alias of `fn`'s body is renamed to, in the instance of some
      number: `<fn>_<n>_<alias>`, and underscores. */
  ghost predicate Generated(fn: Function, name: string)
  {
    exists n: nat, alias: string :: alias in Aliases(fn.body.items) && GeneratedFrom(fn, n, alias, name)
  }

  ghost predicate GeneratedFrom(fn: Function, n: nat, alias: string, name: string)
  {
    Names.Padded(fn.name + "_" + Names.Decimal(n + 1) + "_" + alias, name)
  }

  ghost predicate WellFormedItems(items: seq<Item>)
  {
    && Distinct(items)
    && (forall i :: 0 <= i < |items| && items[i].Call? ==> WellFormed(items[i].fn))
    && (forall i, j :: 0 <= i <= j < |items| && items[i].Source? ==>
          items[j].alias !in NamesIn(ReadsOfItem(items[i])))
  }

  function CallAliases(items: seq<Item>): set<string>
  {
    set i | 0 <= i < |items| && items[i].Call? :: items[i].alias
  }

  /** No unaliased projection reads a call's `tags`: inlining the call would
      alias it `tags`, and it would no longer fill a declared column. */
  ghost predicate NoLooseTags(q: Query)
  {
    forall i :: 0 <= i < |q.projections| ==>
      var p := q.projections[i];
      p.name.None? && p.expr.Read? && p.expr.name in CallAliases(q.items) ==> NameOf(p) != TAGS
  }

  function ParamSet(fn: Function): set<string>
  {
    set i | 0 <= i < |fn.params| :: fn.params[i].name
  }

  /** A series is read only as its own one column, `i.i`. */
  ghost predicate SeriesReadWhole(q: Query)
  {
    forall r :: r in ReadsOf(q) && r.0 in SeriesAliases(q.items) ==> r.1 == [r.0]
  }

  predicate Injective(m: map<string, string>)
  {
    forall a, b :: a in m && b in m && m[a] == m[b] ==> a == b
  }

  /** Everything one instance is made with: where its aliases go, which of them
      are series, and the argument bound to each parameter. */
  datatype Renaming = Renaming(mapping: map<string, string>, series: set<string>, bindings: map<string, Expr>) {
    function Reading(): Replacement
    {
      Instantiated(mapping, series, bindings)
    }

    ghost predicate Hygienic()
    {
      && Injective(mapping)
      && bindings.Keys !! mapping.Keys
      && bindings.Keys !! mapping.Values
      && (forall p :: p in bindings ==> NamesIn(Reads(bindings[p])) !! mapping.Values)
    }

    /** What the instance sees in `env'` is what the body sees in `env`. */
    ghost predicate Mirrors(w: World, env: Env, env': Env)
    {
      && (forall b :: b in mapping ==>
            && (b in env <==> mapping[b] in env')
            && (b in env ==>
                  if b in series then w.field(env[b], b) == w.field(env'[mapping[b]], mapping[b])
                  else env[b] == env'[mapping[b]]))
      && (forall p :: p in bindings ==> p in env && Eval(w, bindings[p], env') == env[p])
    }

    ghost predicate Covers(rs: set<(string, seq<string>)>)
    {
      forall r :: r in rs ==>
        && (r.0 in mapping || r.0 in bindings)
        && (r.0 in series ==> r.1 == [r.0])
    }
  }

  lemma FollowOne(w: World, v: Value, c: string)
    ensures Follow(w, v, [c]) == w.field(v, c)
  {
    assert [c][1..] == [];
    assert Follow(w, w.field(v, c), [c][1..]) == w.field(v, c);
  }

  lemma ReadMirrored(w: World, r: Renaming, n: string, p: seq<string>, env: Env, env': Env)
    requires Lawful(w) && r.Hygienic() && r.Mirrors(w, env, env')
    requires r.Covers({(n, p)})
    ensures Eval(w, r.Reading()(n, p), env') == Eval(w, Read(n, p), env)
  {
    assert (n, p) in {(n, p)};
    if n in r.mapping {
      var renamed := Renamed(r.mapping, r.series, n, p);
      assert r.mapping[n] in r.mapping.Values;
      assert r.Reading()(n, p) == renamed;
      if n in r.series {
        assert p == [n] && renamed.path == [r.mapping[n]];
        FollowOne(w, Lookup(w, r.mapping[n], env'), r.mapping[n]);
        FollowOne(w, Lookup(w, n, env), n);
      }
    } else {
      assert n in r.bindings;
      if p != [] {
        AccessorMeans(w, r.bindings[n], p, env');
      }
    }
  }

  lemma MirrorFaithful(w: World, r: Renaming, rs: set<(string, seq<string>)>, env: Env, env': Env)
    requires Lawful(w) && r.Hygienic() && r.Mirrors(w, env, env') && r.Covers(rs)
    ensures Faithful(w, rs, r.Reading(), env, env')
  {
    forall n: string, p: seq<string> | (n, p) in rs
      ensures Eval(w, r.Reading()(n, p), env') == Eval(w, Read(n, p), env)
    {
      assert (n, p).0 in r.mapping || (n, p).0 in r.bindings;
      assert (n, p).0 in r.series ==> (n, p).1 == [n];
      ReadMirrored(w, r, n, p, env, env');
    }
  }

  /** Binding an alias and its fresh name to the same row keeps the mirror. */
  lemma MirrorBind(w: World, r: Renaming, b: string, v: Value, v': Value, env: Env, env': Env)
    requires r.Hygienic() && r.Mirrors(w, env, env') && b in r.mapping
    requires if b in r.series then w.field(v, b) == w.field(v', r.mapping[b]) else v == v'
    ensures r.Mirrors(w, env[b := v], env'[r.mapping[b] := v'])
  {
    var n := r.mapping[b];
    assert n in r.mapping.Values;
    forall p | p in r.bindings ensures Eval(w, r.bindings[p], env'[n := v']) == env[p] {
      assert n !in NamesIn(Reads(r.bindings[p]));
      ReadsDecide(w, r.bindings[p], env', env'[n := v']);
    }
  }

  /** The body's remaining FROM items fit the renaming. */
  ghost predicate Fits(r: Renaming, items: seq<Item>, where: Option<Expr>, ps: seq<Projection>)
  {
    && Aliases(items) <= r.mapping.Keys
    && (forall i :: 0 <= i < |items| ==> (items[i].alias in r.series <==> items[i].Source? && items[i].series))
    && r.Covers(ReadsOf(Query(items, where, ps)))
    && ItemsDefaultsClosed(items)
  }

  /** Row by row the same, the fresh name for the old. */
  ghost predicate Matching(w: World, r: Renaming, b: string, vs: seq<Value>, vs': seq<Value>)
    requires b in r.mapping
  {
    && |vs| == |vs'|
    && (forall i :: 0 <= i < |vs| ==>
          if b in r.series then w.field(vs[i], b) == w.field(vs'[i], r.mapping[b]) else vs[i] == vs'[i])
  }

  lemma ItemMirrored(w: World, r: Renaming, item: Item, env: Env, env': Env)
    requires Lawful(w) && r.Hygienic() && r.Mirrors(w, env, env')
    requires item.alias in r.mapping && (item.alias in r.series <==> item.Source? && item.series)
    requires r.Covers(ReadsOfItem(item))
    requires item.Call? ==> NullsKept(item.fn, item.args, r.Reading()) && DefaultsClosed(item.fn)
    ensures Matching(w, r, item.alias, Bindings(w, item, env), Bindings(w, InstanceItem(item, r.mapping, r.Reading()), env'))
  {
    MirrorFaithful(w, r, ReadsOfItem(item), env, env');
    var f := r.Reading();
    match item
    case Source(op, args, alias, series) =>
      RewriteAllMeans(w, args, f, env, env');
      if series {
        var vs := w.rows(op, EvalAll(w, args, env));
        forall i | 0 <= i < |vs|
          ensures w.field(Wrapped(w, alias, vs)[i], alias) == w.field(Wrapped(w, r.mapping[alias], vs)[i], r.mapping[alias])
        {
          assert alias in map[alias := vs[i]] && r.mapping[alias] in map[r.mapping[alias] := vs[i]];
        }
      }
    case Call(fn, args, alias) => RewrittenArguments(w, fn, args, f, env, env');
    case Derived(_, _, _) =>
  }

  lemma {:induction false} RowsMirrored(w: World, r: Renaming, items: seq<Item>, where: Option<Expr>,
                                        ps: seq<Projection>, env: Env, env': Env)
    requires Lawful(w) && r.Hygienic() && r.Mirrors(w, env, env')
    requires Fits(r, items, where, ps) && ItemsKeepNulls(items, r.Reading())
    ensures Rows(w, InstanceItems(items, r.mapping, r.Reading()), RewriteWhere(where, r.Reading()),
                 RewriteProjections(ps, r.Reading()), env')
         == Rows(w, items, where, ps, env)
    decreases |items|, 1, 0
  {
    var f := r.Reading();
    MirrorFaithful(w, r, ReadsOf(Query(items, where, ps)), env, env');
    if items == [] {
      LateralWhere(w, where, f, env, env');
      RewriteProjectionsMeans(w, ps, f, env, env');
    } else {
      assert ReadsOfItem(items[0]) <= ReadsOfItems(items);
      assert items[0].alias in Aliases(items);
      ItemMirrored(w, r, items[0], env, env');
      assert InstanceItems(items, r.mapping, f)[1..] == InstanceItems(items[1..], r.mapping, f);
      RowsMirroredEach(w, r, Bindings(w, items[0], env), Bindings(w, InstanceItem(items[0], r.mapping, f), env'),
                       items, where, ps, env, env');
    }
  }

  lemma FitsRest(r: Renaming, items: seq<Item>, where: Option<Expr>, ps: seq<Projection>)
    requires items != [] && Fits(r, items, where, ps) && ItemsKeepNulls(items, r.Reading())
    ensures Fits(r, items[1..], where, ps) && ItemsKeepNulls(items[1..], r.Reading())
  {
    assert Aliases(items[1..]) <= Aliases(items);
    assert ReadsOfItems(items[1..]) <= ReadsOfItems(items);
  }

  lemma {:induction false} RowsMirroredEach(w: World, r: Renaming, vs: seq<Value>, vs': seq<Value>, items: seq<Item>,
                                            where: Option<Expr>, ps: seq<Projection>, env: Env, env': Env)
    requires Lawful(w) && r.Hygienic() && r.Mirrors(w, env, env')
    requires Fits(r, items, where, ps) && ItemsKeepNulls(items, r.Reading())
    requires items != [] && items[0].alias in r.mapping && Matching(w, r, items[0].alias, vs, vs')
    ensures Each(w, vs', r.mapping[items[0].alias], InstanceItems(items[1..], r.mapping, r.Reading()),
                 RewriteWhere(where, r.Reading()), RewriteProjections(ps, r.Reading()), env')
         == Each(w, vs, items[0].alias, items[1..], where, ps, env)
    decreases |items|, 0, |vs|
  {
    if vs != [] {
      var b := items[0].alias;
      MirrorBind(w, r, b, vs[0], vs'[0], env, env');
      FitsRest(r, items, where, ps);
      hide Fits, ItemsKeepNulls, Renaming.Mirrors, Renaming.Hygienic, Lawful;
      RowsMirrored(w, r, items[1..], where, ps, env[b := vs[0]], env'[r.mapping[b] := vs'[0]]);
      RowsMirroredEach(w, r, vs[1..], vs'[1..], items, where, ps, env, env');
    }
  }

  // The whole body

  /** The renaming one call's instance is made with. */
  function RenamingOf(fn: Function, mapping: map<string, string>, args: seq<Expr>): Renaming
  {
    Renaming(mapping, SeriesAliases(fn.body.items), Columns(ParamNames(fn.params), Bound(fn.params, args)))
  }

  lemma {:induction false} ColumnsFrom<T>(names: seq<string>, values: seq<T>, n: string)
    requires |names| == |values| && n in Columns(names, values)
    ensures exists i :: 0 <= i < |values| && names[i] == n && Columns(names, values)[n] == values[i]
    decreases |names|
  {
    var last := |names| - 1;
    if names[last] != n {
      ColumnsFrom(names[..last], values[..last], n);
      var i :| 0 <= i < last && names[..last][i] == n && Columns(names[..last], values[..last])[n] == values[..last][i];
      assert names[i] == n && Columns(names, values)[n] == values[i];
    }
  }

  /** An argument reads what the call wrote; a DEFAULT reads nothing. */
  lemma BindingReads(fn: Function, args: seq<Expr>, p: string)
    requires DefaultsClosed(fn)
    requires p in Columns(ParamNames(fn.params), Bound(fn.params, args))
    ensures Reads(Columns(ParamNames(fn.params), Bound(fn.params, args))[p]) <= ReadsOfAll(args)
    ensures p in ParamSet(fn)
  {
    var names, bound := ParamNames(fn.params), Bound(fn.params, args);
    ColumnsFrom(names, bound, p);
    var i :| 0 <= i < |bound| && names[i] == p && Columns(names, bound)[p] == bound[i];
    assert fn.params[i].name == p;
    if i < |args| {
      assert Reads(args[i]) <= ReadsOfAll(args);
    }
  }

  /** Names for a call's instance that collide with nothing around the call. */
  ghost predicate FreshFor(fn: Function, mapping: map<string, string>, args: seq<Expr>, known: set<string>)
  {
    && mapping.Keys == Aliases(fn.body.items) && Injective(mapping)
    && mapping.Values !! known && mapping.Values !! ParamSet(fn)
    && NamesIn(ReadsOfAll(args)) <= known
  }

  lemma InstanceHygienic(fn: Function, mapping: map<string, string>, args: seq<Expr>, known: set<string>)
    requires WellFormed(fn) && FreshFor(fn, mapping, args, known)
    ensures RenamingOf(fn, mapping, args).Hygienic()
    ensures RenamingOf(fn, mapping, args).bindings.Keys == ParamSet(fn)
  {
    var r := RenamingOf(fn, mapping, args);
    forall p | p in ParamSet(fn) ensures p in r.bindings {
      var i :| 0 <= i < |fn.params| && fn.params[i].name == p;
      assert ParamNames(fn.params)[i] == p;
    }
    forall p | p in r.bindings
      ensures p in ParamSet(fn) && NamesIn(Reads(r.bindings[p])) <= known
    {
      BindingReads(fn, args, p);
      assert NamesIn(Reads(r.bindings[p])) <= NamesIn(ReadsOfAll(args));
    }
  }

  lemma BodyCovered(fn: Function, mapping: map<string, string>, args: seq<Expr>, known: set<string>)
    requires WellFormed(fn) && FreshFor(fn, mapping, args, known)
    ensures var r := RenamingOf(fn, mapping, args);
      Fits(r, fn.body.items, fn.body.where, fn.body.projections)
  {
    var r := RenamingOf(fn, mapping, args);
    var items := fn.body.items;
    InstanceHygienic(fn, mapping, args, known);
    forall e | e in ReadsOf(fn.body)
      ensures e.0 in mapping || e.0 in r.bindings
      ensures e.0 in r.series ==> e.1 == [e.0]
    {
      assert e.0 in NamesIn(ReadsOf(fn.body));
    }
    forall i | 0 <= i < |items|
      ensures items[i].alias in r.series <==> items[i].Source? && items[i].series
      ensures items[i].Call? ==> DefaultsClosed(items[i].fn)
    {
      if items[i].alias in r.series {
        var j :| 0 <= j < |items| && items[j].Source? && items[j].series && items[j].alias == items[i].alias;
        assert i == j;
      }
      if items[i].Call? {
        CalledClosed(items, i);
      }
    }
  }

  lemma CalledClosed(items: seq<Item>, i: nat)
    requires WellFormedItems(items) && i < |items| && items[i].Call?
    ensures DefaultsClosed(items[i].fn)
  {
    assert WellFormed(items[i].fn);
  }

  /** The instance's rows, wherever the call stands, are the body's over the
      call's arguments: no name of the caller's is captured. Asked of the
      arguments is only that putting them in turns none of the body's NULL where
      a DEFAULT then takes its place. */
  lemma InstanceMeans(w: World, fn: Function, mapping: map<string, string>, args: seq<Expr>, known: set<string>, env: Env)
    requires Lawful(w) && env.Keys <= known
    requires WellFormed(fn) && FreshFor(fn, mapping, args, known)
    requires ItemsKeepNulls(fn.body.items, RenamingOf(fn, mapping, args).Reading())
    ensures Run(w, Instance(fn, mapping, args), env) == Run(w, fn.body, Arguments(w, fn, args, env))
  {
    var r := RenamingOf(fn, mapping, args);
    var names, bound := ParamNames(fn.params), Bound(fn.params, args);
    InstanceHygienic(fn, mapping, args, known);
    BodyCovered(fn, mapping, args, known);
    var inner := Arguments(w, fn, args, env);
    forall p | p in r.bindings ensures p in inner && Eval(w, r.bindings[p], env) == inner[p] {
      ColumnsMapped(w, names, bound, env, p);
    }
    assert inner.Keys == r.bindings.Keys;
    forall b | b in mapping ensures b !in inner && mapping[b] !in env {
      assert mapping[b] in mapping.Values;
    }
    assert r.Mirrors(w, inner, env);
    RowsMirrored(w, r, fn.body.items, fn.body.where, fn.body.projections, inner, env);
  }

  /** An instance's read of a body alias is still a read of its fresh name
      exactly when no parameter is spelled like that name: the renaming runs
      before the parameters are put in, and the names already taken are the
      script's, not the function's own parameters. */
  lemma CaptureExactly(fn: Function, mapping: map<string, string>, args: seq<Expr>, alias: string)
    requires DefaultsClosed(fn) && alias in mapping
    requires mapping[alias] !in NamesIn(ReadsOfAll(args))
    ensures mapping[alias] in NamesIn(Reads(RenamingOf(fn, mapping, args).Reading()(alias, [])))
        <==> mapping[alias] !in ParamSet(fn)
  {
    var r := RenamingOf(fn, mapping, args);
    var n := mapping[alias];
    assert Renamed(mapping, r.series, alias, []) == Read(n, []);
    if n in ParamSet(fn) {
      var i :| 0 <= i < |fn.params| && fn.params[i].name == n;
      assert ParamNames(fn.params)[i] == n;
      assert n in r.bindings;
      BindingReads(fn, args, n);
      assert r.Reading()(alias, []) == r.bindings[n];
      assert NamesIn(Reads(r.bindings[n])) <= NamesIn(ReadsOfAll(args));
    } else {
      if n in r.bindings {
        BindingReads(fn, args, n);
      }
      assert (n, []) in Reads(r.Reading()(alias, []));
    }
  }
}
