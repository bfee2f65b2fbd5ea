/** Inlining every function call a query's FROM makes, innermost bodies included. */
module Inlining {
  import opened Wrappers
  import opened Sql
  import opened Rewriting
  import opened Splicing
  import opened Instancing
  import opened Hosting
  import opened Nulls
  import opened Answers
  import opened Placing
  import Names

  datatype Error = UnknownAlias | Recursive | TooManyInlinings | ArgumentCount | UnknownColumn | Unresolved

  datatype Result = Ok(query: Query) | Err(error: Error)

  const EXPANSION_BUDGET := 200

  /** The leftmost call, or the end where there is none. */
  function FirstCall(items: seq<Item>): (at: nat)
    ensures at <= |items| && (at < |items| ==> items[at].Call?)
    ensures forall i :: 0 <= i < at ==> !items[i].Call?
  {
    if items == [] then 0 else if items[0].Call? then 0 else 1 + FirstCall(items[1..])
  }

  /** Some argument reads a FROM item to the call's left (`_lateral_reads`). */
  predicate IsLateral(host: Query, at: nat)
    requires at < |host.items| && host.items[at].Call?
  {
    exists r :: r in ReadsOfAll(host.items[at].args) && r.0 in Aliases(host.items[..at])
  }

  /** Every argument reads the call's left, or a bare name no FROM item binds. */
  predicate ReadsLeft(host: Query, at: nat)
    requires at < |host.items| && host.items[at].Call?
  {
    forall r :: r in ReadsOfAll(host.items[at].args) ==>
      r.0 in Aliases(host.items[..at]) || (r.1 == [] && r.0 !in Aliases(host.items[at + 1..]))
  }

  // What naming the columns changes

  lemma {:induction false} ColumnsNamed(ps: seq<Projection>, ps': seq<Projection>, columns: seq<string>)
    requires |ps'| == |ps| && (forall i :: 0 <= i < |ps| ==> (IsTags(ps'[i]) <==> IsTags(ps[i])))
    requires Width(ps) == |columns|
    ensures |NameColumns(ps, columns)| == |ps| && |NameColumns(ps', columns)| == |ps|
    ensures Header(NameColumns(ps', columns)) == Header(NameColumns(ps, columns))
  {
    if ps != [] {
      var rest := if IsTags(ps[0]) then columns else columns[1..];
      ColumnsNamed(ps[1..], ps'[1..], rest);
      NamedFirst(ps, columns);
      NamedFirst(ps', columns);
    }
  }

  lemma NamedFirst(ps: seq<Projection>, columns: seq<string>)
    requires ps != [] && (IsTags(ps[0]) || columns != [])
    ensures var rest := if IsTags(ps[0]) then columns else columns[1..];
      && |NameColumns(ps, columns)| == 1 + |NameColumns(ps[1..], rest)|
      && Header(NameColumns(ps, columns))
           == [if IsTags(ps[0]) then TAGS else columns[0]] + Header(NameColumns(ps[1..], rest))
  {
    var rest := if IsTags(ps[0]) then columns else columns[1..];
    var first := if IsTags(ps[0]) then ps[0] else Projection(ps[0].expr, Some(columns[0]));
    assert NameColumns(ps, columns) == [first] + NameColumns(ps[1..], rest);
    assert NameOf(first) == if IsTags(ps[0]) then TAGS else columns[0];
    hide *;
    HeaderFirst(first, NameColumns(ps[1..], rest));
  }

  lemma HeaderFirst(first: Projection, others: seq<Projection>)
    ensures Header([first] + others) == [NameOf(first)] + Header(others)
  {
    hide NameOf;
  }

  lemma {:induction false} ExprsDecide(w: World, items: seq<Item>, where: Option<Expr>, ps: seq<Projection>,
                                       ps': seq<Projection>, env: Env)
    requires |ps'| == |ps| && (forall i :: 0 <= i < |ps| ==> ps'[i].expr == ps[i].expr)
    ensures Rows(w, items, where, ps', env) == Rows(w, items, where, ps, env)
    decreases |items|, 1, 0
  {
    if items == [] {
      assert Project(w, ps', env) == Project(w, ps, env);
    } else {
      ExprsDecideEach(w, Bindings(w, items[0], env), items, where, ps, ps', env);
    }
  }

  lemma {:induction false} ExprsDecideEach(w: World, vs: seq<Value>, items: seq<Item>, where: Option<Expr>,
                                           ps: seq<Projection>, ps': seq<Projection>, env: Env)
    requires items != []
    requires |ps'| == |ps| && (forall i :: 0 <= i < |ps| ==> ps'[i].expr == ps[i].expr)
    ensures Each(w, vs, items[0].alias, items[1..], where, ps', env) == Each(w, vs, items[0].alias, items[1..], where, ps, env)
    decreases |items|, 0, |vs|
  {
    if vs != [] {
      ExprsDecide(w, items[1..], where, ps, ps', env[items[0].alias := vs[0]]);
      ExprsDecideEach(w, vs[1..], items, where, ps, ps', env);
    }
  }

  // One call

  /** `body` is what one call's instance was expanded to. */
  ghost predicate Expanded(fn: Function, mapping: map<string, string>, args: seq<Expr>, body: Query, known: set<string>)
  {
    && WellFormed(fn) && FreshFor(fn, mapping, args, known)
    && SameTags(Instance(fn, mapping, args), body)
  }

  /** And no defaulted argument turned NULL: neither where the instance's
      arguments were put in, nor where it was expanded. */
  ghost predicate ExpandedTrue(fn: Function, mapping: map<string, string>, args: seq<Expr>, body: Query, known: set<string>)
  {
    && ItemsKeepNulls(fn.body.items, RenamingOf(fn, mapping, args).Reading())
    && SameMeaning(Instance(fn, mapping, args), body, known + mapping.Values)
  }

  /** The expanded body, its columns named, gives the call's own rows. */
  lemma ExpandedStandsFor(w: World, item: Item, mapping: map<string, string>, body: Query, known: set<string>)
    requires Lawful(w) && item.Call? && Expanded(item.fn, mapping, item.args, body, known)
    requires ExpandedTrue(item.fn, mapping, item.args, body, known)
    ensures StandsFor(w, Named(body, item.fn.columns), item, known)
  {
    var fn, args := item.fn, item.args;
    var inst := Instance(fn, mapping, args);
    var ps, ps' := fn.body.projections, body.projections;
    forall i | 0 <= i < |ps| ensures IsTags(ps'[i]) <==> IsTags(ps[i]) {
      assert IsTags(inst.projections[i]) <==> IsTags(ps[i]);
    }
    ColumnsNamed(ps, ps', fn.columns);
    forall e: Env | e.Keys <= known
      ensures Bindings(w, item, e) == Records(w, Header(Named(body, fn.columns).projections), Run(w, Named(body, fn.columns), e))
    {
      var inner := Arguments(w, fn, args, e);
      ExprsDecide(w, fn.body.items, fn.body.where, ps, NameColumns(ps, fn.columns), inner);
      InstanceMeans(w, fn, mapping, args, known, e);
      assert Run(w, body, e) == Run(w, inst, e);
      ExprsDecide(w, body.items, body.where, ps', NameColumns(ps', fn.columns), e);
    }
  }

  /** Naming the columns changes no name the body reads. */
  lemma NamedReads(body: Query, columns: seq<string>)
    requires |NameColumns(body.projections, columns)| == |body.projections|
    ensures ReadsOf(Named(body, columns)) == ReadsOf(body)
  {
    var ps, named := body.projections, NameColumns(body.projections, columns);
    forall r | r in ReadsOfProjections(ps) ensures r in ReadsOfProjections(named) {
      var i :| 0 <= i < |ps| && r in Reads(ps[i].expr);
      assert named[i].expr == ps[i].expr;
    }
  }

  /** A call whose arguments read nothing gives the same rows anywhere. */
  lemma ClosedCall(w: World, item: Item, env: Env)
    requires item.Call? && DefaultsClosed(item.fn) && ReadsOfAll(item.args) == {}
    ensures Bindings(w, item, env) == Bindings(w, item, map[])
  {
    var bound := Bound(item.fn.params, item.args);
    forall j | 0 <= j < |bound| ensures Eval(w, bound[j], env) == Eval(w, bound[j], map[]) {
      if j < |item.args| {
        assert Reads(item.args[j]) <= ReadsOfAll(item.args);
      }
      assert Reads(bound[j]) == {};
      ReadsDecide(w, bound[j], map[], env);
    }
    assert EvalAll(w, bound, env) == EvalAll(w, bound, map[]);
  }

  /** The call read off a generated CTE instead. */
  function WithCte(host: Query, at: nat, name: string, body: Query): Query
    requires at < |host.items|
  {
    host.(items := host.items[at := Derived(name, body, host.items[at].alias)])
  }

  lemma CteBindings(w: World, item: Item, name: string, body: Query, known: set<string>, env: Env)
    requires Lawful(w) && item.Call? && DefaultsClosed(item.fn) && ReadsOfAll(item.args) == {}
    requires StandsFor(w, body, item, known)
    ensures Bindings(w, Derived(name, body, item.alias), env) == Bindings(w, item, env)
  {
    var nowhere: Env := map[];
    assert Bindings(w, item, nowhere) == Records(w, Header(body.projections), Run(w, body, nowhere));
    ClosedCall(w, item, env);
  }

  lemma CteTail(w: World, host: Query, at: nat, name: string, body: Query, known: set<string>, env: Env)
    requires Lawful(w) && at < |host.items| && host.items[at].Call?
    requires DefaultsClosed(host.items[at].fn) && ReadsOfAll(host.items[at].args) == {}
    requires StandsFor(w, body, host.items[at], known)
    ensures Run(w, host.(items := WithCte(host, at, name, body).items[at..]), env)
         == Run(w, host.(items := host.items[at..]), env)
  {
    CteBindings(w, host.items[at], name, body, known, env);
    var items, items' := host.items, WithCte(host, at, name, body).items;
    assert items'[at..][1..] == items[at..][1..];
  }

  lemma CteTails(w: World, host: Query, at: nat, name: string, body: Query, known: set<string>)
    requires Lawful(w) && at < |host.items| && host.items[at].Call?
    requires DefaultsClosed(host.items[at].fn) && ReadsOfAll(host.items[at].args) == {}
    requires StandsFor(w, body, host.items[at], known)
    ensures forall e: Env :: e.Keys <= known ==>
      Run(w, host.(items := WithCte(host, at, name, body).items[at..]), e) == Run(w, host.(items := host.items[at..]), e)
  {
    forall e: Env | e.Keys <= known
      ensures Run(w, host.(items := WithCte(host, at, name, body).items[at..]), e) == Run(w, host.(items := host.items[at..]), e)
    {
      CteTail(w, host, at, name, body, known, e);
    }
  }

  lemma CteMeans(w: World, host: Query, at: nat, name: string, body: Query, known: set<string>, env: Env)
    requires Lawful(w) && Distinct(host.items) && Aliases(host.items) <= known && env.Keys <= known
    requires at < |host.items| && host.items[at].Call?
    requires DefaultsClosed(host.items[at].fn) && ReadsOfAll(host.items[at].args) == {}
    requires StandsFor(w, body, host.items[at], known)
    ensures Run(w, WithCte(host, at, name, body), env) == Run(w, host, env)
  {
    var items, items' := host.items, WithCte(host, at, name, body).items;
    var q, q' := host.(items := items[at..]), host.(items := items'[at..]);
    CteTails(w, host, at, name, body, known);
    AliasesAround(items, at);
    PrefixMeans(w, items[..at], q, q', known, env);
    SplitAt(items, at, items'[at]);
    assert q.(items := items[..at] + q.items) == host;
    assert q'.(items := items[..at] + q'.items) == WithCte(host, at, name, body);
  }

  lemma SplitAt<T>(s: seq<T>, at: nat, x: T)
    requires at < |s|
    ensures s[..at] + s[at..] == s
    ensures s[..at] + s[at := x][at..] == s[at := x]
  {
  }

  lemma CteHosted(host: Query, at: nat, name: string, body: Query, known: set<string>, known': set<string>)
    requires Hosted(host, known) && at < |host.items| && host.items[at].Call? && known <= known'
    ensures Hosted(WithCte(host, at, name, body), known') && Grown(host, WithCte(host, at, name, body), known, known')
    ensures SameTags(host, WithCte(host, at, name, body))
    ensures NoLooseTags(host) ==> NoLooseTags(WithCte(host, at, name, body))
  {
    var q := WithCte(host, at, name, body);
    forall i | 0 <= i < |q.items| ensures q.items[i].alias == host.items[i].alias { }
    forall r | r in ReadsOfItems(q.items) ensures r in ReadsOfItems(host.items) {
      var i :| 0 <= i < |q.items| && r in ReadsOfItem(q.items[i]);
      assert q.items[i] == host.items[i];
    }
    forall n | n in Aliases(q.items) ensures n in Aliases(host.items) {
      var i :| 0 <= i < |q.items| && q.items[i].alias == n;
      assert host.items[i].alias == n;
    }
    forall n | n in CallAliases(q.items) ensures n in CallAliases(host.items) {
      var i :| 0 <= i < |q.items| && q.items[i].Call? && q.items[i].alias == n;
      assert q.items[i] == host.items[i];
    }
    assert NamesIn(ReadsOf(q)) <= NamesIn(ReadsOf(host));
  }

  // One step of the expansion

  /** The body a call's instance became, once its own calls were inlined. */
  ghost predicate Inlined(item: Item, mapping: map<string, string>, body: Query, known: set<string>, known': set<string>)
    requires item.Call?
  {
    var inst := Instance(item.fn, mapping, item.args);
    && Expanded(item.fn, mapping, item.args, body, known)
    && Hosted(body, known') && CallFree(body.items)
    && Grown(inst, body, known + mapping.Values, known')
  }

  lemma InlinedReady(host: Query, at: nat, mapping: map<string, string>, body: Query, known: set<string>, known': set<string>)
    requires Hosted(host, known) && at < |host.items| && host.items[at].Call?
    requires Inlined(host.items[at], mapping, body, known, known')
    ensures ReadyBody(host, at, Named(body, host.items[at].fn.columns), known, known')
  {
    var fn, args := host.items[at].fn, host.items[at].args;
    var inst := Instance(fn, mapping, args);
    var ps := fn.body.projections;
    forall i | 0 <= i < |ps| ensures IsTags(body.projections[i]) <==> IsTags(ps[i]) {
      assert IsTags(inst.projections[i]) <==> IsTags(ps[i]);
    }
    ColumnsNamed(ps, body.projections, fn.columns);
    NamedReads(body, fn.columns);
    InstanceHosted(fn, mapping, args, known);
  }

  /** A lateral call about to leave the query: its body ready, every check passed. */
  ghost predicate LateralReady(host: Query, at: nat, mapping: map<string, string>, body: Query, known: set<string>,
                               known': set<string>)
  {
    && Hosted(host, known) && at == FirstCall(host.items) && at < |host.items|
    && ReadsLeft(host, at) && Inlined(host.items[at], mapping, body, known, known')
    && ReadsColumns(ReadsOf(host), host.items[at].alias, ColumnsOf(Named(body, host.items[at].fn.columns)))
  }

  /** Inlining one lateral call keeps the query's column names, captures nothing,
      and leaves every alias its own. */
  lemma LateralShape(host: Query, at: nat, mapping: map<string, string>, body: Query, known: set<string>, known': set<string>)
    requires LateralReady(host, at, mapping, body, known, known')
    ensures Kept(host, Spliced(host, at, Named(body, host.items[at].fn.columns)), known, known')
  {
    var named := Named(body, host.items[at].fn.columns);
    InlinedReady(host, at, mapping, body, known, known');
    ArgumentsChecked(host, at, named);
    SplicedHosted(host, at, named, known, known');
    SplicedProjections(host, at, named);
    if NoLooseTags(host) {
      SplicedTags(host, at, named);
    }
  }

  /** And its rows and their order, when no defaulted argument turned NULL: in
      the call's body, or to the call's right where its columns were read. */
  lemma LateralStep(host: Query, at: nat, mapping: map<string, string>, body: Query, known: set<string>, known': set<string>)
    requires LateralReady(host, at, mapping, body, known, known')
    requires ExpandedTrue(host.items[at].fn, mapping, host.items[at].args, body, known)
    requires var named := Named(body, host.items[at].fn.columns);
      ItemsKeepNulls(host.items[at + 1..], LateralRead(host.items[at].alias, ColumnsOf(named)))
    ensures SameMeaning(host, Spliced(host, at, Named(body, host.items[at].fn.columns)), known)
  {
    var item := host.items[at];
    var named := Named(body, item.fn.columns);
    InlinedReady(host, at, mapping, body, known, known');
    ArgumentsChecked(host, at, named);
    SplicedProjections(host, at, named);
    CheckedSpliceable(host, at, named, known, known');
    InlinedExpanded(item, mapping, body, known, known');
    LateralParts(host, at, mapping, body, known, known');
    hide *;
    SpliceMeaning(host, at, mapping, body, known);
  }

  lemma InlinedExpanded(item: Item, mapping: map<string, string>, body: Query, known: set<string>, known': set<string>)
    requires item.Call? && Inlined(item, mapping, body, known, known')
    ensures Expanded(item.fn, mapping, item.args, body, known)
  {
  }

  lemma SpliceMeaning(host: Query, at: nat, mapping: map<string, string>, body: Query, known: set<string>)
    requires at < |host.items| && host.items[at].Call?
    requires var item := host.items[at];
      && Expanded(item.fn, mapping, item.args, body, known)
      && ExpandedTrue(item.fn, mapping, item.args, body, known)
    requires Spliceable(host, at, Named(body, host.items[at].fn.columns), known)
    requires Header(Spliced(host, at, Named(body, host.items[at].fn.columns)).projections) == Header(host.projections)
    ensures SameMeaning(host, Spliced(host, at, Named(body, host.items[at].fn.columns)), known)
  {
    hide Expanded, ExpandedTrue, Spliceable, Spliced, Run, Named;
    var item := host.items[at];
    var named := Named(body, item.fn.columns);
    var q := Spliced(host, at, named);
    forall w: World, env: Env | Lawful(w) && env.Keys <= known ensures Run(w, q, env) == Run(w, host, env) {
      ExpandedStandsFor(w, item, mapping, body, known);
      SpliceMeans(w, host, at, named, known, env);
    }
  }

  lemma ArgumentsChecked(host: Query, at: nat, body: Query)
    requires WellFormedItems(host.items) && at == FirstCall(host.items) && at < |host.items| && ReadsLeft(host, at)
    requires ReadsColumns(ReadsOf(host), host.items[at].alias, ColumnsOf(body))
    ensures Checked(host, at, body)
  {
    var items, args := host.items, host.items[at].args;
    AliasesAround(items, at);
    assert ReadsOfItem(items[at]) <= ReadsOf(host) by { assert ReadsOfItem(items[at]) <= ReadsOfItems(items); }
    forall r | r in ReadsOfAll(args) ensures r.0 !in Aliases(items[at..]) {
      assert r in ReadsOf(host);
    }
  }

  lemma AliasesAround(items: seq<Item>, at: nat)
    requires Distinct(items) && at < |items|
    ensures Aliases(items[at..]) == {items[at].alias} + Aliases(items[at + 1..])
    ensures Aliases(items[..at]) !! Aliases(items[at..])
    ensures Aliases(items[..at]) <= Aliases(items)
  {
    var rest := items[at..];
    assert rest == [items[at]] + items[at + 1..];
    forall n | n in Aliases(items[at + 1..]) ensures n in Aliases(rest) {
      var i :| 0 <= i < |items[at + 1..]| && items[at + 1..][i].alias == n;
      assert rest[i + 1].alias == n;
    }
    assert rest[0].alias in Aliases(rest);
    forall i, j | 0 <= i < at && 0 <= j < |rest| ensures items[..at][i].alias != rest[j].alias {
      assert items[i].alias != items[at + j].alias;
    }
  }

  /** A call that reads nothing of the query becomes a CTE of the same rows, when
      no defaulted argument turned NULL in its body. */
  lemma CteStep(host: Query, at: nat, mapping: map<string, string>, name: string, body: Query, known: set<string>,
                known': set<string>)
    requires Hosted(host, known) && at == FirstCall(host.items) && at < |host.items|
    requires ReadsOfAll(host.items[at].args) == {}
    requires Inlined(host.items[at], mapping, body, known, known')
    requires ExpandedTrue(host.items[at].fn, mapping, host.items[at].args, body, known)
    ensures SameMeaning(host, WithCte(host, at, name, Named(body, host.items[at].fn.columns)), known)
  {
    var item := host.items[at];
    var named := Named(body, item.fn.columns);
    var q := WithCte(host, at, name, named);
    CalledClosed(host.items, at);
    forall w: World, env: Env | Lawful(w) && env.Keys <= known ensures Run(w, q, env) == Run(w, host, env) {
      ExpandedStandsFor(w, item, mapping, body, known);
      CteMeans(w, host, at, name, named, known, env);
    }
  }

  /** A projection of an instance that reads one of the body's aliases bare of
      any operator was such a projection of the body. */
  lemma InstanceProjection(fn: Function, mapping: map<string, string>, args: seq<Expr>, known: set<string>, i: nat)
    requires WellFormed(fn) && FreshFor(fn, mapping, args, known) && i < |fn.body.projections|
    requires var e := Instance(fn, mapping, args).projections[i].expr; e.Read? && e.name in mapping.Values
    ensures var e, e' := fn.body.projections[i].expr, Instance(fn, mapping, args).projections[i].expr;
      e.Read? && e.name in mapping && e' == Renamed(mapping, SeriesAliases(fn.body.items), e.name, e.path)
  {
    hide *;
    InstanceAt(fn, mapping, args, i);
    var f := RenamingOf(fn, mapping, args).Reading();
    var e, e' := fn.body.projections[i].expr, Instance(fn, mapping, args).projections[i].expr;
    RewrittenRead(e, f);
    ProjectionName(fn, i);
    InstanceHygienic(fn, mapping, args, known);
    ReadingMapped(fn, mapping, args, e.name, e.path);
    if e.name !in mapping {
      FreshKeys(fn, mapping, args, known);
      ArgumentReads(fn, mapping, args, e.name);
      BoundName(fn, mapping, args, known, e, e');
    }
  }

  lemma FreshKeys(fn: Function, mapping: map<string, string>, args: seq<Expr>, known: set<string>)
    requires FreshFor(fn, mapping, args, known)
    ensures mapping.Keys == Aliases(fn.body.items)
  {
  }

  lemma InstanceAt(fn: Function, mapping: map<string, string>, args: seq<Expr>, i: nat)
    requires i < |fn.body.projections|
    ensures |Instance(fn, mapping, args).projections| == |fn.body.projections|
    ensures Instance(fn, mapping, args).projections[i].expr
         == Rewrite(fn.body.projections[i].expr, RenamingOf(fn, mapping, args).Reading())
  {
  }

  lemma ReadingMapped(fn: Function, mapping: map<string, string>, args: seq<Expr>, n: string, path: seq<string>)
    requires RenamingOf(fn, mapping, args).Hygienic()
    ensures n in mapping ==>
      RenamingOf(fn, mapping, args).Reading()(n, path) == Renamed(mapping, SeriesAliases(fn.body.items), n, path)
  {
    if n in mapping {
      assert mapping[n] in mapping.Values;
    }
  }

  lemma ArgumentReads(fn: Function, mapping: map<string, string>, args: seq<Expr>, p: string)
    requires DefaultsClosed(fn) && p in RenamingOf(fn, mapping, args).bindings
    ensures Reads(RenamingOf(fn, mapping, args).bindings[p]) <= ReadsOfAll(args) && p in ParamSet(fn)
  {
    BindingReads(fn, args, p);
  }

  lemma RewrittenRead(e: Expr, f: Replacement)
    requires Rewrite(e, f).Read?
    ensures e.Read? && Rewrite(e, f) == f(e.name, e.path)
  {
  }

  /** A parameter's argument reads none of the instance's aliases. */
  lemma BoundName(fn: Function, mapping: map<string, string>, args: seq<Expr>, known: set<string>, e: Expr, e': Expr)
    requires FreshFor(fn, mapping, args, known) && e.Read? && e.name !in mapping && e'.Read?
    requires e.name in ParamSet(fn) && RenamingOf(fn, mapping, args).bindings.Keys == ParamSet(fn)
    requires Reads(RenamingOf(fn, mapping, args).bindings[e.name]) <= ReadsOfAll(args)
    requires e' == RenamingOf(fn, mapping, args).Reading()(e.name, e.path)
    ensures e'.name !in mapping.Values
  {
    hide Aliases, ReadsOfAll;
    assert (e'.name, e'.path) in Reads(e');
  }

  lemma ProjectionName(fn: Function, i: nat)
    requires WellFormed(fn) && i < |fn.body.projections| && fn.body.projections[i].expr.Read?
    ensures fn.body.projections[i].expr.name in Aliases(fn.body.items) + ParamSet(fn)
    ensures DefaultsClosed(fn)
  {
    var e := fn.body.projections[i].expr;
    assert (e.name, e.path) in ReadsOf(fn.body) by {
      assert (e.name, e.path) in Reads(e);
    }
    assert (e.name, e.path).0 in NamesIn(ReadsOf(fn.body));
  }

  lemma BodyParts(fn: Function)
    requires WellFormed(fn)
    ensures Distinct(fn.body.items) && NoLooseTags(fn.body)
  {
  }

  lemma InstanceTags(fn: Function, mapping: map<string, string>, args: seq<Expr>, known: set<string>)
    requires WellFormed(fn) && FreshFor(fn, mapping, args, known) && TAGS !in mapping.Values
    ensures NoLooseTags(Instance(fn, mapping, args))
  {
    BodyParts(fn);
    hide WellFormed, WellFormedItems, Reads;
    var inst := Instance(fn, mapping, args);
    var items, ps := fn.body.items, fn.body.projections;
    forall i | 0 <= i < |ps| && inst.projections[i].name.None? && inst.projections[i].expr.Read?
        && inst.projections[i].expr.name in CallAliases(inst.items)
      ensures NameOf(inst.projections[i]) != TAGS
    {
      var j :| 0 <= j < |items| && inst.items[j].Call? && inst.items[j].alias == inst.projections[i].expr.name;
      assert items[j].alias in Aliases(items) && mapping[items[j].alias] in mapping.Values;
      InstanceProjection(fn, mapping, args, known, i);
      var name := ps[i].expr.name;
      assert name == items[j].alias && name in CallAliases(items);
      assert name !in SeriesAliases(items) by {
        assert forall k :: 0 <= k < |items| && items[k].alias == name ==> k == j;
      }
    }
  }

  lemma WellFormedCall(host: Query, at: nat)
    requires WellFormedItems(host.items) && at < |host.items| && host.items[at].Call?
    ensures WellFormed(host.items[at].fn) && Distinct(host.items[at].fn.body.items)
  {
    assert WellFormed(host.items[at].fn);
  }

  /** A generated alias is `<fn>_<n>_<alias>` and underscores, so it is no
      parameter of a function `WellFormed` accepts, and not `tags`. */
  lemma GeneratedNames(fn: Function, index: nat, mapping: map<string, string>)
    requires WellFormed(fn) && mapping.Keys == Aliases(fn.body.items)
    requires forall a :: a in mapping ==> GeneratedFrom(fn, index, a, mapping[a])
    ensures mapping.Values !! ParamSet(fn) && TAGS !in mapping.Values
  {
    forall v | v in mapping.Values ensures Generated(fn, v) && v != TAGS {
      var a :| a in mapping && mapping[a] == v;
      var base := fn.name + "_" + Names.Decimal(index + 1) + "_" + a;
      assert GeneratedFrom(fn, index, a, v);
      assert v[|fn.name|] == base[|fn.name|] == '_';
    }
  }

  lemma InstanceReady(host: Query, at: nat, index: nat, mapping: map<string, string>, known: set<string>)
    requires Hosted(host, known) && at < |host.items| && host.items[at].Call?
    requires var fn := host.items[at].fn;
      && mapping.Keys == Aliases(fn.body.items) && Injective(mapping) && mapping.Values !! known
      && (forall a :: a in mapping ==> GeneratedFrom(fn, index, a, mapping[a]))
    ensures var fn, args := host.items[at].fn, host.items[at].args;
      && WellFormed(fn) && FreshFor(fn, mapping, args, known)
      && Hosted(Instance(fn, mapping, args), known + mapping.Values)
      && NoLooseTags(Instance(fn, mapping, args))
  {
    var fn, args := host.items[at].fn, host.items[at].args;
    WellFormedCall(host, at);
    ArgumentNames(host, at);
    GeneratedNames(fn, index, mapping);
    InstanceHosted(fn, mapping, args, known);
    InstanceTags(fn, mapping, args, known);
  }

  /** What any run of steps keeps: the columns' names, no name in the query but
      taken ones, the tags. */
  ghost predicate Kept(q: Query, q': Query, known: set<string>, taken: set<string>)
  {
    && Hosted(q', taken) && Grown(q, q', known, taken)
    && Header(q'.projections) == Header(q.projections)
    && (NoLooseTags(q) ==> SameTags(q, q') && NoLooseTags(q'))
  }

  lemma KeptOn(q: Query, host: Query, q': Query, known: set<string>, taken: set<string>, taken': set<string>)
    requires known <= taken && Kept(q, host, known, taken) && Kept(host, q', taken, taken')
    ensures Kept(q, q', known, taken')
  {
  }

  lemma MeaningOn(q: Query, host: Query, q': Query, known: set<string>, taken: set<string>)
    requires known <= taken && SameMeaning(q, host, known) && SameMeaning(host, q', taken)
    ensures SameMeaning(q, q', known)
  {
    forall w: World, env: Env | Lawful(w) && env.Keys <= known ensures Run(w, q', env) == Run(w, q, env) {
      assert Run(w, q', env) == Run(w, host, env) == Run(w, q, env);
    }
  }

  lemma KeptSelf(q: Query, taken: set<string>)
    requires Hosted(q, taken)
    ensures Kept(q, q, taken, taken) && SameMeaning(q, q, taken) && NeverNulled(q, q, false)
  {
    hide WellFormedItems, NullFreeItems, Steady, Run;
  }

  lemma KeptInlined(host: Query, at: nat, mapping: map<string, string>, body: Query, known: set<string>, taken: set<string>)
    requires Hosted(host, known) && at < |host.items| && host.items[at].Call?
    requires var fn, args := host.items[at].fn, host.items[at].args;
      && WellFormed(fn) && FreshFor(fn, mapping, args, known) && NoLooseTags(Instance(fn, mapping, args))
      && Kept(Instance(fn, mapping, args), body, known + mapping.Values, taken)
    requires CallFree(body.items)
    ensures Inlined(host.items[at], mapping, body, known, taken)
  {
  }

  lemma KeptMore(q: Query, q': Query, known: set<string>, taken: set<string>, taken': set<string>)
    requires Kept(q, q', known, taken) && taken <= taken'
    ensures Kept(q, q', known, taken')
  {
  }

  // Whether an argument turned NULL

  /** Putting the arguments in turned a defaulted one of the body's NULL. */
  ghost predicate InstanceTurned(fn: Function, mapping: map<string, string>, args: seq<Expr>)
  {
    !ItemsKeepNulls(fn.body.items, RenamingOf(fn, mapping, args).Reading())
  }

  /** Reading the call's columns did, to the call's right. */
  ghost predicate LateralTurned(host: Query, at: nat, body: Query)
    requires at < |host.items|
  {
    !ItemsKeepNulls(host.items[at + 1..], LateralRead(host.items[at].alias, ColumnsOf(body)))
  }

  /** No argument ever turns NULL in a query that hands no NULL on, or only
      where it would not matter; and what is left of it is such a query again. */
  ghost predicate NeverNulled(q: Query, host: Query, nulled: bool)
  {
    && (NullFreeItems(q.items) ==>
          !nulled && NullFreeItems(host.items) && (NullFreeSelect(q.projections) ==> NullFreeSelect(host.projections)))
    && (Steady(q.items) ==> !nulled && Steady(host.items))
  }

  lemma InstanceDone(host: Query, at: nat, mapping: map<string, string>, body: Query, known: set<string>, nulled: bool)
    requires at < |host.items| && host.items[at].Call?
    requires var fn, args := host.items[at].fn, host.items[at].args;
      && WellFormed(fn) && FreshFor(fn, mapping, args, known) && ArgumentsFit(fn, args)
      && NeverNulled(Instance(fn, mapping, args), body, nulled)
      && (!nulled ==> SameMeaning(Instance(fn, mapping, args), body, known + mapping.Values))
    ensures var fn, args := host.items[at].fn, host.items[at].args;
      var turned := nulled || InstanceTurned(fn, mapping, args);
      && (!turned ==> ExpandedTrue(fn, mapping, args, body, known))
      && (NullFreeItems(host.items) ==> !turned && NullFreeSelect(body.projections))
      && (Steady(host.items) ==> !turned)
  {
    var fn, args := host.items[at].fn, host.items[at].args;
    InstanceHygienic(fn, mapping, args, known);
    if NullFreeItems(host.items) {
      assert NullFree(fn) && NullFreeAll(args);
      InstanceNullFree(fn, mapping, args);
    }
    if Steady(host.items) {
      assert Steady(fn.body.items);
      InstanceSteady(fn, mapping, args);
    }
  }

  lemma NamedNullFree(body: Query, columns: seq<string>)
    requires NullFreeSelect(body.projections)
    ensures NullFreeSelect(Named(body, columns).projections)
  {
  }

  lemma LateralNeverNulled(q: Query, host: Query, at: nat, body: Query, columns: seq<string>, nulled: bool, inner: bool)
    requires Distinct(host.items) && at == FirstCall(host.items) && at < |host.items| && CallFree(body.items)
    requires NeverNulled(q, host, nulled)
    requires NullFreeItems(host.items) ==> !inner && NullFreeSelect(body.projections)
    requires Steady(host.items) ==> !inner
    ensures var named := Named(body, columns);
      NeverNulled(q, Spliced(host, at, named), nulled || inner || LateralTurned(host, at, named))
  {
    var named := Named(body, columns);
    if NullFreeItems(host.items) {
      NamedNullFree(body, columns);
      SplicedNullFree(host, at, named);
    }
    if Steady(host.items) {
      SplicedSteady(host, at, named);
    }
  }

  /** One lateral call done: what held of the query so far holds of it spliced. */
  lemma LateralDone(q: Query, host: Query, at: nat, mapping: map<string, string>, body: Query, first: set<string>,
                    known: set<string>, known': set<string>, nulled: bool, inner: bool)
    requires LateralReady(host, at, mapping, body, known, known') && first <= known
    requires Kept(q, host, first, known) && (!nulled ==> SameMeaning(q, host, first))
    requires !inner ==> ExpandedTrue(host.items[at].fn, mapping, host.items[at].args, body, known)
    requires NeverNulled(q, host, nulled)
    requires NullFreeItems(host.items) ==> !inner && NullFreeSelect(body.projections)
    requires Steady(host.items) ==> !inner
    ensures var named := Named(body, host.items[at].fn.columns);
      var host', turned := Spliced(host, at, named), nulled || inner || LateralTurned(host, at, named);
      && Hosted(host', known') && Kept(q, host', first, known')
      && (!turned ==> SameMeaning(q, host', first))
      && NeverNulled(q, host', turned)
  {
    var columns := host.items[at].fn.columns;
    var named := Named(body, columns);
    LateralParts(host, at, mapping, body, known, known');
    LateralShape(host, at, mapping, body, known, known');
    LateralNeverNulled(q, host, at, body, columns, nulled, inner);
    hide NeverNulled, NullFreeItems, NullFreeSelect, Steady, LateralReady;
    KeptOn(q, host, Spliced(host, at, named), first, known, known');
    if !nulled && !inner && !LateralTurned(host, at, named) {
      LateralStep(host, at, mapping, body, known, known');
      MeaningOn(q, host, Spliced(host, at, named), first, known);
    }
  }

  lemma LateralParts(host: Query, at: nat, mapping: map<string, string>, body: Query, known: set<string>,
                     known': set<string>)
    requires LateralReady(host, at, mapping, body, known, known')
    ensures at == FirstCall(host.items) && at < |host.items| && host.items[at].Call?
    ensures Distinct(host.items) && CallFree(body.items)
  {
  }

  lemma CteNeverNulled(q: Query, host: Query, at: nat, name: string, body: Query, nulled: bool, inner: bool)
    requires at < |host.items| && NeverNulled(q, host, nulled)
    requires NullFreeItems(host.items) ==> !inner
    requires Steady(host.items) ==> !inner
    ensures NeverNulled(q, WithCte(host, at, name, body), nulled || inner)
  {
    var items, items' := host.items, WithCte(host, at, name, body).items;
    if NullFreeItems(items) {
      forall i | 0 <= i < |items'| && items'[i].Call? ensures NullFree(items'[i].fn) && NullFreeAll(items'[i].args) {
        assert items'[i] == items[i];
      }
    }
    if Steady(items) {
      assert RowAliases(items) <= RowAliases(items') by {
        forall i | 0 <= i < |items| && !items[i].Call? ensures items[i].alias in RowAliases(items') {
          assert !items'[i].Call? && items'[i].alias == items[i].alias;
        }
      }
      forall i | 0 <= i < |items'| && items'[i].Call?
        ensures Steady(items'[i].fn.body.items)
        ensures SteadyArguments(items'[i].fn.params, items'[i].args, RowAliases(items'))
      {
        assert items'[i] == items[i];
        assert SteadyArguments(items[i].fn.params, items[i].args, RowAliases(items));
      }
    }
  }

  /** One call read off its CTE. */
  lemma CteDone(q: Query, host: Query, at: nat, mapping: map<string, string>, name: string, body: Query,
                first: set<string>, known: set<string>, known': set<string>, taken: set<string>, nulled: bool, inner: bool)
    requires Hosted(host, known) && at == FirstCall(host.items) && at < |host.items| && first <= known
    requires ReadsOfAll(host.items[at].args) == {} && known <= known' <= taken
    requires Inlined(host.items[at], mapping, body, known, known')
    requires Kept(q, host, first, known) && (!nulled ==> SameMeaning(q, host, first))
    requires !inner ==> ExpandedTrue(host.items[at].fn, mapping, host.items[at].args, body, known)
    requires NeverNulled(q, host, nulled)
    requires NullFreeItems(host.items) ==> !inner
    requires Steady(host.items) ==> !inner
    ensures var host' := WithCte(host, at, name, Named(body, host.items[at].fn.columns));
      && Hosted(host', taken) && Kept(q, host', first, taken)
      && (!nulled && !inner ==> SameMeaning(q, host', first))
      && NeverNulled(q, host', nulled || inner)
  {
    var named := Named(body, host.items[at].fn.columns);
    hide *;
    CteNeverNulled(q, host, at, name, named, nulled, inner);
    CteHosted(host, at, name, named, known, taken);
    CteKept(host, at, name, named, known, taken);
    KeptOn(q, host, WithCte(host, at, name, named), first, known, taken);
    if !nulled && !inner {
      CteStep(host, at, mapping, name, body, known, known');
      MeaningOn(q, host, WithCte(host, at, name, named), first, known);
    }
  }

  lemma CteKept(host: Query, at: nat, name: string, body: Query, known: set<string>, known': set<string>)
    requires Hosted(host, known) && at < |host.items| && host.items[at].Call? && known <= known'
    ensures Kept(host, WithCte(host, at, name, body), known, known')
  {
    CteHosted(host, at, name, body, known, known');
  }

  // Why a query is refused

  /** What each refusal means of the query and the functions it names, with
      `budget` inlinings left. */
  ghost predicate Refused(q: Query, stack: seq<string>, budget: int, error: Error)
  {
    match error
    case Recursive => Loops(q.items, stack)
    case TooManyInlinings => Inlinings(q.items) > budget
    case ArgumentCount => !AllFit(q.items)
    case UnknownAlias => !Placed(q.items)
    case Unresolved => !Placed(q.items)
    case UnknownColumn => !ReadsItsColumns(q)
  }

  /** What is left of `q` after `spent` inlinings is refused for nothing new. */
  ghost predicate Onward(q: Query, host: Query, stack: seq<string>, spent: int)
  {
    && Inlinings(q.items) == spent + Inlinings(host.items)
    && (Loops(q.items, stack) <==> Loops(host.items, stack))
    && (AllFit(q.items) <==> AllFit(host.items))
    && (Placed(q.items) ==> Placed(host.items))
    && (ReadsItsColumns(q) ==> ReadsItsColumns(host))
    && Free(host) <= Free(q)
  }

  lemma OnwardSelf(q: Query, stack: seq<string>)
    ensures Onward(q, q, stack, 0)
  {
  }

  lemma OnwardDone(q: Query, host: Query, stack: seq<string>, spent: int)
    requires Onward(q, host, stack, spent) && FirstCall(host.items) == |host.items|
    ensures !Loops(q.items, stack) && AllFit(q.items) && Inlinings(q.items) == spent && Free(host) <= Free(q)
  {
    BeforeFirst(host.items);
    assert host.items + [] == host.items;
    NoCallsLead(host.items, [], stack);
    hide Free, Placed, ReadsItsColumns;
  }

  lemma RefusedOn(q: Query, host: Query, stack: seq<string>, spent: int, budget: int, error: Error)
    requires Onward(q, host, stack, spent) && Refused(host, stack, budget, error)
    ensures Refused(q, stack, budget + spent, error)
  {
    hide Loops, Inlinings, AllFit, Placed, ReadsItsColumns, Free;
  }

  lemma BeforeFirst(items: seq<Item>)
    ensures CallFree(items[..FirstCall(items)])
    ensures FirstCall(items) == |items| ==> CallFree(items)
  {
  }

  /** A call refused at once. */
  lemma RefusedHere(host: Query, stack: seq<string>, budget: int)
    requires FirstCall(host.items) < |host.items|
    ensures var at := FirstCall(host.items);
      var fn, args := host.items[at].fn, host.items[at].args;
      && (fn.name in stack ==> Refused(host, stack, budget, Recursive))
      && (budget <= 0 ==> Refused(host, stack, budget, TooManyInlinings))
      && (!ArgumentsFit(fn, args) ==> Refused(host, stack, budget, ArgumentCount))
      && (!ReadsLeft(host, at) ==> Refused(host, stack, budget, UnknownAlias))
      && (ReadsOfAll(args) != {} && !IsLateral(host, at) ==> Refused(host, stack, budget, Unresolved))
  {
    var at := FirstCall(host.items);
    var args := host.items[at].args;
    BeforeFirst(host.items);
    CallAdds(host.items, at, stack);
    if Placed(host.items) {
      CallIsPlaced(host.items, at);
      forall r | r in ReadsOfAll(args) ensures r.0 in Aliases(host.items[..at]) {
        assert r.0 in NamesIn(ReadsOfAll(args));
      }
    }
    hide Loops, Inlinings, AllFit, Placed, ReadsItsColumns, ArgumentsFit;
  }

  /** A call refused in its body. */
  lemma RefusedInside(host: Query, mapping: map<string, string>, stack: seq<string>, known: set<string>, budget: int,
                      error: Error)
    requires FirstCall(host.items) < |host.items|
    requires var at := FirstCall(host.items);
      var fn, args := host.items[at].fn, host.items[at].args;
      && WellFormed(fn) && FreshFor(fn, mapping, args, known)
      && Refused(Instance(fn, mapping, args), stack + [fn.name], budget, error)
    ensures Refused(host, stack, budget + 1, error)
  {
    var at := FirstCall(host.items);
    var fn, args := host.items[at].fn, host.items[at].args;
    BeforeFirst(host.items);
    CallAdds(host.items, at, stack);
    InstanceCalls(fn, mapping, args, stack + [fn.name]);
    if Placed(host.items) {
      CallIsPlaced(host.items, at);
      InstancePlaced(fn, mapping, args, known);
    }
    if ReadsItsColumns(host) {
      ReadsItsAt(host, at);
      InstanceReadsIts(fn, mapping, args, known);
    }
    hide Loops, Inlinings, AllFit, Placed, ReadsItsColumns, WellFormed, FreshFor, Instance, CallFree;
  }

  /** What the body's own expansion was found to be. */
  ghost predicate BodyPassed(fn: Function, args: seq<Expr>, body: Query, stack: seq<string>, spent: int)
  {
    && !Loops(fn.body.items, stack + [fn.name]) && AllFit(fn.body.items) && spent == Inlinings(fn.body.items)
    && Free(body) <= NamesIn(ReadsOfAll(args))
  }

  lemma InstancePassed(fn: Function, mapping: map<string, string>, args: seq<Expr>, known: set<string>, body: Query,
                       stack: seq<string>, spent: int)
    requires WellFormed(fn) && FreshFor(fn, mapping, args, known)
    requires var inst := Instance(fn, mapping, args);
      && !Loops(inst.items, stack + [fn.name]) && AllFit(inst.items) && spent == Inlinings(inst.items)
      && Free(body) <= Free(inst)
    ensures BodyPassed(fn, args, body, stack, spent)
  {
    hide Loops, Inlinings, AllFit, WellFormed, FreshFor, Instance, Free;
    InstanceCalls(fn, mapping, args, stack + [fn.name]);
    InstanceFree(fn, mapping, args, known);
  }

  lemma PassedIs(fn: Function, args: seq<Expr>, body: Query, stack: seq<string>, spent: int)
    requires BodyPassed(fn, args, body, stack, spent)
    ensures !Loops(fn.body.items, stack + [fn.name]) && AllFit(fn.body.items) && spent == Inlinings(fn.body.items)
    ensures Free(body) <= NamesIn(ReadsOfAll(args))
  {
    hide Loops, Inlinings, AllFit, Free;
  }

  /** The columns a call is read by are the expanded body's. */
  lemma NamedColumns(item: Item, mapping: map<string, string>, body: Query, known: set<string>, known': set<string>)
    requires item.Call? && Inlined(item, mapping, body, known, known')
    ensures ColumnsOf(Named(body, item.fn.columns)).Keys == CallColumns(item.fn)
    ensures |NameColumns(body.projections, item.fn.columns)| == |body.projections|
  {
    var fn := item.fn;
    var inst, ps := Instance(fn, mapping, item.args), fn.body.projections;
    forall i | 0 <= i < |ps| ensures IsTags(body.projections[i]) <==> IsTags(ps[i]) {
      assert IsTags(inst.projections[i]) <==> IsTags(ps[i]);
    }
    ColumnsNamed(ps, body.projections, fn.columns);
    hide *;
    KeysAre(Named(body, fn.columns));
    KeysAre(Named(fn.body, fn.columns));
    NamedIs(body, fn.columns);
    NamedIs(fn.body, fn.columns);
    CallColumnsIs(fn);
  }

  lemma CallColumnsIs(fn: Function)
    ensures CallColumns(fn) == ColumnsOf(Named(fn.body, fn.columns)).Keys
  {
  }

  lemma NamedIs(q: Query, columns: seq<string>)
    ensures Named(q, columns).projections == NameColumns(q.projections, columns)
  {
  }

  lemma KeysAre(q: Query)
    ensures ColumnsOf(q).Keys == set i | 0 <= i < |Header(q.projections)| :: Header(q.projections)[i]
  {
  }

  lemma ColumnsAsked(host: Query, mapping: map<string, string>, body: Query, known: set<string>, known': set<string>,
                     stack: seq<string>, budget: int)
    requires FirstCall(host.items) < |host.items|
    requires Inlined(host.items[FirstCall(host.items)], mapping, body, known, known')
    ensures var item := host.items[FirstCall(host.items)];
      !ReadsColumns(ReadsOf(host), item.alias, ColumnsOf(Named(body, item.fn.columns))) ==>
      Refused(host, stack, budget, UnknownColumn)
  {
    hide *;
    var at := FirstCall(host.items);
    var item := host.items[at];
    NamedColumns(item, mapping, body, known, known');
    ReadsOnlyKeys(ReadsOf(host), item.alias, ColumnsOf(Named(body, item.fn.columns)));
    if ReadsItsColumns(host) {
      ReadsItsAt(host, at);
    } else {
      ColumnsRefused(host, stack, budget);
    }
  }

  lemma ReadsOnlyKeys(rs: set<(string, seq<string>)>, alias: string, columns: map<string, Expr>)
    ensures ReadsColumns(rs, alias, columns) <==> ReadsOnly(rs, alias, columns.Keys)
  {
  }

  lemma ColumnsRefused(host: Query, stack: seq<string>, budget: int)
    requires !ReadsItsColumns(host)
    ensures Refused(host, stack, budget, UnknownColumn)
  {
    hide ReadsItsColumns;
  }

  lemma NamedFree(body: Query, columns: seq<string>)
    requires |NameColumns(body.projections, columns)| == |body.projections|
    ensures Free(Named(body, columns)) == Free(body)
  {
    NamedReads(body, columns);
  }

  lemma ArgumentsOutside(host: Query, at: nat, body: Query)
    requires at < |host.items| && host.items[at].Call? && Checked(host, at, body)
    ensures NamesIn(ReadsOfAll(host.items[at].args)) <= Aliases(host.items[..at]) + Free(host)
  {
    ArgumentNames(host, at);
    assert host.items == host.items[..at] + host.items[at..];
    ReadsOfConcat(host.items[..at], host.items[at..]);
    hide ReadsOfAll, ReadsOf;
  }

  /** One lateral call spent. */
  lemma LateralOnward(q: Query, host: Query, mapping: map<string, string>, body: Query, known: set<string>,
                      known': set<string>, stack: seq<string>, before: int, spent: int)
    requires LateralReady(host, FirstCall(host.items), mapping, body, known, known')
    requires var item := host.items[FirstCall(host.items)];
      && item.fn.name !in stack && ArgumentsFit(item.fn, item.args) && BodyPassed(item.fn, item.args, body, stack, spent)
    requires Onward(q, host, stack, before)
    ensures var at := FirstCall(host.items);
      Onward(q, Spliced(host, at, Named(body, host.items[at].fn.columns)), stack, before + 1 + spent)
  {
    hide *;
    var at := FirstCall(host.items);
    LateralUsed(host, mapping, body, known, known');
    var item := host.items[at];
    var named := Named(body, item.fn.columns);
    PassedIs(item.fn, item.args, body, stack, spent);
    InlinedReady(host, at, mapping, body, known, known');
    ArgumentsChecked(host, at, named);
    NamedColumns(item, mapping, body, known, known');
    NamedFree(body, item.fn.columns);
    ReadyFree(host, at, named, known, known');
    CallAdds(host.items, at, stack);
    SplicedCalls(host, at, named, stack);
    ArgumentsOutside(host, at, named);
    SplicedFree(host, at, named);
    if Placed(host.items) {
      SplicedPlaced(host, at, named);
    }
    if ReadsItsColumns(host) {
      SplicedReadsIts(host, at, named, known, known');
    }
    OnwardOne(q, host, Spliced(host, at, named), stack, before, 1 + spent);
  }

  lemma LateralUsed(host: Query, mapping: map<string, string>, body: Query, known: set<string>, known': set<string>)
    requires LateralReady(host, FirstCall(host.items), mapping, body, known, known')
    ensures var at := FirstCall(host.items);
      && at < |host.items| && Hosted(host, known) && WellFormedItems(host.items) && ReadsLeft(host, at)
      && Inlined(host.items[at], mapping, body, known, known')
      && ReadsColumns(ReadsOf(host), host.items[at].alias, ColumnsOf(Named(body, host.items[at].fn.columns)))
  {
    hide Inlined, ReadsLeft, WellFormedItems, ReadsColumns, Aliases, ReadsOf;
  }

  lemma OnwardOne(q: Query, host: Query, host': Query, stack: seq<string>, before: int, more: int)
    requires Onward(q, host, stack, before)
    requires Inlinings(host.items) == more + Inlinings(host'.items)
    requires Loops(host.items, stack) <==> Loops(host'.items, stack)
    requires AllFit(host.items) <==> AllFit(host'.items)
    requires Placed(host.items) ==> Placed(host'.items)
    requires ReadsItsColumns(host) ==> ReadsItsColumns(host')
    requires Free(host') <= Free(host)
    ensures Onward(q, host', stack, before + more)
  {
    hide Loops, Inlinings, AllFit, Placed, ReadsItsColumns, Free;
  }

  /** One call read off its CTE. */
  lemma CteOnward(q: Query, host: Query, name: string, body: Query, named: Query, known: set<string>, stack: seq<string>,
                  before: int, spent: int)
    requires Hosted(host, known) && FirstCall(host.items) < |host.items|
    requires var item := host.items[FirstCall(host.items)];
      && item.fn.name !in stack && ArgumentsFit(item.fn, item.args) && BodyPassed(item.fn, item.args, body, stack, spent)
    requires Onward(q, host, stack, before)
    ensures Onward(q, WithCte(host, FirstCall(host.items), name, named), stack, before + 1 + spent)
  {
    hide *;
    var at := FirstCall(host.items);
    var item := host.items[at];
    PassedIs(item.fn, item.args, body, stack, spent);
    BeforeFirst(host.items);
    CallAdds(host.items, at, stack);
    UpdatedCalls(host.items, at, Derived(name, named, item.alias), stack);
    CteItems(host, at, name, named);
    if Placed(host.items) {
      CtePlaced(host, at, name, named);
    }
    if ReadsItsColumns(host) {
      CteReadsIts(host, at, name, named);
    }
    CteReads(host, at, name, named);
    OnwardOne(q, host, WithCte(host, at, name, named), stack, before, 1 + spent);
  }

  lemma CteItems(host: Query, at: nat, name: string, body: Query)
    requires at < |host.items|
    ensures WithCte(host, at, name, body).items == host.items[at := Derived(name, body, host.items[at].alias)]
  {
  }

  lemma CtePlaced(host: Query, at: nat, name: string, body: Query)
    requires at < |host.items| && host.items[at].Call? && CallFree(host.items[..at]) && Placed(host.items)
    ensures Placed(WithCte(host, at, name, body).items)
  {
    var items, items' := host.items, WithCte(host, at, name, body).items;
    var derived := Derived(name, body, items[at].alias);
    CallIsPlaced(items, at);
    assert items' == items[..at] + ([derived] + items[at + 1..]);
    PlacedPast(items[..at], [derived] + items[at + 1..], {});
    PlacedPast([derived], items[at + 1..], Aliases(items[..at]));
    OneAlias(derived);
    assert {} + Aliases(items[..at]) == Aliases(items[..at]);
    hide Aliases, PlacedFrom, ReadsOfAll, ClosedParams;
  }

  /** The query reads no more than it did. */
  lemma CteReads(host: Query, at: nat, name: string, body: Query)
    requires at < |host.items|
    ensures ReadsOf(WithCte(host, at, name, body)) <= ReadsOf(host)
    ensures Aliases(WithCte(host, at, name, body).items) == Aliases(host.items)
    ensures Free(WithCte(host, at, name, body)) <= Free(host)
  {
    var q := WithCte(host, at, name, body);
    forall i | 0 <= i < |q.items| ensures q.items[i].alias == host.items[i].alias { }
    forall r | r in ReadsOfItems(q.items) ensures r in ReadsOfItems(host.items) {
      var i :| 0 <= i < |q.items| && r in ReadsOfItem(q.items[i]);
      assert q.items[i] == host.items[i];
    }
    forall n | n in Aliases(q.items) ensures n in Aliases(host.items) {
      var i :| 0 <= i < |q.items| && q.items[i].alias == n;
      assert host.items[i].alias == n;
    }
    forall n | n in Aliases(host.items) ensures n in Aliases(q.items) {
      var i :| 0 <= i < |host.items| && host.items[i].alias == n;
      assert q.items[i].alias == n;
    }
  }

  lemma CteReadsIts(host: Query, at: nat, name: string, body: Query)
    requires at < |host.items| && host.items[at].Call? && ReadsItsColumns(host)
    ensures ReadsItsColumns(WithCte(host, at, name, body))
  {
    var q := WithCte(host, at, name, body);
    CteReads(host, at, name, body);
    hide ReadsOf, CallColumns;
    forall i | 0 <= i < |q.items| && q.items[i].Call?
      ensures ReadsOnly(ReadsOf(q), q.items[i].alias, CallColumns(q.items[i].fn)) && ReadsItsColumns(q.items[i].fn.body)
    {
      assert q.items[i] == host.items[i];
    }
  }

  // The expander

  lemma NotBefore(items: seq<Item>, i: nat)
    requires Distinct(items) && i < |items|
    ensures items[i].alias !in Aliases(items[..i])
    ensures Aliases(items[..i + 1]) == Aliases(items[..i]) + {items[i].alias}
  {
    assert items[..i + 1] == items[..i] + [items[i]];
    ReadsOfConcat(items[..i], [items[i]]);
    assert Aliases([items[i]]) == {items[i].alias} by {
      assert [items[i]][0].alias in Aliases([items[i]]);
    }
    forall j | 0 <= j < i ensures items[..i][j].alias != items[i].alias {
      assert items[j].alias != items[i].alias;
    }
  }

  lemma Extended(m: map<string, string>, k: string, v: string)
    requires Injective(m) && k !in m && v !in m.Values
    ensures Injective(m[k := v]) && m[k := v].Values == m.Values + {v}
  {
    var m' := m[k := v];
    forall u | u in m.Values + {v} ensures u in m'.Values {
      if u == v {
        assert m'[k] == v;
      } else {
        var a :| a in m && m[a] == u;
        assert m'[a] == u;
      }
    }
    forall a | a in m ensures m[a] in m.Values && m[a] != v { }
  }

  /** The names taken, the inlinings left, and one entry per inlining made. */
  class Expander {
    var taken: set<string>
    var budget: int
    var expansions: seq<string>

    constructor (script: set<string>)
      ensures taken == script && budget == EXPANSION_BUDGET && expansions == []
    {
      taken, budget, expansions := script, EXPANSION_BUDGET, [];
    }

    method FreshName(base: string) returns (name: string)
      modifies this`taken
      ensures name !in old(taken) && taken == old(taken) + {name} && Names.Padded(base, name)
      ensures forall k :: |base| <= k < |name| ==> name[..k] in old(taken)
    {
      name := Names.Fresh(base, taken);
      taken := taken + {name};
    }

    /** A name per body alias that nothing has claimed, each from its own base. */
    method FreshAliases(fn: Function, index: nat) returns (mapping: map<string, string>)
      requires Distinct(fn.body.items)
      modifies this`taken
      ensures mapping.Keys == Aliases(fn.body.items) && Injective(mapping)
      ensures taken == old(taken) + mapping.Values && mapping.Values !! old(taken)
      ensures forall a :: a in mapping ==> GeneratedFrom(fn, index, a, mapping[a])
    {
      mapping := map[];
      var items := fn.body.items;
      for i := 0 to |items|
        invariant mapping.Keys == Aliases(items[..i]) && Injective(mapping)
        invariant taken == old(taken) + mapping.Values && mapping.Values !! old(taken)
        invariant forall a :: a in mapping ==> GeneratedFrom(fn, index, a, mapping[a])
      {
        var alias := items[i].alias;
        NotBefore(items, i);
        var name := FreshName(fn.name + "_" + Names.Decimal(index + 1) + "_" + alias);
        Extended(mapping, alias, name);
        mapping := mapping[alias := name];
      }
      assert items[..|items|] == items;
    }

    /** Inline every call `q` makes, leftmost first, each body's own calls before
        the body leaves for the query (`_expand_within`, `_expand_row_source`).
        `nulled` says whether an inlining turned a defaulted argument NULL; what
        `NeverNulled` asks of the script can be seen before. */
    method Expand(q: Query, stack: seq<string>) returns (r: Result, ghost nulled: bool)
      requires Hosted(q, taken) && budget >= 0
      modifies this
      ensures old(taken) <= taken && old(expansions) <= expansions
      ensures budget <= old(budget) && |expansions| <= |old(expansions)| + old(budget) - budget
      ensures r.Ok? ==> budget >= 0 && CallFree(r.query.items)
      ensures r.Ok? ==> Kept(q, r.query, old(taken), taken)
      ensures r.Ok? && !nulled ==> SameMeaning(q, r.query, old(taken))
      ensures r.Ok? ==> NeverNulled(q, r.query, nulled)
      ensures r.Ok? ==> !Loops(q.items, stack) && AllFit(q.items) && old(budget) - budget == Inlinings(q.items)
      ensures r.Ok? ==> Free(r.query) <= Free(q)
      ensures r.Err? ==> Refused(q, stack, old(budget), r.error)
      decreases budget, 0
    {
      hide Hosted, Kept, Inlined, SameMeaning, NeverNulled, ExpandedTrue, LateralTurned, NullFreeItems, NullFreeSelect,
        Steady, Named, Spliced, WithCte, ReadsColumns, ReadsOf, ReadsOfAll, ReadsLeft, IsLateral, ArgumentsFit, ColumnsOf,
        Onward, Refused, BodyPassed, Loops, AllFit, Inlinings, Free;
      KeptSelf(q, taken);
      OnwardSelf(q, stack);
      nulled := false;
      var host := q;
      while FirstCall(host.items) < |host.items|
        invariant old(taken) <= taken && old(expansions) <= expansions
        invariant 0 <= budget <= old(budget) && |expansions| <= |old(expansions)| + old(budget) - budget
        invariant Hosted(host, taken) && Kept(q, host, old(taken), taken)
        invariant !nulled ==> SameMeaning(q, host, old(taken))
        invariant NeverNulled(q, host, nulled)
        invariant Onward(q, host, stack, old(budget) - budget)
        decreases budget
      {
        ghost var left, spent := budget, old(budget) - budget;
        RefusedHere(host, stack, left);
        var at, index := FirstCall(host.items), |expansions|;
        var fn, args := host.items[at].fn, host.items[at].args;
        ghost var known := taken;
        if !ReadsLeft(host, at) {
          RefusedOn(q, host, stack, spent, left, UnknownAlias);
          return Err(UnknownAlias), nulled;
        }
        if fn.name in stack {
          RefusedOn(q, host, stack, spent, left, Recursive);
          return Err(Recursive), nulled;
        }
        budget := budget - 1;
        if budget < 0 {
          RefusedOn(q, host, stack, spent, left, TooManyInlinings);
          return Err(TooManyInlinings), nulled;
        }
        if !ArgumentsFit(fn, args) {
          RefusedOn(q, host, stack, spent, left, ArgumentCount);
          return Err(ArgumentCount), nulled;
        }
        var mapping, expanded, inner := Instantiate(host, at, stack);
        if expanded.Err? {
          RefusedOn(q, host, stack, spent, left, expanded.error);
          return expanded, nulled;
        }
        var body := Named(expanded.query, fn.columns);
        if IsLateral(host, at) {
          ColumnsAsked(host, mapping, expanded.query, known, taken, stack, left);
          if !ReadsColumns(ReadsOf(host), host.items[at].alias, ColumnsOf(body)) {
            RefusedOn(q, host, stack, spent, left, UnknownColumn);
            return Err(UnknownColumn), nulled;
          }
          ghost var turned := inner || LateralTurned(host, at, body);
          LateralOnward(q, host, mapping, expanded.query, known, taken, stack, spent, left - 1 - budget);
          LateralDone(q, host, at, mapping, expanded.query, old(taken), known, taken, nulled, inner);
          host, nulled := Spliced(host, at, body), nulled || turned;
        } else {
          // A bare name no FROM item binds is left for resolving, which refuses it.
          if ReadsOfAll(args) != {} {
            RefusedOn(q, host, stack, spent, left, Unresolved);
            return Err(Unresolved), nulled;
          }
          ghost var known' := taken;
          var name := FreshName(fn.name + "_" + Names.Decimal(index + 1));
          CteOnward(q, host, name, expanded.query, body, known, stack, spent, left - 1 - budget);
          CteDone(q, host, at, mapping, name, expanded.query, old(taken), known, known', taken, nulled, inner);
          host, nulled := WithCte(host, at, name, body), nulled || inner;
        }
      }
      OnwardDone(q, host, stack, old(budget) - budget);
      return Ok(host), nulled;
    }

    /** A private copy of the body with the arguments put in, its own calls inlined. */
    method Instantiate(host: Query, at: nat, stack: seq<string>)
      returns (mapping: map<string, string>, r: Result, ghost nulled: bool)
      requires Hosted(host, taken) && at == FirstCall(host.items) && at < |host.items| && budget >= 0
      requires ArgumentsFit(host.items[at].fn, host.items[at].args)
      modifies this
      ensures old(taken) <= taken && old(expansions) <= expansions
      ensures budget <= old(budget) && |expansions| <= |old(expansions)| + 1 + old(budget) - budget
      ensures r.Ok? ==> budget >= 0 && Inlined(host.items[at], mapping, r.query, old(taken), taken)
      ensures r.Ok? && !nulled ==>
        ExpandedTrue(host.items[at].fn, mapping, host.items[at].args, r.query, old(taken))
      ensures r.Ok? && NullFreeItems(host.items) ==> !nulled && NullFreeSelect(r.query.projections)
      ensures r.Ok? && Steady(host.items) ==> !nulled
      ensures r.Ok? ==> BodyPassed(host.items[at].fn, host.items[at].args, r.query, stack, old(budget) - budget)
      ensures r.Err? ==> Refused(host, stack, old(budget) + 1, r.error)
      decreases budget, 1
    {
      hide Kept, Inlined, SameMeaning, NeverNulled, ExpandedTrue, InstanceTurned, NullFreeItems, NullFreeSelect, Steady,
        WellFormed, WellFormedItems, FreshFor, Injective, NoLooseTags, CallFree, Instance, ArgumentsFit, Aliases, ReadsOf,
        GeneratedFrom, Refused, BodyPassed, Loops, AllFit, Inlinings, Free;
      var fn, args := host.items[at].fn, host.items[at].args;
      var index := |expansions|;
      expansions := expansions + [fn.name];
      WellFormedCall(host, at);
      mapping := FreshAliases(fn, index);
      InstanceReady(host, at, index, mapping, old(taken));
      r, nulled := Expand(Instance(fn, mapping, args), stack + [fn.name]);
      if r.Ok? {
        KeptInlined(host, at, mapping, r.query, old(taken), taken);
        InstanceDone(host, at, mapping, r.query, old(taken), nulled);
        nulled := nulled || InstanceTurned(fn, mapping, args);
        InstancePassed(fn, mapping, args, old(taken), r.query, stack, old(budget) - budget);
      } else {
        RefusedInside(host, mapping, stack, old(taken), old(budget), r.error);
      }
    }
  }
}
