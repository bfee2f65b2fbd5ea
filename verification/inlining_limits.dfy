/**
Where the passes an inlining makes do not keep meaning, and exactly when: a
parameter spelled like a generated alias, and a call's `tags` read without an
alias. `WellFormed` rules out both. A NULL handed on is `Nulls`.
*/
module InliningLimits {
  import opened Wrappers
  import opened Sql
  import opened Rewriting
  import opened Instancing
  import Inlining
  import Names

  // A parameter spelled like a generated alias

  const ROW_READER := Function("f", [Param("f_1_x", None)], ["v"],
    Query([Source("t", [], "x", false)], None, [Projection(Read("x", ["v"]), None)]))

  const CAPTURED := Instance(ROW_READER, map["x" := "f_1_x"], [Op("1", [])])

  /** With nothing taken, `f`'s alias `x` becomes `f_1_x`, and the read of the
      row turns into a read of the argument: over any data, the rows are the
      call's own exactly when no row of `t` is told from the argument by it. */
  lemma CapturedAlias(w: World, env: Env)
    ensures "f" + "_" + Names.Decimal(1) + "_" + "x" == "f_1_x" && !WellFormed(ROW_READER)
    ensures CAPTURED.items[0].alias == "f_1_x" && CAPTURED.projections[0].expr == Dots(Paren(Op("1", [])), ["v"])
    ensures var rows := w.rows("t", []);
      Run(w, CAPTURED, env) == Run(w, ROW_READER.body, Arguments(w, ROW_READER, [Op("1", [])], env))
      <==> forall i :: 0 <= i < |rows| ==> w.field(rows[i], "v") == w.field(w.apply("1", []), "v")
  {
    CapturedText();
    var inner := Arguments(w, ROW_READER, [Op("1", [])], env);
    var rows := w.rows("t", []);
    var read, kept := CAPTURED.projections, ROW_READER.body.projections;
    assert EvalAll(w, [], env) == [] && EvalAll(w, [], inner) == [];
    SourceRows(w, rows, "f_1_x", read, env);
    SourceRows(w, rows, "x", kept, inner);
    var after, before := Each(w, rows, "f_1_x", [], None, read, env), Each(w, rows, "x", [], None, kept, inner);
    assert Run(w, CAPTURED, env) == after && Run(w, ROW_READER.body, inner) == before by {
      assert CAPTURED.items == [Source("t", [], "f_1_x", false)] && CAPTURED.items[1..] == [];
      assert ROW_READER.body.items[1..] == [];
      assert CAPTURED.where == None;
    }
    hide Each, Rows, Run, CAPTURED;
    forall i | 0 <= i < |rows|
      ensures after[i] == [w.field(w.apply("1", []), "v")] && before[i] == [w.field(rows[i], "v")]
    {
      assert read == [Projection(Dots(Paren(Op("1", [])), ["v"]), None)];
      FieldRead(w, env["f_1_x" := rows[i]], inner["x" := rows[i]], rows[i]);
      assert after[i] == Project(w, read, env["f_1_x" := rows[i]]);
      assert before[i] == Project(w, kept, inner["x" := rows[i]]);
    }
    if after == before {
      forall i | 0 <= i < |rows| ensures w.field(rows[i], "v") == w.field(w.apply("1", []), "v") {
        assert after[i][0] == before[i][0];
      }
    }
  }

  lemma CapturedText()
    ensures "f" + "_" + Names.Decimal(1) + "_" + "x" == "f_1_x" && !WellFormed(ROW_READER)
    ensures CAPTURED == Query([Source("t", [], "f_1_x", false)], None,
                              [Projection(Dots(Paren(Op("1", [])), ["v"]), None)])
  {
    var fn, args := ROW_READER, [Op("1", [])];
    var names, bound := ParamNames(fn.params), Bound(fn.params, args);
    assert names == ["f_1_x"] && bound == args;
    assert Columns(names, bound) == Columns(names[..0], bound[..0])["f_1_x" := args[0]];
    assert Columns(names, bound)["f_1_x"] == Op("1", []);
    var r := RenamingOf(fn, map["x" := "f_1_x"], args);
    assert r.Reading()("x", ["v"]) == Substituted(r.bindings, "f_1_x", ["v"]);
    assert Names.Decimal(1) == "1";
    assert fn.body.items[0].alias in Aliases(fn.body.items) && fn.params[0].name in ParamSet(fn);
    assert GeneratedFrom(fn, 0, "x", "f_1_x");
    assert CAPTURED.items[0] == Source("t", [], "f_1_x", false);
  }

  lemma FieldRead(w: World, env: Env, env': Env, row: Value)
    requires "x" in env' && env'["x"] == row
    ensures Project(w, [Projection(Dots(Paren(Op("1", [])), ["v"]), None)], env) == [w.field(w.apply("1", []), "v")]
    ensures Project(w, [Projection(Read("x", ["v"]), None)], env') == [w.field(row, "v")]
  {
    var one := Op("1", []);
    assert Eval(w, one, env) == w.apply("1", []) by {
      assert seq(|one.args|, i requires 0 <= i < |one.args| => Eval(w, one.args[i], env)) == [];
    }
    assert Eval(w, Paren(one), env) == Eval(w, one, env);
    FollowOne(w, w.apply("1", []), "v");
    FollowOne(w, row, "v");
  }

  /** A table's rows one by one. */
  lemma {:induction false} SourceRows(w: World, vs: seq<Value>, alias: string, ps: seq<Projection>, env: Env)
    ensures |Each(w, vs, alias, [], None, ps, env)| == |vs|
    ensures forall i :: 0 <= i < |vs| ==> Each(w, vs, alias, [], None, ps, env)[i] == Project(w, ps, env[alias := vs[i]])
    decreases |vs|
  {
    if vs != [] {
      SourceRows(w, vs[1..], alias, ps, env);
      assert Rows(w, [], None, ps, env[alias := vs[0]]) == [Project(w, ps, env[alias := vs[0]])];
    }
  }

  // A call's `tags` read without an alias

  /** Inlining aliases a projection `tags` exactly when it was the call's `tags`
      read bare; it then fills no declared column. */
  lemma TagsMoved(p: Projection, alias: string, columns: map<string, Expr>)
    ensures IsTags(LateralProjection(p, alias, columns)) && !IsTags(p)
       <==> p.name.None? && p.expr.Read? && p.expr.name == alias && NameOf(p) == TAGS
  {
  }

  /** Of projections that fill the declared columns one for one, the `k`-th so
      aliased shifts every column from there on by one, and the last is lost. */
  lemma {:induction false} ColumnsShift(ps: seq<Projection>, after: seq<Projection>, k: nat, columns: seq<string>)
    requires |after| == |ps| == |columns| && k < |ps|
    requires forall i :: 0 <= i < |ps| ==> !IsTags(ps[i]) && (IsTags(after[i]) <==> i == k)
    ensures Header(NameColumns(ps, columns)) == columns
    ensures Header(NameColumns(after, columns)) == columns[..k] + [TAGS] + columns[k..|columns| - 1]
  {
    if k == 0 {
      PlainColumns(ps, columns);
      PlainColumns(after[1..], columns[..|columns| - 1]);
      MoreColumns(after[1..], columns);
      Inlining.NamedFirst(after, columns);
      assert columns[..0] + [TAGS] + columns[0..|columns| - 1] == [TAGS] + columns[..|columns| - 1];
    } else {
      ColumnsShift(ps[1..], after[1..], k - 1, columns[1..]);
      ShiftOn(columns, k);
      Inlining.NamedFirst(ps, columns);
      Inlining.NamedFirst(after, columns);
      hide NameColumns, Header;
    }
  }

  lemma ShiftOn(columns: seq<string>, k: nat)
    requires 0 < k < |columns|
    ensures [columns[0]] + columns[1..] == columns
    ensures [columns[0]] + (columns[1..][..k - 1] + [TAGS] + columns[1..][k - 1..|columns| - 2])
         == columns[..k] + [TAGS] + columns[k..|columns| - 1]
  {
    assert columns[..k] == [columns[0]] + columns[1..][..k - 1];
    var a, b := columns[k..|columns| - 1], columns[1..][k - 1..|columns| - 2];
    assert |a| == |b|;
    forall i | 0 <= i < |a| ensures a[i] == b[i] {
      assert a[i] == columns[k + i] == columns[1..][k - 1 + i];
    }
    assert a == b;
  }

  lemma {:induction false} PlainColumns(ps: seq<Projection>, columns: seq<string>)
    requires |ps| == |columns| && forall i :: 0 <= i < |ps| ==> !IsTags(ps[i])
    ensures |NameColumns(ps, columns)| == |ps| && Header(NameColumns(ps, columns)) == columns
  {
    if ps != [] {
      PlainColumns(ps[1..], columns[1..]);
      Inlining.NamedFirst(ps, columns);
      assert [columns[0]] + columns[1..] == columns;
    }
  }

  /** Columns past the last projection are not filled. */
  lemma {:induction false} MoreColumns(ps: seq<Projection>, columns: seq<string>)
    requires |columns| == |ps| + 1 && forall i :: 0 <= i < |ps| ==> !IsTags(ps[i])
    ensures NameColumns(ps, columns) == NameColumns(ps, columns[..|columns| - 1])
  {
    if ps != [] {
      MoreColumns(ps[1..], columns[1..]);
      assert columns[..|columns| - 1][1..] == columns[1..][..|columns[1..]| - 1];
    }
  }
}
