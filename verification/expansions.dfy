/**
Inlining every call of a query's text: why it ends, whatever the definitions,
and that each body's text can be led home.
*/
module Expansions {
  import opened Wrappers
  import opened Positions

  const EXPANSION_BUDGET: nat := 200

  datatype Param = Param(name: string, default: Option<Term>)

  /** A function and the scope its body's bare names resolve in, or a package's
      wasm declaration under the path a call writes. */
  datatype Definition =
    | Fn(qualified: string, params: seq<Param>, body: Term, scope: string)
    | Wasm(called: string, version: string)

  /** What a bare name means in each scope. */
  type Definitions = map<(string, string), Definition>

  predicate IsPath(name: string)
  {
    '.' in name
  }

  /** A bare name is no path, and a path a package's declaration is called by
      is one, of identifiers; every body's text is the script's or a library's
      own. */
  predicate WellDefined(defs: Definitions)
  {
    && (forall k :: k in defs ==> !IsPath(k.1))
    && (forall k :: k in defs && defs[k].Wasm? ==> IsPath(defs[k].called) && '@' !in defs[k].called)
    && (forall k :: k in defs && defs[k].Fn? ==> Known(defs[k].body, 0))
    && (forall k, i :: k in defs && defs[k].Fn? && 0 <= i < |defs[k].params| && defs[k].params[i].default.Some? ==>
          Known(defs[k].params[i].default.value, 0))
  }

  datatype Error = Recursive(name: string) | OverBudget | ArgumentCount(name: string)
  datatype Result = Ok(term: Term) | Err(error: Error)

  // Finding a call

  predicate IsSite(defs: Definitions, scope: string, t: Term)
  {
    t.kind.Call? && (scope, t.kind.name) in defs
  }

  /** The way down to a node: which argument at each level. */
  type Path = seq<nat>

  predicate Leads(t: Term, path: Path)
  {
    path == [] || (path[0] < |t.args| && Leads(t.args[path[0]], path[1..]))
  }

  function At(t: Term, path: Path): Term
    requires Leads(t, path)
  {
    if path == [] then t else At(t.args[path[0]], path[1..])
  }

  function Put(t: Term, path: Path, u: Term): Term
    requires Leads(t, path)
  {
    if path == [] then u else t.(args := t.args[path[0] := Put(t.args[path[0]], path[1..], u)])
  }

  /** The first call to a definition, parents first (`_next_call`). */
  function FirstSite(defs: Definitions, scope: string, t: Term): (path: Option<Path>)
    ensures path.Some? ==> Leads(t, path.value) && IsSite(defs, scope, At(t, path.value))
    decreases t, 1
  {
    if IsSite(defs, scope, t) then Some([]) else FirstAmong(defs, scope, t, 0)
  }

  function FirstAmong(defs: Definitions, scope: string, t: Term, from: nat): (path: Option<Path>)
    requires from <= |t.args|
    ensures path.Some? ==> path.value != [] && Leads(t, path.value) && IsSite(defs, scope, At(t, path.value))
    decreases t, 0, |t.args| - from
  {
    if from == |t.args| then None
    else
      var found := FirstSite(defs, scope, t.args[from]);
      if found.Some? then
        assert ([from] + found.value)[1..] == found.value;
        Some([from] + found.value)
      else FirstAmong(defs, scope, t, from + 1)
  }

  /** No call to a definition is left. */
  predicate Inlined(defs: Definitions, scope: string, t: Term)
  {
    !IsSite(defs, scope, t) && forall i :: 0 <= i < |t.args| ==> Inlined(defs, scope, t.args[i])
  }

  lemma {:induction false} NoneFound(defs: Definitions, scope: string, t: Term)
    ensures FirstSite(defs, scope, t).None? <==> Inlined(defs, scope, t)
    decreases t, 1
  {
    NoneAmong(defs, scope, t, 0);
  }

  lemma {:induction false} NoneAmong(defs: Definitions, scope: string, t: Term, from: nat)
    requires from <= |t.args|
    ensures FirstAmong(defs, scope, t, from).None? <==> forall i :: from <= i < |t.args| ==> Inlined(defs, scope, t.args[i])
    decreases t, 0, |t.args| - from
  {
    if from < |t.args| {
      NoneFound(defs, scope, t.args[from]);
      NoneAmong(defs, scope, t, from + 1);
    }
  }

  // Package wasm calls not yet adopted

  predicate IsWasmSite(defs: Definitions, scope: string, t: Term)
  {
    IsSite(defs, scope, t) && defs[(scope, t.kind.name)].Wasm?
  }

  function WasmSites(defs: Definitions, scope: string, t: Term): nat
    decreases t, 1
  {
    (if IsWasmSite(defs, scope, t) then 1 else 0) + WasmAmong(defs, scope, t, |t.args|)
  }

  function WasmAmong(defs: Definitions, scope: string, t: Term, upTo: nat): nat
    requires upTo <= |t.args|
    decreases t, 0, upTo
  {
    if upTo == 0 then 0
    else WasmAmong(defs, scope, t, upTo - 1) + WasmSites(defs, scope, t.args[upTo - 1])
  }

  /** The count goes by each argument's own, and no other's. */
  lemma {:induction false} WasmOneArgument(defs: Definitions, scope: string, t: Term, i: nat, u: Term, upTo: nat)
    requires i < |t.args| && upTo <= |t.args|
    ensures var t' := t.(args := t.args[i := u]);
      WasmAmong(defs, scope, t', upTo) + (if i < upTo then WasmSites(defs, scope, t.args[i]) else 0)
      == WasmAmong(defs, scope, t, upTo) + (if i < upTo then WasmSites(defs, scope, u) else 0)
    decreases upTo
  {
    if upTo > 0 {
      WasmOneArgument(defs, scope, t, i, u, upTo - 1);
    }
  }

  lemma {:induction false} WasmPut(defs: Definitions, scope: string, t: Term, path: Path, u: Term)
    requires Leads(t, path)
    ensures WasmSites(defs, scope, Put(t, path, u)) + WasmSites(defs, scope, At(t, path))
         == WasmSites(defs, scope, t) + WasmSites(defs, scope, u)
    decreases path
  {
    if path != [] {
      var i := path[0];
      WasmPut(defs, scope, t.args[i], path[1..], u);
      WasmOneArgument(defs, scope, t, i, Put(t.args[i], path[1..], u), |t.args|);
    }
  }

  // Positions through a replacement

  lemma {:induction false} KnownAt(t: Term, path: Path, n: nat)
    requires Leads(t, path) && Known(t, n)
    ensures Known(At(t, path), n)
    decreases path
  {
    if path != [] {
      KnownAt(t.args[path[0]], path[1..], n);
    }
  }

  lemma {:induction false} KnownPut(t: Term, path: Path, u: Term, n: nat)
    requires Leads(t, path) && Known(t, n) && Known(u, n)
    ensures Known(Put(t, path, u), n)
    decreases path
  {
    if path != [] {
      KnownPut(t.args[path[0]], path[1..], u, n);
    }
  }

  function Earlier(a: Option<Pos>, b: Option<Pos>): Option<Pos>
  {
    if a.None? then b else if b.None? then a
    else if b.value.line < a.value.line || (b.value.line == a.value.line && b.value.col < a.value.col) then b else a
  }

  /** The earliest position in the text under a node, if any (`_pos`). */
  function Earliest(t: Term): Option<Pos>
    decreases t, 1
  {
    Earlier(t.pos, EarliestAmong(t, |t.args|))
  }

  function EarliestAmong(t: Term, upTo: nat): Option<Pos>
    requires upTo <= |t.args|
    decreases t, 0, upTo
  {
    if upTo == 0 then None else Earlier(EarliestAmong(t, upTo - 1), Earliest(t.args[upTo - 1]))
  }

  function PosOf(t: Term): Pos
  {
    var found := Earliest(t);
    if found.None? then FALLBACK else found.value
  }

  lemma {:induction false} EarliestKnown(t: Term, n: nat)
    requires Known(t, n)
    ensures Earliest(t).Some? ==> Earliest(t).value.line < Top(n)
    ensures PosOf(t).line < Top(n)
    decreases t, 1
  {
    EarliestAmongKnown(t, n, |t.args|);
  }

  lemma {:induction false} EarliestAmongKnown(t: Term, n: nat, upTo: nat)
    requires Known(t, n) && upTo <= |t.args|
    ensures EarliestAmong(t, upTo).Some? ==> EarliestAmong(t, upTo).value.line < Top(n)
    decreases t, 0, upTo
  {
    if upTo > 0 {
      EarliestAmongKnown(t, n, upTo - 1);
      EarliestKnown(t.args[upTo - 1], n);
    }
  }

  // A body's instance

  function Substituted(t: Term, bindings: map<string, Term>): Term
  {
    if t.kind.Read? && t.kind.name in bindings then bindings[t.kind.name]
    else Term(t.pos, t.kind, seq(|t.args|, i requires 0 <= i < |t.args| => Substituted(t.args[i], bindings)))
  }

  lemma {:induction false} SubstitutedKnown(t: Term, bindings: map<string, Term>, n: nat)
    requires Known(t, n) && forall p :: p in bindings ==> Known(bindings[p], n)
    ensures Known(Substituted(t, bindings), n)
  {
    var s := Substituted(t, bindings);
    if !(t.kind.Read? && t.kind.name in bindings) {
      forall i | 0 <= i < |s.args| ensures Known(s.args[i], n) {
        SubstitutedKnown(t.args[i], bindings, n);
      }
    }
  }

  predicate IsNull(t: Term)
  {
    t.kind == Read("null")
  }

  /** Each parameter the caller wrote, or its default. */
  predicate Fits(params: seq<Param>, args: seq<Term>)
  {
    |args| <= |params| && forall i :: |args| <= i < |params| ==> params[i].default.Some?
  }

  /** The argument, or the default where it is NULL or unwritten. */
  function BoundTo(params: seq<Param>, args: seq<Term>, i: nat): Term
    requires Fits(params, args) && i < |params|
  {
    if params[i].default.Some? && (i >= |args| || IsNull(args[i])) then params[i].default.value else args[i]
  }

  function Bindings(params: seq<Param>, args: seq<Term>, upTo: nat): (bindings: map<string, Term>)
    requires Fits(params, args) && upTo <= |params|
    ensures forall p :: p in bindings ==> exists i :: 0 <= i < |params| && bindings[p] == BoundTo(params, args, i)
  {
    if upTo == 0 then map[]
    else Bindings(params, args, upTo - 1)[params[upTo - 1].name := BoundTo(params, args, upTo - 1)]
  }

  /** A private copy of the body: moved into its range, then its arguments bound. */
  function Instance(fn: Definition, args: seq<Term>, index: nat): Term
    requires fn.Fn? && Fits(fn.params, args)
  {
    Substituted(Stamped(fn.body, index), Bindings(fn.params, args, |fn.params|))
  }

  // What a call may lead to

  /** A call as it is written: its name, and how many arguments. */
  type Shape = (string, nat)

  function Shapes(t: Term): set<Shape>
  {
    (if t.kind.Call? then {(t.kind.name, |t.args|)} else {}) + set i, s | 0 <= i < |t.args| && s in Shapes(t.args[i]) :: s
  }

  /** The calls a function's own text writes: its body's and its defaults'. */
  function Own(fn: Definition): set<Shape>
    requires fn.Fn?
  {
    Shapes(fn.body)
    + set i, s | 0 <= i < |fn.params| && fn.params[i].default.Some? && s in Shapes(fn.params[i].default.value) :: s
  }

  /** Every call in the text is one of `shapes`, or an adopted path. */
  predicate Spells(t: Term, shapes: set<Shape>)
  {
    && (t.kind.Call? ==> IsPath(t.kind.name) || (t.kind.name, |t.args|) in shapes)
    && (forall i :: 0 <= i < |t.args| ==> Spells(t.args[i], shapes))
  }

  /** What is written in a scope that does not define it is among `foreign`: put
      in place of a parameter, it is read in another. */
  predicate LeavesOver(defs: Definitions, scope: string, own: set<Shape>, foreign: set<Shape>)
  {
    forall s :: s in own ==> (scope, s.0) in defs || s in foreign
  }

  predicate AllLeaveOver(defs: Definitions, foreign: set<Shape>)
  {
    forall k :: k in defs && defs[k].Fn? ==> LeavesOver(defs, defs[k].scope, Own(defs[k]), foreign)
  }

  lemma {:induction false} SpellsShapes(t: Term, shapes: set<Shape>)
    requires Shapes(t) <= shapes
    ensures Spells(t, shapes)
  {
    forall i | 0 <= i < |t.args| ensures Spells(t.args[i], shapes) {
      assert Shapes(t.args[i]) <= Shapes(t);
      SpellsShapes(t.args[i], shapes);
    }
  }

  lemma {:induction false} SpellsMore(t: Term, shapes: set<Shape>, more: set<Shape>)
    requires Spells(t, shapes) && shapes <= more
    ensures Spells(t, more)
  {
    forall i | 0 <= i < |t.args| ensures Spells(t.args[i], more) {
      SpellsMore(t.args[i], shapes, more);
    }
  }

  lemma {:induction false} SpellsAt(t: Term, path: Path, shapes: set<Shape>)
    requires Leads(t, path) && Spells(t, shapes)
    ensures Spells(At(t, path), shapes)
    decreases path
  {
    if path != [] {
      SpellsAt(t.args[path[0]], path[1..], shapes);
    }
  }

  lemma {:induction false} SpellsPut(t: Term, path: Path, u: Term, shapes: set<Shape>)
    requires Leads(t, path) && Spells(t, shapes) && Spells(u, shapes)
    ensures Spells(Put(t, path, u), shapes)
    decreases path
  {
    if path != [] {
      SpellsPut(t.args[path[0]], path[1..], u, shapes);
    }
  }

  /** Once a text's calls are inlined, only what its scope does not define is left. */
  lemma {:induction false} InlinedSpells(defs: Definitions, scope: string, own: set<Shape>, foreign: set<Shape>, t: Term)
    requires LeavesOver(defs, scope, own, foreign) && Inlined(defs, scope, t) && Spells(t, own + foreign)
    ensures Spells(t, foreign)
  {
    forall i | 0 <= i < |t.args| ensures Spells(t.args[i], foreign) {
      InlinedSpells(defs, scope, own, foreign, t.args[i]);
    }
  }

  lemma {:induction false} StampedSpells(t: Term, index: nat, shapes: set<Shape>)
    requires Spells(t, shapes)
    ensures Spells(Stamped(t, index), shapes)
  {
    var s := Stamped(t, index);
    forall i | 0 <= i < |s.args| ensures Spells(s.args[i], shapes) {
      StampedSpells(t.args[i], index, shapes);
    }
  }

  lemma {:induction false} SubstitutedSpells(t: Term, bindings: map<string, Term>, shapes: set<Shape>)
    requires Spells(t, shapes) && forall p :: p in bindings ==> Spells(bindings[p], shapes)
    ensures Spells(Substituted(t, bindings), shapes)
  {
    var s := Substituted(t, bindings);
    if !(t.kind.Read? && t.kind.name in bindings) {
      forall i | 0 <= i < |s.args| ensures Spells(s.args[i], shapes) {
        SubstitutedSpells(t.args[i], bindings, shapes);
      }
    }
  }

  predicate AllSpell(terms: seq<Term>, shapes: set<Shape>)
  {
    forall i :: 0 <= i < |terms| ==> Spells(terms[i], shapes)
  }

  /** An instance writes its function's own calls, and what its arguments left over. */
  lemma InstanceSpells(fn: Definition, args: seq<Term>, index: nat, foreign: set<Shape>)
    requires fn.Fn? && Fits(fn.params, args) && AllSpell(args, foreign)
    ensures Spells(Instance(fn, args, index), Own(fn) + foreign)
  {
    var shapes := Own(fn) + foreign;
    SpellsShapes(fn.body, shapes);
    StampedSpells(fn.body, index, shapes);
    var bindings := Bindings(fn.params, args, |fn.params|);
    forall p | p in bindings ensures Spells(bindings[p], shapes) {
      var i :| 0 <= i < |fn.params| && bindings[p] == BoundTo(fn.params, args, i);
      if i < |args| {
        SpellsMore(args[i], foreign, shapes);
      }
      if fn.params[i].default.Some? {
        assert Shapes(fn.params[i].default.value) <= Own(fn);
        SpellsShapes(fn.params[i].default.value, shapes);
      }
    }
    SubstitutedSpells(Stamped(fn.body, index), bindings, shapes);
  }

  // Why an expansion is refused

  /** One call on the way down: where it is read, and as what. */
  datatype Link = Link(scope: string, name: string, arity: nat)

  predicate IsLink(defs: Definitions, l: Link)
  {
    (l.scope, l.name) in defs && defs[(l.scope, l.name)].Fn?
  }

  function FnOf(defs: Definitions, l: Link): (fn: Definition)
    requires IsLink(defs, l)
    ensures fn.Fn?
  {
    defs[(l.scope, l.name)]
  }

  /** A call to a function that text of the scope may write. */
  predicate MayWrite(defs: Definitions, foreign: set<Shape>, scope: string, own: set<Shape>, l: Link)
  {
    IsLink(defs, l) && l.scope == scope && (l.name, l.arity) in own + foreign
  }

  /** Each call may be written by the body of the one before it, the first by
      the text itself. */
  ghost predicate LeadsDown(defs: Definitions, foreign: set<Shape>, scope: string, own: set<Shape>, p: seq<Link>)
  {
    && p != [] && MayWrite(defs, foreign, scope, own, p[0])
    && (forall i :: 0 <= i < |p| ==> IsLink(defs, p[i]))
    && (forall i :: 0 < i < |p| ==>
          MayWrite(defs, foreign, FnOf(defs, p[i - 1]).scope, Own(FnOf(defs, p[i - 1])), p[i]))
  }

  predicate FitsCount(params: seq<Param>, n: nat)
  {
    n <= |params| && forall i :: n <= i < |params| ==> params[i].default.Some?
  }

  /** Calls that lead down to a function that is on the stack, or among them. */
  ghost predicate Loops(defs: Definitions, foreign: set<Shape>, scope: string, own: set<Shape>, stack: seq<string>,
                        name: string, p: seq<Link>)
  {
    && LeadsDown(defs, foreign, scope, own, p) && FnOf(defs, p[|p| - 1]).qualified == name
    && (name in stack || exists i :: 0 <= i < |p| - 1 && FnOf(defs, p[i]).qualified == name)
  }

  /** Calls that lead down to one whose arguments do not fit. */
  ghost predicate Misfits(defs: Definitions, foreign: set<Shape>, scope: string, own: set<Shape>, name: string, p: seq<Link>)
  {
    && LeadsDown(defs, foreign, scope, own, p) && FnOf(defs, p[|p| - 1]).qualified == name
    && !FitsCount(FnOf(defs, p[|p| - 1]).params, p[|p| - 1].arity)
  }

  /** What each refusal means. */
  ghost predicate Caused(defs: Definitions, foreign: set<Shape>, scope: string, own: set<Shape>, stack: seq<string>,
                         budget: nat, error: Error)
  {
    match error
    case Recursive(name) => exists p :: Loops(defs, foreign, scope, own, stack, name, p)
    case OverBudget => budget == 0
    case ArgumentCount(name) => exists p :: Misfits(defs, foreign, scope, own, name, p)
  }

  lemma SiteMayBe(defs: Definitions, foreign: set<Shape>, scope: string, own: set<Shape>, site: Term) returns (l: Link)
    requires WellDefined(defs) && IsSite(defs, scope, site) && defs[(scope, site.kind.name)].Fn?
    requires Spells(site, own + foreign)
    ensures l == Link(scope, site.kind.name, |site.args|) && MayWrite(defs, foreign, scope, own, l)
    ensures IsLink(defs, l) && LeadsDown(defs, foreign, scope, own, [l]) && FnOf(defs, l) == defs[(scope, site.kind.name)]
  {
    l := Link(scope, site.kind.name, |site.args|);
  }

  lemma CausedHere(defs: Definitions, foreign: set<Shape>, scope: string, own: set<Shape>, stack: seq<string>,
                   budget: nat, site: Term, args: seq<Term>)
    requires WellDefined(defs) && IsSite(defs, scope, site) && defs[(scope, site.kind.name)].Fn?
    requires Spells(site, own + foreign) && |args| == |site.args|
    ensures var fn := defs[(scope, site.kind.name)];
      && (fn.qualified in stack ==> Caused(defs, foreign, scope, own, stack, budget, Recursive(fn.qualified)))
      && (!Fits(fn.params, args) ==> Caused(defs, foreign, scope, own, stack, budget, ArgumentCount(fn.qualified)))
  {
    var fn := defs[(scope, site.kind.name)];
    var l := SiteMayBe(defs, foreign, scope, own, site);
    if fn.qualified in stack {
      assert Loops(defs, foreign, scope, own, stack, fn.qualified, [l]);
    }
    if !Fits(fn.params, args) {
      assert Misfits(defs, foreign, scope, own, fn.qualified, [l]);
    }
    hide Own, LeadsDown;
  }

  /** A refusal among the arguments, which begin from an empty stack. */
  lemma CausedInArguments(defs: Definitions, foreign: set<Shape>, scope: string, own: set<Shape>, stack: seq<string>,
                          budget: nat, error: Error)
    requires Caused(defs, foreign, scope, own, [], budget, error)
    ensures Caused(defs, foreign, scope, own, stack, budget, error)
  {
    if error.Recursive? {
      var p :| Loops(defs, foreign, scope, own, [], error.name, p);
      assert Loops(defs, foreign, scope, own, stack, error.name, p);
    }
    hide LeadsDown;
  }

  lemma {:induction false} OneDown(defs: Definitions, foreign: set<Shape>, scope: string, own: set<Shape>, l: Link, p: seq<Link>)
    requires MayWrite(defs, foreign, scope, own, l)
    requires LeadsDown(defs, foreign, FnOf(defs, l).scope, Own(FnOf(defs, l)), p)
    ensures LeadsDown(defs, foreign, scope, own, [l] + p)
  {
    MayBeLink(defs, foreign, scope, own, l);
    hide Own, MayWrite, IsLink;
    var q := [l] + p;
    assert forall i :: 0 <= i < |p| ==> q[i + 1] == p[i];
    forall i | 0 <= i < |q| ensures IsLink(defs, q[i]) {
      assert i > 0 ==> q[i] == p[i - 1];
    }
    forall i: nat | 0 < i < |q|
      ensures MayWrite(defs, foreign, FnOf(defs, q[i - 1]).scope, Own(FnOf(defs, q[i - 1])), q[i])
    {
      assert q[i] == p[i - 1];
      assert i > 1 ==> q[i - 1] == p[i - 2];
    }
  }

  lemma MayBeLink(defs: Definitions, foreign: set<Shape>, scope: string, own: set<Shape>, l: Link)
    requires MayWrite(defs, foreign, scope, own, l)
    ensures IsLink(defs, l)
  {
  }

  /** A refusal in the body's instance. */
  lemma CausedInBody(defs: Definitions, foreign: set<Shape>, scope: string, own: set<Shape>, stack: seq<string>,
                     budget: nat, l: Link, error: Error)
    requires MayWrite(defs, foreign, scope, own, l)
    requires var fn := FnOf(defs, l);
      Caused(defs, foreign, fn.scope, Own(fn), stack + [fn.qualified], budget, error)
    ensures Caused(defs, foreign, scope, own, stack, budget, error)
  {
    MayBeLink(defs, foreign, scope, own, l);
    hide Own, MayWrite, LeadsDown;
    var fn := FnOf(defs, l);
    match error
    case Recursive(name) =>
      var p :| Loops(defs, foreign, fn.scope, Own(fn), stack + [fn.qualified], name, p);
      OneDown(defs, foreign, scope, own, l, p);
      LoopOn(defs, foreign, scope, own, stack, name, l, p);
    case OverBudget =>
    case ArgumentCount(name) =>
      var p :| Misfits(defs, foreign, fn.scope, Own(fn), name, p);
      OneDown(defs, foreign, scope, own, l, p);
      DownIs(defs, foreign, fn.scope, Own(fn), p);
      assert ([l] + p)[|p|] == p[|p| - 1];
      assert Misfits(defs, foreign, scope, own, name, [l] + p);
  }

  lemma DownIs(defs: Definitions, foreign: set<Shape>, scope: string, own: set<Shape>, p: seq<Link>)
    requires LeadsDown(defs, foreign, scope, own, p)
    ensures p != [] && forall i :: 0 <= i < |p| ==> IsLink(defs, p[i])
  {
  }

  lemma LoopOn(defs: Definitions, foreign: set<Shape>, scope: string, own: set<Shape>, stack: seq<string>, name: string,
               l: Link, p: seq<Link>)
    requires IsLink(defs, l) && LeadsDown(defs, foreign, scope, own, [l] + p)
    requires var fn := FnOf(defs, l); Loops(defs, foreign, fn.scope, Own(fn), stack + [fn.qualified], name, p)
    ensures Loops(defs, foreign, scope, own, stack, name, [l] + p)
  {
    var fn, q := FnOf(defs, l), [l] + p;
    DownIs(defs, foreign, fn.scope, Own(fn), p);
    hide Own, LeadsDown;
    assert q[|q| - 1] == p[|p| - 1];
    if i :| 0 <= i < |p| - 1 && FnOf(defs, p[i]).qualified == name {
      assert q[i + 1] == p[i];
    } else if name !in stack {
      assert name == fn.qualified && q[0] == l;
    }
  }

  /** Where the functions are ranked, each calling only lower ones, and those
      on the stack are higher, none is refused as recursive. */
  lemma RankedNotRecursive(defs: Definitions, foreign: set<Shape>, scope: string, own: set<Shape>, stack: seq<string>,
                           budget: nat, name: string, rank: string -> nat)
    requires forall l, l' :: IsLink(defs, l) && MayWrite(defs, foreign, FnOf(defs, l).scope, Own(FnOf(defs, l)), l') ==>
      rank(FnOf(defs, l').qualified) < rank(FnOf(defs, l).qualified)
    requires forall l, n :: MayWrite(defs, foreign, scope, own, l) && n in stack ==> rank(FnOf(defs, l).qualified) < rank(n)
    ensures !Caused(defs, foreign, scope, own, stack, budget, Recursive(name))
  {
    forall p ensures !Loops(defs, foreign, scope, own, stack, name, p) {
      if LeadsDown(defs, foreign, scope, own, p) {
        NoLoop(defs, foreign, scope, own, stack, name, p, rank);
      }
    }
    hide Loops, MayWrite, Own;
  }

  lemma NoLoop(defs: Definitions, foreign: set<Shape>, scope: string, own: set<Shape>, stack: seq<string>, name: string,
               p: seq<Link>, rank: string -> nat)
    requires LeadsDown(defs, foreign, scope, own, p)
    requires forall l, l' :: IsLink(defs, l) && MayWrite(defs, foreign, FnOf(defs, l).scope, Own(FnOf(defs, l)), l') ==>
      rank(FnOf(defs, l').qualified) < rank(FnOf(defs, l).qualified)
    requires forall l, n :: MayWrite(defs, foreign, scope, own, l) && n in stack ==> rank(FnOf(defs, l).qualified) < rank(n)
    ensures !Loops(defs, foreign, scope, own, stack, name, p)
  {
    DownIs(defs, foreign, scope, own, p);
    var last := |p| - 1;
    forall i | 0 <= i <= last
      ensures rank(FnOf(defs, p[last]).qualified) <= rank(FnOf(defs, p[i]).qualified)
      ensures i < last ==> rank(FnOf(defs, p[last]).qualified) < rank(FnOf(defs, p[i]).qualified)
    {
      RanksFall(defs, foreign, scope, own, p, i, last, rank);
    }
    assert MayWrite(defs, foreign, scope, own, p[0]);
    hide MayWrite, Own, LeadsDown;
  }

  lemma {:induction false} RanksFall(defs: Definitions, foreign: set<Shape>, scope: string, own: set<Shape>, p: seq<Link>,
                                     i: nat, j: nat, rank: string -> nat)
    requires LeadsDown(defs, foreign, scope, own, p) && i <= j < |p|
    requires forall l, l' :: IsLink(defs, l) && MayWrite(defs, foreign, FnOf(defs, l).scope, Own(FnOf(defs, l)), l') ==>
      rank(FnOf(defs, l').qualified) < rank(FnOf(defs, l).qualified)
    ensures rank(FnOf(defs, p[j]).qualified) <= rank(FnOf(defs, p[i]).qualified)
    ensures i < j ==> rank(FnOf(defs, p[j]).qualified) < rank(FnOf(defs, p[i]).qualified)
    decreases j
  {
    if i < j {
      RanksFall(defs, foreign, scope, own, p, i, j - 1, rank);
      hide Own;
      assert MayWrite(defs, foreign, FnOf(defs, p[j - 1]).scope, Own(FnOf(defs, p[j - 1])), p[j]);
    }
  }

  predicate AllKnown(terms: seq<Term>, n: nat)
  {
    forall i :: 0 <= i < |terms| ==> Known(terms[i], n)
  }

  lemma InstanceKnown(defs: Definitions, k: (string, string), args: seq<Term>, index: nat)
    requires WellDefined(defs) && k in defs && defs[k].Fn? && Fits(defs[k].params, args) && AllKnown(args, index)
    ensures Known(Instance(defs[k], args, index), index + 1)
  {
    var fn := defs[k];
    StampedKnown(fn.body, index);
    var bindings := Bindings(fn.params, args, |fn.params|);
    forall p | p in bindings ensures Known(bindings[p], index + 1) {
      var i :| 0 <= i < |fn.params| && bindings[p] == BoundTo(fn.params, args, i);
      if i < |args| {
        KnownLater(args[i], index, index + 1);
      }
      if fn.params[i].default.Some? {
        KnownLater(fn.params[i].default.value, 0, index + 1);
      }
    }
    SubstitutedKnown(Stamped(fn.body, index), bindings, index + 1);
  }

  lemma AllKnownLater(terms: seq<Term>, n: nat, n': nat)
    requires AllKnown(terms, n) && n <= n'
    ensures AllKnown(terms, n')
  {
    forall i | 0 <= i < |terms| ensures Known(terms[i], n') {
      KnownLater(terms[i], n, n');
    }
  }

  lemma OneMoreSite(expansions: seq<Expansion>, e: Expansion)
    requires SitesKnown(expansions) && e.site.line < Top(|expansions|)
    ensures SitesKnown(expansions + [e])
  {
  }

  /** A call renamed to what nothing defines is one wasm call fewer. */
  lemma {:induction false} RenamedIsFewer(defs: Definitions, scope: string, t: Term, t': Term)
    requires IsWasmSite(defs, scope, t) && !IsSite(defs, scope, t') && t'.args == t.args
    ensures WasmSites(defs, scope, t') == WasmSites(defs, scope, t) - 1
  {
    SameArguments(defs, scope, t, t', |t.args|);
  }

  lemma {:induction false} SameArguments(defs: Definitions, scope: string, t: Term, t': Term, upTo: nat)
    requires t'.args == t.args && upTo <= |t.args|
    ensures WasmAmong(defs, scope, t', upTo) == WasmAmong(defs, scope, t, upTo)
    decreases upTo
  {
    if upTo > 0 {
      SameArguments(defs, scope, t, t', upTo - 1);
    }
  }

  // What an expansion leaves alone

  /** `t'` is `t` with function calls replaced, package calls renamed to a path
      or not yet, and nothing else touched. */
  predicate Keeps(defs: Definitions, scope: string, t: Term, t': Term)
  {
    if IsSite(defs, scope, t) && !IsWasmSite(defs, scope, t) then true
    else
      && (|| (t'.kind == t.kind && t'.pos == t.pos)
          || (IsWasmSite(defs, scope, t) && t'.kind.Call? && IsPath(t'.kind.name)))
      && |t'.args| == |t.args| && forall i :: 0 <= i < |t.args| ==> Keeps(defs, scope, t.args[i], t'.args[i])
  }

  lemma {:induction false} KeepsItself(defs: Definitions, scope: string, t: Term)
    ensures Keeps(defs, scope, t, t)
  {
    forall i | 0 <= i < |t.args| ensures Keeps(defs, scope, t.args[i], t.args[i]) {
      KeepsItself(defs, scope, t.args[i]);
    }
  }

  lemma {:induction false} KeepsOn(defs: Definitions, scope: string, t: Term, u: Term, v: Term)
    requires WellDefined(defs) && Keeps(defs, scope, t, u) && Keeps(defs, scope, u, v)
    ensures Keeps(defs, scope, t, v)
    decreases t
  {
    if !IsSite(defs, scope, t) || IsWasmSite(defs, scope, t) {
      assert IsSite(defs, scope, u) ==> IsWasmSite(defs, scope, u);
      forall i | 0 <= i < |t.args| ensures Keeps(defs, scope, t.args[i], v.args[i]) {
        KeepsOn(defs, scope, t.args[i], u.args[i], v.args[i]);
      }
    }
  }

  /** Replacing what stands at a call touches nothing around it. */
  lemma {:induction false} PutKeeps(defs: Definitions, scope: string, t: Term, path: Path, u: Term)
    requires Leads(t, path) && Keeps(defs, scope, At(t, path), u)
    ensures Keeps(defs, scope, t, Put(t, path, u))
    decreases path
  {
    if path != [] {
      PutKeeps(defs, scope, t.args[path[0]], path[1..], u);
      var t' := Put(t, path, u);
      forall i | 0 <= i < |t.args| ensures Keeps(defs, scope, t.args[i], t'.args[i]) {
        if i != path[0] {
          KeepsItself(defs, scope, t.args[i]);
        }
      }
    }
  }

  /** Text with no call in it is left as it is. */
  lemma {:induction false} InlinedKept(defs: Definitions, scope: string, t: Term, t': Term)
    requires Inlined(defs, scope, t) && Keeps(defs, scope, t, t')
    ensures t' == t
    decreases t
  {
    forall i | 0 <= i < |t.args| ensures t'.args[i] == t.args[i] {
      InlinedKept(defs, scope, t.args[i], t'.args[i]);
    }
    assert t'.args == t.args;
  }

  /** What a call becomes: its body's instance under expansion `index`, over
      its arguments expanded where it stands, expanded in the body's own scope. */
  ghost predicate IsExpansion(defs: Definitions, scope: string, site: Term, t: Term, expansions: seq<Expansion>,
                              index: nat, args: seq<Term>)
    requires IsSite(defs, scope, site) && defs[(scope, site.kind.name)].Fn?
  {
    var fn := defs[(scope, site.kind.name)];
    && index < |expansions| && expansions[index] == Expansion(fn.qualified, PosOf(site))
    && |args| == |site.args| && Fits(fn.params, args)
    && (forall i :: 0 <= i < |args| ==> Inlined(defs, scope, args[i]) && Keeps(defs, scope, site.args[i], args[i]))
    && Inlined(defs, fn.scope, t) && Keeps(defs, fn.scope, Instance(fn, args, index), t)
  }

  class Expander {
    const defs: Definitions
    /** The calls some text writes that its own scope does not define. */
    ghost const foreign: set<Shape>
    var budget: nat
    var expansions: seq<Expansion>
    /** The name each package declaration was adopted under. */
    var adopted: map<(string, string), string>
    var wasm: set<string>

    constructor (defs: Definitions, wasm: set<string>, ghost foreign: set<Shape>)
      requires WellDefined(defs) && AllLeaveOver(defs, foreign)
      ensures Valid() && expansions == [] && this.defs == defs && this.foreign == foreign && budget == EXPANSION_BUDGET
    {
      this.defs := defs;
      this.foreign := foreign;
      budget := EXPANSION_BUDGET;
      expansions, adopted := [], map[];
      this.wasm := wasm;
    }

    ghost predicate Valid()
      reads this
    {
      && WellDefined(defs) && AllLeaveOver(defs, foreign)
      && SitesKnown(expansions) && |expansions| + budget <= EXPANSION_BUDGET
      && Adoptions()
    }

    /** Each declaration is adopted under its own path, or that and its version,
        and no two under one name. */
    predicate Adoptions()
      reads this`adopted, this`wasm
    {
      && (forall k :: k in adopted ==>
            IsPath(k.0) && '@' !in k.0 && adopted[k] in wasm && (adopted[k] == k.0 || adopted[k] == k.0 + "@" + k.1))
      && (forall k, k' :: k in adopted && k' in adopted && adopted[k] == adopted[k'] ==> k == k')
    }

    lemma ValidIs()
      ensures Valid() <==>
        && WellDefined(defs) && AllLeaveOver(defs, foreign)
        && SitesKnown(expansions) && |expansions| + budget <= EXPANSION_BUDGET
        && Adoptions()
    {
    }

    /** A package's declaration taken into the script, and its call renamed. */
    method Adopt(site: Term, scope: string) returns (renamed: Term)
      requires Valid() && IsWasmSite(defs, scope, site) && Known(site, |expansions|)
      modifies this`adopted, this`wasm
      ensures Valid() && Known(renamed, |expansions|) && !IsSite(defs, scope, renamed) && renamed.args == site.args
      ensures WasmSites(defs, scope, renamed) == WasmSites(defs, scope, site) - 1
      ensures Keeps(defs, scope, site, renamed)
      ensures var declared := defs[(scope, site.kind.name)];
        var key := (declared.called, declared.version);
        && key in adopted && renamed.kind == Call(adopted[key]) && adopted.Keys == old(adopted).Keys + {key}
      ensures forall k :: k in old(adopted) ==> k in adopted && adopted[k] == old(adopted)[k]
      ensures forall k, k' :: k in adopted && k' in adopted && adopted[k] == adopted[k'] ==> k == k'
      ensures forall shapes :: Spells(site, shapes) ==> Spells(renamed, shapes)
    {
      var declared := defs[(scope, site.kind.name)];
      var key := (declared.called, declared.version);
      var name: string;
      if key in adopted {
        name := adopted[key];
      } else {
        name := if declared.called in wasm then declared.called + "@" + declared.version else declared.called;
        NewName(adopted, wasm, key, name);
        adopted := adopted[key := name];
        wasm := wasm + {name};
      }
      NameIsPath(key, name);
      EarliestKnown(site, |expansions|);
      renamed := Term(Some(PosOf(site)), Call(name), site.args);
      RenamedIsFewer(defs, scope, site, renamed);
      KeepsItself(defs, scope, site);
    }

    /** The calls `root` writes inlined, outermost first, and the scan taken up
        again over what took a call's place. */
    method ExpandWithin(root: Term, scope: string, stack: seq<string>, ghost own: set<Shape>) returns (r: Result)
      requires Valid() && Known(root, |expansions|)
      requires Spells(root, own + foreign) && LeavesOver(defs, scope, own, foreign)
      modifies this
      ensures Valid() && old(expansions) <= expansions && budget <= old(budget)
      ensures |expansions| + budget <= old(|expansions| + budget)
      ensures r.Ok? ==> Known(r.term, |expansions|) && Inlined(defs, scope, r.term) && Keeps(defs, scope, root, r.term)
      ensures r.Ok? ==> Spells(r.term, foreign) && |expansions| + budget == old(|expansions| + budget)
      ensures r.Err? ==> Caused(defs, foreign, scope, own, stack, budget, r.error)
      decreases budget, 1
    {
      hide *;
      var t := root;
      KeepsItself(defs, scope, root);
      ValidIs();
      while true
        invariant Valid() && Known(t, |expansions|) && Keeps(defs, scope, root, t) && Spells(t, own + foreign)
        invariant old(expansions) <= expansions && budget <= old(budget)
        invariant |expansions| + budget == old(|expansions| + budget)
        decreases budget, WasmSites(defs, scope, t)
      {
        var found := FirstSite(defs, scope, t);
        if found.None? {
          NoneFound(defs, scope, t);
          InlinedSpells(defs, scope, own, foreign, t);
          return Ok(t);
        }
        var site := At(t, found.value);
        KnownAt(t, found.value, |expansions|);
        SpellsAt(t, found.value, own + foreign);
        if IsWasmSite(defs, scope, site) {
          var renamed := Adopt(site, scope);
          WasmPut(defs, scope, t, found.value, renamed);
          KnownPut(t, found.value, renamed, |expansions|);
          SpellsPut(t, found.value, renamed, own + foreign);
          PutKeeps(defs, scope, t, found.value, renamed);
          KeepsOn(defs, scope, root, t, Put(t, found.value, renamed));
          t := Put(t, found.value, renamed);
        } else {
          ghost var before := |expansions|;
          NotWasm(defs, scope, site);
          var expanded := ExpandCall(site, scope, stack, own);
          if expanded.Err? {
            return expanded;
          }
          KnownLater(t, before, |expansions|);
          KnownPut(t, found.value, expanded.term, |expansions|);
          SpellsMore(expanded.term, foreign, own + foreign);
          SpellsPut(t, found.value, expanded.term, own + foreign);
          KeepsCall(defs, scope, site, expanded.term);
          PutKeeps(defs, scope, t, found.value, expanded.term);
          KeepsOn(defs, scope, root, t, Put(t, found.value, expanded.term));
          t := Put(t, found.value, expanded.term);
        }
      }
    }

    /** The written arguments expanded in the caller's context, from an empty
        stack: f(f(x)) is nesting, and no recursion. */
    method Arguments(written: seq<Term>, scope: string, ghost own: set<Shape>)
      returns (failed: Option<Error>, args: seq<Term>)
      requires Valid() && AllKnown(written, |expansions|)
      requires AllSpell(written, own + foreign) && LeavesOver(defs, scope, own, foreign)
      modifies this
      ensures Valid() && old(expansions) <= expansions && budget <= old(budget)
      ensures |expansions| + budget <= old(|expansions| + budget)
      ensures failed.None? ==> |args| == |written| && AllKnown(args, |expansions|) && AllSpell(args, foreign)
      ensures failed.None? ==> |expansions| + budget == old(|expansions| + budget)
      ensures failed.Some? ==> Caused(defs, foreign, scope, own, [], budget, failed.value)
      ensures failed.None? ==>
        forall i :: 0 <= i < |args| ==> Inlined(defs, scope, args[i]) && Keeps(defs, scope, written[i], args[i])
      decreases budget, 2
    {
      args := [];
      hide Valid, Known, Inlined, Keeps, Spells, LeavesOver, Caused;
      for i := 0 to |written|
        invariant Valid() && old(expansions) <= expansions && budget <= old(budget)
        invariant |expansions| + budget == old(|expansions| + budget)
        invariant |args| == i && AllKnown(args, |expansions|) && AllKnown(written, |expansions|) && AllSpell(args, foreign)
        invariant forall k :: 0 <= k < i ==> Inlined(defs, scope, args[k]) && Keeps(defs, scope, written[k], args[k])
      {
        ghost var before := |expansions|;
        var arg := ExpandWithin(written[i], scope, [], own);
        if arg.Err? {
          return Some(arg.error), args;
        }
        AllKnownLater(args, before, |expansions|);
        AllKnownLater(written, before, |expansions|);
        args := args + [arg.term];
      }
      return None, args;
    }

    /** One call inlined: its body in its own scope, with its name on the stack. */
    method ExpandCall(site: Term, scope: string, stack: seq<string>, ghost own: set<Shape>) returns (r: Result)
      requires Valid() && Known(site, |expansions|)
      requires Spells(site, own + foreign) && LeavesOver(defs, scope, own, foreign)
      requires IsSite(defs, scope, site) && defs[(scope, site.kind.name)].Fn?
      modifies this
      ensures Valid() && old(expansions) <= expansions && budget <= old(budget)
      ensures |expansions| + budget <= old(|expansions| + budget)
      ensures r.Ok? ==> Known(r.term, |expansions|) && budget < old(budget) && |expansions| > |old(expansions)|
      ensures r.Ok? ==> exists index: nat, args :: IsExpansion(defs, scope, site, r.term, expansions, index, args)
      ensures r.Ok? ==> Spells(r.term, foreign) && |expansions| + budget == old(|expansions| + budget)
      ensures r.Ok? ==> defs[(scope, site.kind.name)].qualified !in stack
      ensures r.Err? ==> Caused(defs, foreign, scope, own, stack, budget, r.error)
      decreases budget, 0
    {
      var fn := defs[(scope, site.kind.name)];
      hide *;
      ValidIs();
      ghost var l := SiteMayBe(defs, foreign, scope, own, site);
      CausedHere(defs, foreign, scope, own, stack, budget, site, site.args);
      if fn.qualified in stack {
        return Err(Recursive(fn.qualified));
      }
      if budget == 0 {
        return Err(OverBudget);
      }
      KnownParts(site, |expansions|);
      SpellsParts(site, own + foreign);
      budget := budget - 1;
      ValidIs();
      var failed, args := Arguments(site.args, scope, own);
      if failed.Some? {
        CausedInArguments(defs, foreign, scope, own, stack, budget, failed.value);
        return Err(failed.value);
      }
      if !Fits(fn.params, args) {
        ValidIs();
        CausedHere(defs, foreign, scope, own, stack, budget, site, args);
        return Err(ArgumentCount(fn.qualified));
      }
      KnownLater(site, |old(expansions)|, |expansions|);
      r := ExpandBody(site, scope, stack, args, own);
    }

    /** The call's body, over its arguments expanded, under an expansion of its own. */
    method ExpandBody(site: Term, scope: string, stack: seq<string>, args: seq<Term>, ghost own: set<Shape>)
      returns (r: Result)
      requires Valid() && Known(site, |expansions|) && |expansions| + budget < EXPANSION_BUDGET
      requires Spells(site, own + foreign) && LeavesOver(defs, scope, own, foreign)
      requires IsSite(defs, scope, site) && defs[(scope, site.kind.name)].Fn?
      requires |args| == |site.args| && Fits(defs[(scope, site.kind.name)].params, args)
      requires AllKnown(args, |expansions|) && AllSpell(args, foreign)
      requires forall i :: 0 <= i < |args| ==> Inlined(defs, scope, args[i]) && Keeps(defs, scope, site.args[i], args[i])
      modifies this
      ensures Valid() && old(expansions) < expansions && budget <= old(budget)
      ensures |expansions| + budget <= old(|expansions| + budget) + 1
      ensures r.Ok? ==> Known(r.term, |expansions|)
      ensures r.Ok? ==> exists index: nat, bound :: IsExpansion(defs, scope, site, r.term, expansions, index, bound)
      ensures r.Ok? ==> Spells(r.term, foreign) && |expansions| + budget == old(|expansions| + budget) + 1
      ensures r.Err? ==> Caused(defs, foreign, scope, own, stack, budget, r.error)
      decreases budget, 3
    {
      var fn := defs[(scope, site.kind.name)];
      hide *;
      var index := |expansions|;
      ValidIs();
      ghost var l := SiteMayBe(defs, foreign, scope, own, site);
      EarliestKnown(site, index);
      OneMoreSite(expansions, Expansion(fn.qualified, PosOf(site)));
      expansions := expansions + [Expansion(fn.qualified, PosOf(site))];
      ValidIs();
      InstanceKnown(defs, (scope, site.kind.name), args, index);
      InstanceSpells(fn, args, index, foreign);
      OwnLeavesOver(defs, foreign, l);
      r := ExpandWithin(Instance(fn, args, index), fn.scope, stack + [fn.qualified], Own(fn));
      if r.Ok? {
        ExpansionIs(defs, scope, site, r.term, expansions, index, args);
      } else {
        CausedInBody(defs, foreign, scope, own, stack, budget, l, r.error);
      }
    }
  }

  lemma OwnLeavesOver(defs: Definitions, foreign: set<Shape>, l: Link)
    requires AllLeaveOver(defs, foreign) && IsLink(defs, l)
    ensures LeavesOver(defs, FnOf(defs, l).scope, Own(FnOf(defs, l)), foreign)
  {
    assert FnOf(defs, l) == defs[(l.scope, l.name)];
    hide LeavesOver, Own;
  }

  lemma SpellsParts(t: Term, shapes: set<Shape>)
    requires Spells(t, shapes)
    ensures AllSpell(t.args, shapes)
  {
  }

  /** A name made for a declaration is none made before. */
  lemma NewName(adopted: map<(string, string), string>, wasm: set<string>, key: (string, string), name: string)
    requires '@' !in key.0 && key !in adopted
    requires name == if key.0 in wasm then key.0 + "@" + key.1 else key.0
    requires forall k :: k in adopted ==>
      '@' !in k.0 && adopted[k] in wasm && (adopted[k] == k.0 || adopted[k] == k.0 + "@" + k.1)
    ensures forall k :: k in adopted ==> adopted[k] != name
  {
    forall k | k in adopted ensures adopted[k] != name {
      if key.0 in wasm && adopted[k] == name {
        VersionsApart(k, key);
      }
    }
  }

  lemma VersionsApart(k: (string, string), key: (string, string))
    requires '@' !in k.0 && '@' !in key.0
    ensures k.0 != key.0 + "@" + key.1
    ensures k.0 + "@" + k.1 == key.0 + "@" + key.1 ==> k == key
  {
    var a, b := k.0 + "@" + k.1, key.0 + "@" + key.1;
    assert a[|k.0|] == '@' && b[|key.0|] == '@' && '@' in b;
    if a == b {
      assert |k.0| == |key.0| by {
        assert forall i :: 0 <= i < |k.0| ==> a[i] == k.0[i] && k.0[i] in k.0;
        assert forall i :: 0 <= i < |key.0| ==> b[i] == key.0[i] && key.0[i] in key.0;
      }
      assert k.0 == a[..|k.0|] && key.0 == b[..|key.0|];
      assert k.1 == a[|k.0| + 1..] && key.1 == b[|key.0| + 1..];
    }
  }

  lemma NameIsPath(key: (string, string), name: string)
    requires IsPath(key.0) && (name == key.0 || name == key.0 + "@" + key.1)
    ensures IsPath(name)
  {
  }

  lemma KnownParts(t: Term, n: nat)
    requires Known(t, n)
    ensures AllKnown(t.args, n)
  {
  }

  lemma KeepsCall(defs: Definitions, scope: string, t: Term, u: Term)
    requires IsSite(defs, scope, t) && !IsWasmSite(defs, scope, t)
    ensures Keeps(defs, scope, t, u)
  {
  }

  lemma ExpansionIs(defs: Definitions, scope: string, site: Term, t: Term, expansions: seq<Expansion>, index: nat,
                    args: seq<Term>)
    requires IsSite(defs, scope, site) && defs[(scope, site.kind.name)].Fn?
    requires var fn := defs[(scope, site.kind.name)];
      && index < |expansions| && expansions[index] == Expansion(fn.qualified, PosOf(site))
      && |args| == |site.args| && Fits(fn.params, args)
      && (forall i :: 0 <= i < |args| ==> Inlined(defs, scope, args[i]) && Keeps(defs, scope, site.args[i], args[i]))
      && Inlined(defs, fn.scope, t) && Keeps(defs, fn.scope, Instance(fn, args, index), t)
    ensures IsExpansion(defs, scope, site, t, expansions, index, args)
  {
  }

  lemma NotWasm(defs: Definitions, scope: string, t: Term)
    requires IsSite(defs, scope, t) && !IsWasmSite(defs, scope, t)
    ensures defs[(scope, t.kind.name)].Fn?
  {
  }
}
