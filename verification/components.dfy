/** The parts of a filtergraph that share no node, for a live input. */
module Components {
  import opened Wiring
  import opened Chains

  type ChainOf = seq<Node>

  // The parent links

  ghost function Rank(rank: map<string, nat>, x: string): nat
  {
    if x in rank then rank[x] else 0
  }

  /** Every link goes up: `root` ends. */
  ghost predicate Ranked(parent: map<string, string>, rank: map<string, nat>, top: nat)
  {
    && (forall x :: x in parent ==> Rank(rank, x) < Rank(rank, parent[x]))
    && (forall x :: x in rank ==> rank[x] <= top)
  }

  ghost function Root(parent: map<string, string>, rank: map<string, nat>, top: nat, x: string): string
    requires Ranked(parent, rank, top)
    decreases top - Rank(rank, x)
  {
    if x in parent then Root(parent, rank, top, parent[x]) else x
  }

  lemma {:induction false} RootIsRoot(parent: map<string, string>, rank: map<string, nat>, top: nat, x: string)
    requires Ranked(parent, rank, top)
    ensures Root(parent, rank, top, x) !in parent
    decreases top - Rank(rank, x)
  {
    if x in parent {
      RootIsRoot(parent, rank, top, parent[x]);
    }
  }

  method FindRoot(parent: map<string, string>, x: string, ghost rank: map<string, nat>, ghost top: nat)
    returns (r: string)
    requires Ranked(parent, rank, top)
    ensures r == Root(parent, rank, top, x)
  {
    r := x;
    while r in parent && parent[r] != r
      invariant Root(parent, rank, top, r) == Root(parent, rank, top, x)
      decreases top - Rank(rank, r)
    {
      r := parent[r];
    }
  }

  ghost function Raised(rank: map<string, nat>, mine: string, theirs: string): map<string, nat>
  {
    rank[theirs := Rank(rank, theirs) + Rank(rank, mine) + 1]
  }

  /** Linking one root under another moves the nodes under it, and no others. */
  lemma {:induction false} LinkedRoot(parent: map<string, string>, rank: map<string, nat>, top: nat, mine: string,
                                      theirs: string, x: string)
    requires Ranked(parent, rank, top) && mine !in parent && theirs !in parent && mine != theirs
    ensures Ranked(parent[mine := theirs], Raised(rank, mine, theirs), 2 * top + 1)
    ensures Root(parent[mine := theirs], Raised(rank, mine, theirs), 2 * top + 1, x)
         == if Root(parent, rank, top, x) == mine then theirs else Root(parent, rank, top, x)
    decreases top - Rank(rank, x)
  {
    var parent', rank', top' := parent[mine := theirs], Raised(rank, mine, theirs), 2 * top + 1;
    if x in parent {
      LinkedRoot(parent, rank, top, mine, theirs, parent[x]);
    } else if x == mine {
      assert Root(parent', rank', top', theirs) == theirs;
    }
  }

  // What reads connect

  function ReadAt(node: Node, q: nat): seq<(string, string)>
    requires q < |node.inputs|
  {
    if node.inputs[q].Source? then [] else [(node.id, Slot(node.inputs[q]).node)]
  }

  /** The nodes a node reads (source refs join nothing). */
  function ReadsOf(node: Node, upTo: nat): seq<(string, string)>
    requires upTo <= |node.inputs|
  {
    if upTo == 0 then []
    else ReadsOf(node, upTo - 1) + ReadAt(node, upTo - 1)
  }

  function ReadsOfAll(nodes: seq<Node>): seq<(string, string)>
  {
    if nodes == [] then []
    else ReadsOfAll(nodes[..|nodes| - 1]) + ReadsOf(nodes[|nodes| - 1], |nodes[|nodes| - 1].inputs|)
  }

  ghost predicate Respects(f: string -> int, edges: seq<(string, string)>)
  {
    forall e :: e in edges ==> f(e.0) == f(e.1)
  }

  /** The links join exactly what the reads so far do: a reader and what it
      reads have one root, and no grouping that keeps every reader with what it
      reads tells a node from its root. */
  ghost predicate Joins(parent: map<string, string>, rank: map<string, nat>, top: nat, edges: seq<(string, string)>)
    requires Ranked(parent, rank, top)
  {
    && (forall e :: e in edges ==> Root(parent, rank, top, e.0) == Root(parent, rank, top, e.1))
    && (forall f: string -> int, x: string :: Respects(f, edges) ==> f(Root(parent, rank, top, x)) == f(x))
  }

  lemma JoinOne(parent: map<string, string>, rank: map<string, nat>, top: nat, edges: seq<(string, string)>,
                a: string, b: string)
    requires Ranked(parent, rank, top) && Joins(parent, rank, top, edges)
    ensures var mine, theirs := Root(parent, rank, top, a), Root(parent, rank, top, b);
      if mine == theirs then Joins(parent, rank, top, edges + [(a, b)])
      else
        && Ranked(parent[mine := theirs], Raised(rank, mine, theirs), 2 * top + 1)
        && Joins(parent[mine := theirs], Raised(rank, mine, theirs), 2 * top + 1, edges + [(a, b)])
  {
    var mine, theirs := Root(parent, rank, top, a), Root(parent, rank, top, b);
    var edges' := edges + [(a, b)];
    forall f: string -> int | Respects(f, edges') ensures Respects(f, edges) && f(a) == f(b) {
      assert (a, b) in edges';
      forall e | e in edges ensures f(e.0) == f(e.1) { assert e in edges'; }
    }
    if mine != theirs {
      RootIsRoot(parent, rank, top, a);
      RootIsRoot(parent, rank, top, b);
      var parent', rank', top' := parent[mine := theirs], Raised(rank, mine, theirs), 2 * top + 1;
      forall x: string
        ensures Ranked(parent', rank', top')
        ensures Root(parent', rank', top', x) == if Root(parent, rank, top, x) == mine then theirs else Root(parent, rank, top, x)
      {
        LinkedRoot(parent, rank, top, mine, theirs, x);
      }
      forall e | e in edges' ensures Root(parent', rank', top', e.0) == Root(parent', rank', top', e.1) {
        assert e in edges || e == (a, b);
      }
      forall f: string -> int, x: string | Respects(f, edges') ensures f(Root(parent', rank', top', x)) == f(x) {
        assert f(mine) == f(a) && f(theirs) == f(b) && f(Root(parent, rank, top, x)) == f(x);
      }
    }
  }

  method JoinReads(node: Node, parent: map<string, string>, ghost rank: map<string, nat>, ghost top: nat,
                   ghost edges: seq<(string, string)>)
    returns (parent': map<string, string>, ghost rank': map<string, nat>, ghost top': nat)
    requires Ranked(parent, rank, top) && Joins(parent, rank, top, edges)
    ensures Ranked(parent', rank', top')
    ensures Joins(parent', rank', top', edges + ReadsOf(node, |node.inputs|))
  {
    hide Ranked, Joins, Root, Raised;
    parent', rank', top' := parent, rank, top;
    assert edges + [] == edges;
    for q := 0 to |node.inputs|
      invariant Ranked(parent', rank', top') && Joins(parent', rank', top', edges + ReadsOf(node, q))
    {
      var ref := node.inputs[q];
      if ref.Source? {
        assert ReadsOf(node, q + 1) == ReadsOf(node, q);
        continue;
      }
      var mine := FindRoot(parent', node.id, rank', top');
      var theirs := FindRoot(parent', Slot(ref).node, rank', top');
      JoinOne(parent', rank', top', edges + ReadsOf(node, q), node.id, Slot(ref).node);
      assert edges + ReadsOf(node, q) + [(node.id, Slot(ref).node)] == edges + ReadsOf(node, q + 1);
      if mine != theirs {
        parent', rank', top' := parent'[mine := theirs], Raised(rank', mine, theirs), 2 * top' + 1;
      }
    }
  }

  method JoinChains(chains: seq<ChainOf>)
    returns (parent: map<string, string>, ghost rank: map<string, nat>, ghost top: nat)
    ensures Ranked(parent, rank, top) && Joins(parent, rank, top, ReadsOfAll(Flat(chains)))
  {
    parent, rank, top := map[], map[], 0;
    ghost var seen: seq<Node> := [];
    assert Joins(parent, rank, top, ReadsOfAll(seen));
    hide Ranked, Joins, Root, ReadsOfAll;
    for c := 0 to |chains|
      invariant seen == Flat(chains[..c])
      invariant Ranked(parent, rank, top) && Joins(parent, rank, top, ReadsOfAll(seen))
    {
      var chain := chains[c];
      FlatOn(chains, c);
      hide Flat;
      assert chain[..0] == [] && seen + [] == seen;
      for s := 0 to |chain|
        invariant seen == Flat(chains[..c]) + chain[..s]
        invariant Ranked(parent, rank, top) && Joins(parent, rank, top, ReadsOfAll(seen))
      {
        parent, rank, top := JoinReads(chain[s], parent, rank, top, ReadsOfAll(seen));
        ReadsOn(seen, chain[s]);
        Moved(Flat(chains[..c]), chain, s);
        seen := seen + [chain[s]];
      }
      assert chain[..|chain|] == chain;
    }
    assert chains[..|chains|] == chains;
  }

  lemma FlatOn<T>(chains: seq<seq<T>>, c: nat)
    requires c < |chains|
    ensures Flat(chains[..c + 1]) == Flat(chains[..c]) + chains[c]
  {
    assert chains[..c + 1][..c] == chains[..c];
  }

  lemma ReadsOn(nodes: seq<Node>, node: Node)
    ensures ReadsOfAll(nodes + [node]) == ReadsOfAll(nodes) + ReadsOf(node, |node.inputs|)
  {
    assert (nodes + [node])[..|nodes|] == nodes;
  }

  lemma Moved<T>(before: seq<T>, chain: seq<T>, s: nat)
    requires s < |chain|
    ensures before + chain[..s] + [chain[s]] == before + chain[..s + 1]
  {
  }

  // Connection

  ghost predicate InChain(chain: ChainOf, id: string)
  {
    exists s :: 0 <= s < |chain| && chain[s].id == id
  }

  /** Some node of `a` reads a pad of some node of `b`. */
  ghost predicate ReadsFrom(a: ChainOf, b: ChainOf)
  {
    exists s, q :: 0 <= s < |a| && 0 <= q < |a[s].inputs| && !a[s].inputs[q].Source? && InChain(b, Slot(a[s].inputs[q]).node)
  }

  ghost predicate Touch(a: ChainOf, b: ChainOf) { ReadsFrom(a, b) || ReadsFrom(b, a) }

  ghost predicate IsPath(chains: seq<ChainOf>, p: seq<nat>)
  {
    && p != []
    && (forall i :: 0 <= i < |p| ==> p[i] < |chains|)
    && (forall i :: 0 < i < |p| ==> Touch(chains[p[i - 1]], chains[p[i]]))
  }

  /** The two chains are joined by reads, directly or through other chains. */
  ghost predicate Connected(chains: seq<ChainOf>, c: nat, d: nat)
  {
    exists p: seq<nat> :: IsPath(chains, p) && p[0] == c && p[|p| - 1] == d
  }

  lemma Onward(chains: seq<ChainOf>, c: nat, d: nat, e: nat)
    requires Connected(chains, c, d) && e < |chains| && d < |chains| && Touch(chains[d], chains[e])
    ensures Connected(chains, c, e)
  {
    var p: seq<nat> :| IsPath(chains, p) && p[0] == c && p[|p| - 1] == d;
    var p' := p + [e];
    assert IsPath(chains, p') && p'[0] == c && p'[|p'| - 1] == e;
  }

  lemma ToItself(chains: seq<ChainOf>, c: nat)
    requires c < |chains|
    ensures Connected(chains, c, c)
  {
    assert IsPath(chains, [c]) && [c][0] == c;
  }

  ghost predicate InSome(chains: seq<ChainOf>, id: string)
  {
    exists d :: 0 <= d < |chains| && InChain(chains[d], id)
  }

  /** The chains of a graph: every node in one place, every read inside it, and
      each node of a chain reading the one before. */
  ghost predicate WholeGraph(chains: seq<ChainOf>)
  {
    && DistinctIds(Flat(chains))
    && (forall c :: 0 <= c < |chains| ==> chains[c] != [])
    && (forall c, s :: 0 <= c < |chains| && 0 < s < |chains[c]| ==> Extends(chains[c][s - 1], chains[c][s]))
    && (forall c, s, q :: 0 <= c < |chains| && 0 <= s < |chains[c]| && 0 <= q < |chains[c][s].inputs| ==>
          chains[c][s].inputs[q].Source? || InSome(chains, Slot(chains[c][s].inputs[q]).node))
  }

  /** The chains of every graph emit accepts are such chains. */
  lemma AcceptedIsWhole(g: Graph, chains: seq<ChainOf>)
    requires Topological(g) && Chained(g.nodes, chains)
    ensures WholeGraph(chains)
  {
    forall c, s, q | 0 <= c < |chains| && 0 <= s < |chains[c]| && 0 <= q < |chains[c][s].inputs|
      ensures chains[c][s].inputs[q].Source? || InSome(chains, Slot(chains[c][s].inputs[q]).node)
    {
      var ref := chains[c][s].inputs[q];
      var k := FlatAt(chains, c, s);
      assert Resolves(g, g.nodes[k].inputs[q], g.nodes[..k]);
      if !ref.Source? {
        var j :| 0 <= j < k && g.nodes[..k][j].id == Slot(ref).node;
        var d, t := PlaceOf(chains, j);
        assert InChain(chains[d], Slot(ref).node);
      }
    }
  }

  lemma {:induction false} EdgeOfNode(node: Node, upTo: nat, e: (string, string))
    requires upTo <= |node.inputs|
    ensures e in ReadsOf(node, upTo) <==>
      exists q :: 0 <= q < upTo && !node.inputs[q].Source? && e == (node.id, Slot(node.inputs[q]).node)
  {
    if upTo > 0 {
      EdgeOfNode(node, upTo - 1, e);
    }
  }

  lemma {:induction false} EdgeOfNodes(nodes: seq<Node>, e: (string, string))
    ensures e in ReadsOfAll(nodes) <==>
      exists k :: 0 <= k < |nodes| && e in ReadsOf(nodes[k], |nodes[k].inputs|)
  {
    if nodes != [] {
      var last := |nodes| - 1;
      EdgeOfNodes(nodes[..last], e);
      if e in ReadsOfAll(nodes[..last]) {
        var k :| 0 <= k < last && e in ReadsOf(nodes[..last][k], |nodes[..last][k].inputs|);
        assert e in ReadsOf(nodes[k], |nodes[k].inputs|);
      }
      if k :| 0 <= k < |nodes| && e in ReadsOf(nodes[k], |nodes[k].inputs|) {
        if k < last {
          assert e in ReadsOf(nodes[..last][k], |nodes[..last][k].inputs|);
        }
      }
    }
  }

  /** A read of a node in a chain is an edge. */
  lemma ReadIsEdge(chains: seq<ChainOf>, c: nat, s: nat, q: nat)
    requires c < |chains| && s < |chains[c]| && q < |chains[c][s].inputs| && !chains[c][s].inputs[q].Source?
    ensures (chains[c][s].id, Slot(chains[c][s].inputs[q]).node) in ReadsOfAll(Flat(chains))
  {
    var node := chains[c][s];
    var e := (node.id, Slot(node.inputs[q]).node);
    var k := FlatAt(chains, c, s);
    EdgeOfNode(node, |node.inputs|, e);
    EdgeOfNodes(Flat(chains), e);
    assert e in ReadsOf(Flat(chains)[k], |Flat(chains)[k].inputs|);
  }

  lemma EdgeIsRead(chains: seq<ChainOf>, e: (string, string)) returns (c: nat, s: nat, q: nat)
    requires e in ReadsOfAll(Flat(chains))
    ensures c < |chains| && s < |chains[c]| && q < |chains[c][s].inputs| && !chains[c][s].inputs[q].Source?
    ensures e == (chains[c][s].id, Slot(chains[c][s].inputs[q]).node)
  {
    EdgeOfNodes(Flat(chains), e);
    var k :| 0 <= k < |Flat(chains)| && e in ReadsOf(Flat(chains)[k], |Flat(chains)[k].inputs|);
    c, s := PlaceOf(chains, k);
    EdgeOfNode(chains[c][s], |chains[c][s].inputs|, e);
    q :| 0 <= q < |chains[c][s].inputs| && !chains[c][s].inputs[q].Source? && e == (chains[c][s].id, Slot(chains[c][s].inputs[q]).node);
  }

  /** The nodes of one chain share a root. */
  lemma {:induction false} ChainRoot(parent: map<string, string>, rank: map<string, nat>, top: nat,
                                     chains: seq<ChainOf>, c: nat, s: nat)
    requires Ranked(parent, rank, top) && Joins(parent, rank, top, ReadsOfAll(Flat(chains)))
    requires WholeGraph(chains) && c < |chains| && s < |chains[c]|
    ensures Root(parent, rank, top, chains[c][s].id) == Root(parent, rank, top, chains[c][0].id)
  {
    hide Ranked;
    if s > 0 {
      assert Extends(chains[c][s - 1], chains[c][s]);
      ReadIsEdge(chains, c, s, 0);
      assert (chains[c][s].id, chains[c][s - 1].id) in ReadsOfAll(Flat(chains));
      ChainRoot(parent, rank, top, chains, c, s - 1);
    }
  }

  lemma TouchRoot(parent: map<string, string>, rank: map<string, nat>, top: nat, chains: seq<ChainOf>, c: nat, d: nat)
    requires Ranked(parent, rank, top) && Joins(parent, rank, top, ReadsOfAll(Flat(chains)))
    requires WholeGraph(chains) && c < |chains| && d < |chains| && ReadsFrom(chains[c], chains[d])
    ensures Root(parent, rank, top, chains[c][0].id) == Root(parent, rank, top, chains[d][0].id)
  {
    hide Ranked, WholeGraph;
    var s, q :| 0 <= s < |chains[c]| && 0 <= q < |chains[c][s].inputs| && !chains[c][s].inputs[q].Source?
      && InChain(chains[d], Slot(chains[c][s].inputs[q]).node);
    var t :| 0 <= t < |chains[d]| && chains[d][t].id == Slot(chains[c][s].inputs[q]).node;
    ReadIsEdge(chains, c, s, q);
    var e := (chains[c][s].id, Slot(chains[c][s].inputs[q]).node);
    assert Root(parent, rank, top, e.0) == Root(parent, rank, top, e.1);
    ChainRoot(parent, rank, top, chains, c, s);
    ChainRoot(parent, rank, top, chains, d, t);
  }

  lemma {:induction false} PathRoot(parent: map<string, string>, rank: map<string, nat>, top: nat,
                                    chains: seq<ChainOf>, p: seq<nat>)
    requires Ranked(parent, rank, top) && Joins(parent, rank, top, ReadsOfAll(Flat(chains)))
    requires WholeGraph(chains) && IsPath(chains, p)
    ensures chains[p[0]] != [] && chains[p[|p| - 1]] != []
    ensures Root(parent, rank, top, chains[p[0]][0].id) == Root(parent, rank, top, chains[p[|p| - 1]][0].id)
    decreases |p|
  {
    if |p| > 1 {
      var last := |p| - 1;
      PathRoot(parent, rank, top, chains, p[..last]);
      if ReadsFrom(chains[p[last - 1]], chains[p[last]]) {
        TouchRoot(parent, rank, top, chains, p[last - 1], p[last]);
      } else {
        TouchRoot(parent, rank, top, chains, p[last], p[last - 1]);
      }
    }
  }

  lemma ReachIs(chains: seq<ChainOf>, c: nat, a: nat, x: string)
    requires WholeGraph(chains) && c < |chains| && a < |chains| && InChain(chains[a], x)
    ensures Reach(chains, c, x) == if Connected(chains, c, a) then 1 else 0
  {
    if d :| 0 <= d < |chains| && Connected(chains, c, d) && InChain(chains[d], x) {
      SameChain(chains, d, a, x);
    }
  }

  lemma TouchReach(chains: seq<ChainOf>, c: nat, a: nat, b: nat)
    requires a < |chains| && b < |chains| && ReadsFrom(chains[a], chains[b])
    ensures Connected(chains, c, a) <==> Connected(chains, c, b)
  {
    if Connected(chains, c, a) {
      Onward(chains, c, a, b);
    }
    if Connected(chains, c, b) {
      Onward(chains, c, b, a);
    }
  }

  /** One if the node is in a chain `c` is connected to: it keeps every reader
      with what it reads. */
  lemma ReachRespects(chains: seq<ChainOf>, c: nat)
    requires WholeGraph(chains) && c < |chains|
    ensures Respects(x => Reach(chains, c, x), ReadsOfAll(Flat(chains)))
  {
    forall e | e in ReadsOfAll(Flat(chains)) ensures Reach(chains, c, e.0) == Reach(chains, c, e.1) {
      var a, s, q := EdgeIsRead(chains, e);
      assert InSome(chains, e.1);
      var b :| 0 <= b < |chains| && InChain(chains[b], e.1);
      assert ReadsFrom(chains[a], chains[b]) && InChain(chains[a], e.0);
      ReachIs(chains, c, a, e.0);
      ReachIs(chains, c, b, e.1);
      TouchReach(chains, c, a, b);
    }
  }

  ghost function Reach(chains: seq<ChainOf>, c: nat, x: string): int
  {
    if exists d :: 0 <= d < |chains| && Connected(chains, c, d) && InChain(chains[d], x) then 1 else 0
  }

  lemma SameChain(chains: seq<ChainOf>, c: nat, d: nat, id: string)
    requires WholeGraph(chains) && c < |chains| && d < |chains| && InChain(chains[c], id) && InChain(chains[d], id)
    ensures c == d
  {
    var s :| 0 <= s < |chains[c]| && chains[c][s].id == id;
    var t :| 0 <= t < |chains[d]| && chains[d][t].id == id;
    OnePlace(Flat(chains), chains, c, s, d, t);
  }

  /** Two chains share a root exactly when reads connect them. */
  lemma RootsConnect(parent: map<string, string>, rank: map<string, nat>, top: nat, chains: seq<ChainOf>, c: nat, d: nat)
    requires Ranked(parent, rank, top) && Joins(parent, rank, top, ReadsOfAll(Flat(chains)))
    requires WholeGraph(chains) && c < |chains| && d < |chains|
    ensures Root(parent, rank, top, chains[c][0].id) == Root(parent, rank, top, chains[d][0].id)
       <==> Connected(chains, c, d)
  {
    if Connected(chains, c, d) {
      var p: seq<nat> :| IsPath(chains, p) && p[0] == c && p[|p| - 1] == d;
      PathRoot(parent, rank, top, chains, p);
    }
    if Root(parent, rank, top, chains[c][0].id) == Root(parent, rank, top, chains[d][0].id) {
      var f: string -> int := x => Reach(chains, c, x);
      ReachRespects(chains, c);
      assert f(chains[c][0].id) == f(Root(parent, rank, top, chains[c][0].id)) == f(chains[d][0].id);
      ToItself(chains, c);
      assert InChain(chains[c], chains[c][0].id) && InChain(chains[d], chains[d][0].id);
      assert f(chains[c][0].id) == 1;
      var e :| 0 <= e < |chains| && Connected(chains, c, e) && InChain(chains[e], chains[d][0].id);
      SameChain(chains, e, d, chains[d][0].id);
    }
  }

  // The parts

  /** The chains keyed `k`, in order. */
  function Select(chains: seq<ChainOf>, keys: seq<string>, k: string): seq<ChainOf>
    requires |keys| == |chains|
  {
    if chains == [] then []
    else
      var last := |chains| - 1;
      Select(chains[..last], keys[..last], k) + (if keys[last] == k then [chains[last]] else [])
  }

  /** The keys by first occurrence. */
  function Firsts(keys: seq<string>): (order: seq<string>)
    ensures forall k :: k in order <==> k in keys
    ensures forall i, j :: 0 <= i < j < |order| ==> order[i] != order[j]
  {
    if keys == [] then []
    else
      var last := |keys| - 1;
      var order := Firsts(keys[..last]);
      assert keys == keys[..last] + [keys[last]];
      if keys[last] in order then order else order + [keys[last]]
  }

  /** One part per key, by first chain, each with its chains in order. */
  function Grouped(chains: seq<ChainOf>, keys: seq<string>): (parts: seq<seq<ChainOf>>)
    requires |keys| == |chains|
    ensures |parts| == |Firsts(keys)|
  {
    var order := Firsts(keys);
    seq(|order|, i requires 0 <= i < |order| => Select(chains, keys, order[i]))
  }

  /** The groups made so far. */
  ghost predicate Grouping(chains: seq<ChainOf>, keys: seq<string>, order: seq<string>, groups: map<string, seq<ChainOf>>)
    requires |keys| == |chains|
  {
    && order == Firsts(keys)
    && groups.Keys == (set k | k in order)
    && (forall k :: k in groups ==> groups[k] == Select(chains, keys, k))
  }

  lemma GroupingOn(chains: seq<ChainOf>, keys: seq<string>, order: seq<string>, groups: map<string, seq<ChainOf>>,
                   chain: ChainOf, key: string)
    requires |keys| == |chains| && Grouping(chains, keys, order, groups)
    ensures key !in groups ==> Grouping(chains + [chain], keys + [key], order + [key], groups[key := [chain]])
    ensures key in groups ==> Grouping(chains + [chain], keys + [key], order, groups[key := groups[key] + [chain]])
  {
    forall k ensures Select(chains + [chain], keys + [key], k) == Select(chains, keys, k) + (if key == k then [chain] else []) {
      SelectOn(chains, chain, keys, key, k);
    }
    assert (keys + [key])[..|keys|] == keys;
    if key !in groups {
      NoneSelected(chains, keys, key);
    }
  }

  function Collected(order: seq<string>, groups: map<string, seq<ChainOf>>): seq<seq<ChainOf>>
    requires forall i :: 0 <= i < |order| ==> order[i] in groups
  {
    seq(|order|, i requires 0 <= i < |order| => groups[order[i]])
  }

  lemma GroupingDone(chains: seq<ChainOf>, keys: seq<string>, order: seq<string>, groups: map<string, seq<ChainOf>>)
    requires |keys| == |chains| && Grouping(chains, keys, order, groups)
    ensures forall i :: 0 <= i < |order| ==> order[i] in groups
    ensures Collected(order, groups) == Grouped(chains, keys)
  {
  }

  lemma KeysConnect(parent: map<string, string>, rank: map<string, nat>, top: nat, chains: seq<ChainOf>, keys: seq<string>)
    requires Ranked(parent, rank, top) && Joins(parent, rank, top, ReadsOfAll(Flat(chains))) && WholeGraph(chains)
    requires |keys| == |chains|
    requires forall d :: 0 <= d < |chains| ==> chains[d] != [] && keys[d] == Root(parent, rank, top, chains[d][0].id)
    ensures forall c, d :: 0 <= c < |chains| && 0 <= d < |chains| ==> (keys[c] == keys[d] <==> Connected(chains, c, d))
  {
    hide Ranked, Joins, WholeGraph, Root, Connected, Flat, ReadsOfAll;
    forall c, d | 0 <= c < |chains| && 0 <= d < |chains| ensures keys[c] == keys[d] <==> Connected(chains, c, d) {
      RootsConnect(parent, rank, top, chains, c, d);
    }
  }

  lemma GroupingNone(chains: seq<ChainOf>)
    ensures Grouping(chains[..0], [], [], map[])
  {
  }

  lemma GroupingAt(chains: seq<ChainOf>, c: nat, keys: seq<string>, order: seq<string>, groups: map<string, seq<ChainOf>>,
                   key: string)
    requires c < |chains| && |keys| == c && Grouping(chains[..c], keys, order, groups)
    ensures key !in groups ==> Grouping(chains[..c + 1], keys + [key], order + [key], groups[key := [chains[c]]])
    ensures key in groups ==> Grouping(chains[..c + 1], keys + [key], order, groups[key := groups[key] + [chains[c]]])
  {
    assert chains[..c + 1] == chains[..c] + [chains[c]];
    hide Grouping;
    GroupingOn(chains[..c], keys, order, groups, chains[c], key);
  }

  /** Chain by chain into the group of its root, each group where it first came. */
  method GroupByRoot(chains: seq<ChainOf>, parent: map<string, string>, ghost rank: map<string, nat>, ghost top: nat)
    returns (order: seq<string>, groups: map<string, seq<ChainOf>>, ghost keys: seq<string>)
    requires Ranked(parent, rank, top) && forall c :: 0 <= c < |chains| ==> chains[c] != []
    ensures |keys| == |chains| && Grouping(chains, keys, order, groups)
    ensures forall d :: 0 <= d < |chains| ==> keys[d] == Root(parent, rank, top, chains[d][0].id)
  {
    hide *;
    order, groups, keys := [], map[], [];
    GroupingNone(chains);
    for c := 0 to |chains|
      invariant |keys| == c && Grouping(chains[..c], keys, order, groups)
      invariant forall d :: 0 <= d < c ==> keys[d] == Root(parent, rank, top, chains[d][0].id)
    {
      var key := FindRoot(parent, chains[c][0].id, rank, top);
      GroupingAt(chains, c, keys, order, groups, key);
      if key !in groups {
        order := order + [key];
        groups := groups[key := [chains[c]]];
      } else {
        groups := groups[key := groups[key] + [chains[c]]];
      }
      keys := keys + [key];
    }
    assert chains[..|chains|] == chains;
  }

  /** The chains grouped by root (`_components`): parts in the order of their
      first chain, two chains in one part exactly when reads connect them. */
  method Components(chains: seq<ChainOf>) returns (parts: seq<seq<ChainOf>>, ghost keys: seq<string>)
    requires WholeGraph(chains)
    ensures |keys| == |chains| && parts == Grouped(chains, keys)
    ensures forall c, d :: 0 <= c < |chains| && 0 <= d < |chains| ==> (keys[c] == keys[d] <==> Connected(chains, c, d))
  {
    var parent, rank, top := JoinChains(chains);
    var order, groups, ks := GroupByRoot(chains, parent, rank, top);
    keys := ks;
    hide *;
    GroupingDone(chains, keys, order, groups);
    parts := Collected(order, groups);
    KeysConnect(parent, rank, top, chains, keys);
  }

  lemma SelectOn(chains: seq<ChainOf>, chain: ChainOf, keys: seq<string>, key: string, k: string)
    requires |keys| == |chains|
    ensures Select(chains + [chain], keys + [key], k) == Select(chains, keys, k) + (if key == k then [chain] else [])
  {
    assert (chains + [chain])[..|chains|] == chains && (keys + [key])[..|keys|] == keys;
  }

  lemma {:induction false} NoneSelected(chains: seq<ChainOf>, keys: seq<string>, key: string)
    requires |keys| == |chains| && key !in keys
    ensures Select(chains, keys, key) == []
  {
    if chains != [] {
      var last := |chains| - 1;
      NoneSelected(chains[..last], keys[..last], key);
    }
  }

  /** The parts are self-contained: a node any chain of a part reads is a node
      of a chain of that part. */
  lemma PartsSelfContained(chains: seq<ChainOf>, keys: seq<string>, c: nat, s: nat, q: nat)
    requires WholeGraph(chains) && |keys| == |chains|
    requires forall c, d :: 0 <= c < |chains| && 0 <= d < |chains| ==> (keys[c] == keys[d] <==> Connected(chains, c, d))
    requires c < |chains| && s < |chains[c]| && q < |chains[c][s].inputs| && !chains[c][s].inputs[q].Source?
    ensures exists d :: 0 <= d < |chains| && keys[d] == keys[c] && InChain(chains[d], Slot(chains[c][s].inputs[q]).node)
  {
    assert InSome(chains, Slot(chains[c][s].inputs[q]).node);
    var d :| 0 <= d < |chains| && InChain(chains[d], Slot(chains[c][s].inputs[q]).node);
    assert ReadsFrom(chains[c], chains[d]);
    ToItself(chains, c);
    Onward(chains, c, c, d);
  }

  /** No chain is lost and none is doubled: the parts together are the chains. */
  lemma {:induction false} PartsPartition(chains: seq<ChainOf>, keys: seq<string>)
    requires |keys| == |chains|
    ensures multiset(Flat(Grouped(chains, keys))) == multiset(chains)
  {
    if chains == [] {
      assert Grouped(chains, keys) == [];
    } else {
      var last := |chains| - 1;
      PartsPartition(chains[..last], keys[..last]);
      assert chains == chains[..last] + [chains[last]] && keys == keys[..last] + [keys[last]];
      hide Grouped, Flat;
      GroupedOn(chains[..last], keys[..last], chains[last], keys[last]);
    }
  }

  lemma GroupedOn(chains: seq<ChainOf>, keys: seq<string>, chain: ChainOf, key: string)
    requires |keys| == |chains|
    ensures multiset(Flat(Grouped(chains + [chain], keys + [key]))) == multiset(Flat(Grouped(chains, keys))) + multiset{chain}
  {
    var parts := Grouped(chains, keys);
    var order := Firsts(keys);
    GroupedShape(chains, keys, chain, key);
    if i :| 0 <= i < |order| && order[i] == key {
      hide Grouped, Flat, Firsts;
      FlatUpdate(parts, i, chain);
    } else {
      assert (parts + [[chain]])[..|parts|] == parts;
    }
  }

  lemma PartAt(chains: seq<ChainOf>, keys: seq<string>, i: nat)
    requires |keys| == |chains| && i < |Firsts(keys)|
    ensures Grouped(chains, keys)[i] == Select(chains, keys, Firsts(keys)[i])
  {
    hide Select, Firsts;
  }

  /** One more chain goes to its key's part, or to a new one at the end. */
  lemma GroupedShape(chains: seq<ChainOf>, keys: seq<string>, chain: ChainOf, key: string)
    requires |keys| == |chains|
    ensures var parts, parts', order := Grouped(chains, keys), Grouped(chains + [chain], keys + [key]), Firsts(keys);
      && (key !in order ==> parts' == parts + [[chain]])
      && (forall i :: 0 <= i < |order| && order[i] == key ==> parts' == parts[i := parts[i] + [chain]])
  {
    hide *;
    var parts, parts' := Grouped(chains, keys), Grouped(chains + [chain], keys + [key]);
    var order := Firsts(keys);
    FirstsOn(keys, key);
    forall i | 0 <= i < |order|
      ensures i < |parts| && i < |parts'| && parts'[i] == if key == order[i] then parts[i] + [chain] else parts[i]
    {
      SelectOn(chains, chain, keys, key, order[i]);
      PartAt(chains, keys, i);
      PartAt(chains + [chain], keys + [key], i);
      assert parts[i] + [] == parts[i];
    }
    if key !in order {
      SelectOn(chains, chain, keys, key, key);
      NoneSelected(chains, keys, key);
      PartAt(chains + [chain], keys + [key], |order|);
      assert Select(chains, keys, key) + [chain] == [chain];
      assert parts'[|order|] == [chain];
      AsBefore(parts, parts', [chain]);
    } else {
      var i :| 0 <= i < |order| && order[i] == key;
      OneChanged(parts, parts', i, parts[i] + [chain]);
    }
  }

  lemma AsBefore<T>(s: seq<T>, t: seq<T>, x: T)
    requires |t| == |s| + 1 && t[|s|] == x && forall i :: 0 <= i < |s| ==> t[i] == s[i]
    ensures t == s + [x]
  {
  }

  lemma OneChanged<T>(s: seq<T>, t: seq<T>, i: nat, x: T)
    requires |t| == |s| && i < |s| && t[i] == x && forall j :: 0 <= j < |s| && j != i ==> t[j] == s[j]
    ensures t == s[i := x]
  {
  }

  lemma FirstsOn(keys: seq<string>, key: string)
    ensures Firsts(keys + [key]) == if key in Firsts(keys) then Firsts(keys) else Firsts(keys) + [key]
  {
    assert (keys + [key])[..|keys|] == keys;
  }

  lemma {:induction false} FlatUpdate<T>(parts: seq<seq<T>>, i: nat, x: T)
    requires i < |parts|
    ensures multiset(Flat(parts[i := parts[i] + [x]])) == multiset(Flat(parts)) + multiset{x}
    decreases |parts|
  {
    hide Flat;
    var last := |parts| - 1;
    var parts' := parts[i := parts[i] + [x]];
    FlatLast(parts);
    FlatLast(parts');
    if i == last {
      assert parts'[..last] == parts[..last];
      AddedLast(Flat(parts[..last]), parts[last], x);
    } else {
      FlatUpdate(parts[..last], i, x);
      assert parts'[..last] == parts[..last][i := parts[..last][i] + [x]];
      AddedBefore(Flat(parts[..last]), Flat(parts'[..last]), parts[last], x);
    }
  }

  lemma FlatLast<T>(parts: seq<seq<T>>)
    requires parts != []
    ensures Flat(parts) == Flat(parts[..|parts| - 1]) + parts[|parts| - 1]
  {
  }

  lemma AddedLast<T>(s: seq<T>, t: seq<T>, x: T)
    ensures multiset(s + (t + [x])) == multiset(s + t) + multiset{x}
  {
    assert s + (t + [x]) == (s + t) + [x];
  }

  lemma AddedBefore<T>(s: seq<T>, s': seq<T>, t: seq<T>, x: T)
    requires multiset(s') == multiset(s) + multiset{x}
    ensures multiset(s' + t) == multiset(s + t) + multiset{x}
  {
  }
}
