/**
Dropping input slots nothing reads. The rest are renumbered to fill the gaps,
and everything that names an input still names the same one.
*/
module Slots {
  import opened Wrappers
  import W = Wiring

  type Ref = W.Ref

  datatype Window = Window(start: Option<int>, end: Option<int>)

  datatype Row = Row(input: nat, values: seq<string>)

  /** A negative number of `chapters` or `metadata` names no slot. */
  datatype Unit = Unit(outputs: seq<Ref>, chapters: Option<int>, metadata: Option<int>)

  datatype Graph = Graph(
    inputPaths: seq<string>,
    sources: map<string, nat>,
    nodes: seq<W.Node>,
    units: seq<Unit>,
    trims: map<string, Window>,
    options: map<string, seq<(string, string)>>,
    urlRows: map<string, seq<Row>>,
    dropped: set<string>)

  /** Every number stored is a slot's, and every alias trimmed or given options
      is a source's. */
  predicate Consistent(g: Graph)
  {
    && (forall a :: a in g.sources ==> g.sources[a] < |g.inputPaths|)
    && (forall u :: u in g.units ==> Slotted(g, u.chapters) && Slotted(g, u.metadata))
    && (forall s, r :: s in g.urlRows && r in g.urlRows[s] ==> r.input < |g.inputPaths|)
    && g.trims.Keys <= g.sources.Keys && g.options.Keys <= g.sources.Keys
  }

  predicate Slotted(g: Graph, index: Option<int>)
  {
    index.Some? ==> index.value < |g.inputPaths|
  }

  // What is read

  function RefsIndices(g: Graph, refs: seq<Ref>): (indices: set<nat>)
    ensures forall i: nat :: i in indices <==>
      exists q :: 0 <= q < |refs| && refs[q].Source? && refs[q].alias in g.sources && g.sources[refs[q].alias] == i
  {
    set q | 0 <= q < |refs| && refs[q].Source? && refs[q].alias in g.sources :: g.sources[refs[q].alias]
  }

  function IndexOf(index: Option<int>): (indices: set<nat>)
    ensures forall i: nat :: i in indices <==> index.Some? && index.value == i
  {
    if index.Some? && index.value >= 0 then {index.value} else {}
  }

  function UnitIndices(g: Graph, u: Unit): set<nat>
  {
    RefsIndices(g, u.outputs) + IndexOf(u.chapters) + IndexOf(u.metadata)
  }

  predicate PinnedByNodes(g: Graph, nodes: seq<W.Node>, i: nat)
  {
    exists n :: n in nodes && i in RefsIndices(g, n.inputs)
  }

  predicate PinnedByUnits(g: Graph, units: seq<Unit>, i: nat)
  {
    exists u :: u in units && i in UnitIndices(g, u)
  }

  predicate PinnedByAliases(g: Graph, i: nat)
  {
    exists a :: a in g.sources && (a in g.trims || a in g.options) && g.sources[a] == i
  }

  /** The slots a node, a file or an alias with a window or options pins. */
  predicate Referenced(g: Graph, i: nat)
  {
    PinnedByNodes(g, g.nodes, i) || PinnedByUnits(g, g.units, i) || PinnedByAliases(g, i)
  }

  lemma OneMorePins(g: Graph, nodes: seq<W.Node>, n: W.Node, units: seq<Unit>, u: Unit, i: nat)
    ensures PinnedByNodes(g, nodes + [n], i) <==> PinnedByNodes(g, nodes, i) || i in RefsIndices(g, n.inputs)
    ensures PinnedByUnits(g, units + [u], i) <==> PinnedByUnits(g, units, i) || i in UnitIndices(g, u)
  {
    hide RefsIndices, UnitIndices;
    assert (nodes + [n])[|nodes|] == n && (units + [u])[|units|] == u;
  }

  /** Each table in turn (`_referenced_input_indices`). */
  method ReferencedInputIndices(g: Graph) returns (indices: set<nat>)
    ensures forall i: nat :: i in indices <==> Referenced(g, i)
  {
    indices := {};
    for k := 0 to |g.nodes|
      invariant forall i: nat :: i in indices <==> PinnedByNodes(g, g.nodes[..k], i)
    {
      hide *;
      assert g.nodes[..k + 1] == g.nodes[..k] + [g.nodes[k]];
      forall i: nat {
        OneMorePins(g, g.nodes[..k], g.nodes[k], [], Unit([], None, None), i);
      }
      indices := indices + RefsIndices(g, g.nodes[k].inputs);
    }
    assert g.nodes[..|g.nodes|] == g.nodes;
    ghost var byNodes := indices;
    for k := 0 to |g.units|
      invariant forall i: nat :: i in indices <==> i in byNodes || PinnedByUnits(g, g.units[..k], i)
    {
      hide *;
      assert g.units[..k + 1] == g.units[..k] + [g.units[k]];
      forall i: nat {
        OneMorePins(g, [], W.Node("", "", [], [], 0), g.units[..k], g.units[k], i);
      }
      indices := indices + UnitIndices(g, g.units[k]);
    }
    assert g.units[..|g.units|] == g.units;
    indices := indices + set a | a in g.sources && (a in g.trims || a in g.options) :: g.sources[a];
  }

  // Renumbering

  /** How many slots before `i` are kept. */
  function NewIndex(drop: set<nat>, i: nat): (j: nat)
    ensures j <= i
  {
    if i == 0 then 0 else NewIndex(drop, i - 1) + (if i - 1 in drop then 0 else 1)
  }

  function KeptPaths(paths: seq<string>, drop: set<nat>): (kept: seq<string>)
    ensures |kept| == NewIndex(drop, |paths|)
  {
    if paths == [] then []
    else
      var last := |paths| - 1;
      KeptPaths(paths[..last], drop) + (if last in drop then [] else [paths[last]])
  }

  lemma {:induction false} NewIndexRises(drop: set<nat>, i: nat, j: nat)
    requires i < j
    ensures NewIndex(drop, i) <= NewIndex(drop, j)
    ensures i !in drop ==> NewIndex(drop, i) < NewIndex(drop, j)
    decreases j
  {
    if i < j - 1 {
      NewIndexRises(drop, i, j - 1);
    }
  }

  /** The kept slots are numbered from 0, in order, none left out and each
      with the path it had. */
  lemma {:induction false} KeptAt(paths: seq<string>, drop: set<nat>, i: nat)
    requires i < |paths| && i !in drop
    ensures NewIndex(drop, i) < |KeptPaths(paths, drop)|
    ensures KeptPaths(paths, drop)[NewIndex(drop, i)] == paths[i]
    decreases |paths|
  {
    var last := |paths| - 1;
    if i < last {
      KeptAt(paths[..last], drop, i);
    }
  }

  lemma {:induction false} EveryNumberUsed(drop: set<nat>, n: nat, j: nat) returns (i: nat)
    requires j < NewIndex(drop, n)
    ensures i < n && i !in drop && NewIndex(drop, i) == j
    decreases n
  {
    if n - 1 !in drop && NewIndex(drop, n - 1) == j {
      i := n - 1;
    } else {
      i := EveryNumberUsed(drop, n - 1, j);
    }
  }

  lemma SameNumberSameSlot(drop: set<nat>, i: nat, j: nat)
    requires i !in drop && j !in drop
    ensures NewIndex(drop, i) == NewIndex(drop, j) <==> i == j
    ensures NewIndex(drop, i) < NewIndex(drop, j) <==> i < j
  {
    if i < j {
      NewIndexRises(drop, i, j);
    } else if j < i {
      NewIndexRises(drop, j, i);
    }
  }

  function Remapped(drop: set<nat>, index: Option<int>): (renumbered: Option<int>)
  {
    if index.None? || index.value < 0 then index else Some(NewIndex(drop, index.value))
  }

  /** No number kept is a dropped slot's but a row's or an alias's own. */
  ghost predicate Droppable(g: Graph, drop: set<nat>)
  {
    forall i: nat :: i in drop ==> !Referenced(g, i)
  }

  function KeptRows(rows: seq<Row>, drop: set<nat>): (kept: seq<Row>)
    ensures forall r :: r in kept ==> exists was :: was in rows && was.input !in drop && r == was.(input := NewIndex(drop, was.input))
  {
    if rows == [] then []
    else
      var last := rows[|rows| - 1];
      KeptRows(rows[..|rows| - 1], drop)
      + (if last.input in drop then [] else [last.(input := NewIndex(drop, last.input))])
  }

  function KeptUnits(units: seq<Unit>, drop: set<nat>): (kept: seq<Unit>)
    ensures |kept| == |units|
    ensures forall k :: 0 <= k < |units| ==>
      kept[k] == units[k].(chapters := Remapped(drop, units[k].chapters), metadata := Remapped(drop, units[k].metadata))
  {
    seq(|units|, k requires 0 <= k < |units| =>
      units[k].(chapters := Remapped(drop, units[k].chapters), metadata := Remapped(drop, units[k].metadata)))
  }

  function KeptSources(g: Graph, drop: set<nat>): map<string, nat>
  {
    map a | a in g.sources && g.sources[a] !in drop :: NewIndex(drop, g.sources[a])
  }

  function AllKeptRows(urlRows: map<string, seq<Row>>, drop: set<nat>): (kept: map<string, seq<Row>>)
    ensures kept.Keys == urlRows.Keys && forall s :: s in urlRows ==> kept[s] == KeptRows(urlRows[s], drop)
  {
    map s | s in urlRows :: KeptRows(urlRows[s], drop)
  }

  function Renumbered(g: Graph, drop: set<nat>): Graph
  {
    var sources := KeptSources(g, drop);
    Graph(KeptPaths(g.inputPaths, drop), sources, g.nodes, KeptUnits(g.units, drop),
          map a | a in g.trims && a in sources :: g.trims[a],
          map a | a in g.options && a in sources :: g.options[a],
          AllKeptRows(g.urlRows, drop),
          set a | a in g.dropped && a in sources)
  }

  function DropSlots(g: Graph, drop: set<nat>): Graph
  {
    if drop == {} then g else Renumbered(g, drop)
  }

  lemma KeptMore(paths: seq<string>, drop: set<nat>, i: nat)
    ensures KeptPaths(paths[..0], drop) == []
    ensures i < |paths| ==>
      KeptPaths(paths[..i + 1], drop) == KeptPaths(paths[..i], drop) + (if i in drop then [] else [paths[i]])
  {
    if i < |paths| {
      assert paths[..i + 1][..i] == paths[..i];
    }
  }

  /** The kept slots and their new numbers, one pass over the paths. */
  method Renumbering(paths: seq<string>, drop: set<nat>) returns (oldToNew: map<nat, nat>, kept: seq<string>)
    ensures forall i: nat :: i in oldToNew <==> i < |paths| && i !in drop
    ensures forall i: nat :: i in oldToNew ==> oldToNew[i] == NewIndex(drop, i)
    ensures kept == KeptPaths(paths, drop)
  {
    oldToNew, kept := map[], [];
    hide NewIndex, KeptPaths;
    KeptMore(paths, drop, 0);
    for i := 0 to |paths|
      invariant forall k: nat :: k in oldToNew <==> k < i && k !in drop
      invariant forall k: nat :: k in oldToNew ==> oldToNew[k] == NewIndex(drop, k)
      invariant kept == KeptPaths(paths[..i], drop)
    {
      KeptMore(paths, drop, i);
      if i !in drop {
        oldToNew := oldToNew[i := |kept|];
        kept := kept + [paths[i]];
      }
    }
    assert paths[..|paths|] == paths;
  }

  method RemapIndex(index: Option<int>, oldToNew: map<nat, nat>, ghost drop: set<nat>) returns (renumbered: Option<int>)
    requires forall i: nat :: i in oldToNew ==> oldToNew[i] == NewIndex(drop, i)
    requires index.Some? && index.value >= 0 ==> index.value in oldToNew
    ensures renumbered == Remapped(drop, index)
  {
    if index.None? || index.value < 0 {
      return index;
    }
    return Some(oldToNew[index.value]);
  }

  method RemapRows(rows: seq<Row>, drop: set<nat>, oldToNew: map<nat, nat>) returns (kept: seq<Row>)
    requires forall i: nat :: i in oldToNew ==> oldToNew[i] == NewIndex(drop, i)
    requires forall r :: r in rows && r.input !in drop ==> r.input in oldToNew
    ensures kept == KeptRows(rows, drop)
  {
    kept := [];
    for k := 0 to |rows|
      invariant kept == KeptRows(rows[..k], drop)
    {
      assert rows[..k + 1][..k] == rows[..k] && rows[k] in rows;
      if rows[k].input !in drop {
        kept := kept + [rows[k].(input := oldToNew[rows[k].input])];
      }
    }
    assert rows[..|rows|] == rows;
  }

  method RemapUnits(units: seq<Unit>, ghost drop: set<nat>, oldToNew: map<nat, nat>) returns (kept: seq<Unit>)
    requires forall i: nat :: i in oldToNew ==> oldToNew[i] == NewIndex(drop, i)
    requires forall u :: u in units ==>
      (u.chapters.Some? && u.chapters.value >= 0 ==> u.chapters.value in oldToNew) &&
      (u.metadata.Some? && u.metadata.value >= 0 ==> u.metadata.value in oldToNew)
    ensures kept == KeptUnits(units, drop)
  {
    kept := [];
    for k := 0 to |units|
      invariant kept == KeptUnits(units[..k], drop)
    {
      var u := units[k];
      assert u in units;
      var chapters := RemapIndex(u.chapters, oldToNew, drop);
      var metadata := RemapIndex(u.metadata, oldToNew, drop);
      kept := kept + [u.(chapters := chapters, metadata := metadata)];
      assert KeptUnits(units[..k + 1], drop) == KeptUnits(units[..k], drop) + [u.(chapters := chapters, metadata := metadata)];
    }
    assert units[..|units|] == units;
  }

  /** The slots in `drop` removed and the rest renumbered: no lookup misses. */
  method DropInputSlots(g: Graph, drop: set<nat>) returns (after: Graph)
    requires Consistent(g) && Droppable(g, drop)
    ensures after == DropSlots(g, drop)
  {
    if drop == {} {
      return g;
    }
    NoLookupMisses(g, drop);
    var oldToNew, paths := Renumbering(g.inputPaths, drop);
    hide DropSlots, Renumbered, Referenced, KeptPaths, KeptRows, KeptUnits, KeptSources, NewIndex, Consistent, Droppable;
    var sources := map a | a in g.sources && g.sources[a] !in drop :: oldToNew[g.sources[a]];
    var urlRows: map<string, seq<Row>> := map[];
    var left := g.urlRows.Keys;
    while left != {}
      invariant left <= g.urlRows.Keys && urlRows.Keys == g.urlRows.Keys - left
      invariant forall s :: s in urlRows ==> urlRows[s] == KeptRows(g.urlRows[s], drop)
      decreases left
    {
      var s :| s in left;
      var rows := RemapRows(g.urlRows[s], drop, oldToNew);
      urlRows := urlRows[s := rows];
      left := left - {s};
    }
    var units := RemapUnits(g.units, drop, oldToNew);
    after := Graph(paths, sources, g.nodes, units,
                   map a | a in g.trims && a in sources :: g.trims[a],
                   map a | a in g.options && a in sources :: g.options[a],
                   urlRows, set a | a in g.dropped && a in sources);
    RenumberedIs(g, drop, after);
  }

  lemma NoLookupMisses(g: Graph, drop: set<nat>)
    requires Consistent(g) && Droppable(g, drop)
    ensures forall a :: a in g.sources ==> g.sources[a] < |g.inputPaths|
    ensures forall s, r :: s in g.urlRows && r in g.urlRows[s] ==> r.input < |g.inputPaths|
    ensures forall u :: u in g.units ==> Maps(g, drop, u.chapters) && Maps(g, drop, u.metadata)
  {
    forall u | u in g.units ensures Maps(g, drop, u.chapters) && Maps(g, drop, u.metadata) {
      if u.chapters.Some? && u.chapters.value >= 0 {
        assert (u.chapters.value as nat) in UnitIndices(g, u) && Referenced(g, u.chapters.value);
      }
      if u.metadata.Some? && u.metadata.value >= 0 {
        assert (u.metadata.value as nat) in UnitIndices(g, u) && Referenced(g, u.metadata.value);
      }
    }
  }

  /** A stored number, if it is a slot's, is a kept one's. */
  predicate Maps(g: Graph, drop: set<nat>, index: Option<int>)
  {
    index.Some? && index.value >= 0 ==> index.value < |g.inputPaths| && index.value !in drop
  }

  lemma RenumberedIs(g: Graph, drop: set<nat>, after: Graph)
    requires drop != {} && after.inputPaths == KeptPaths(g.inputPaths, drop) && after.nodes == g.nodes
    requires after.sources.Keys == KeptSources(g, drop).Keys
    requires forall a :: a in after.sources ==> after.sources[a] == KeptSources(g, drop)[a]
    requires after.units == KeptUnits(g.units, drop) && after.urlRows.Keys == g.urlRows.Keys
    requires forall s :: s in after.urlRows ==> after.urlRows[s] == KeptRows(g.urlRows[s], drop)
    requires after.trims == map a | a in g.trims && a in after.sources :: g.trims[a]
    requires after.options == map a | a in g.options && a in after.sources :: g.options[a]
    requires after.dropped == set a | a in g.dropped && a in after.sources
    ensures after == DropSlots(g, drop)
  {
    assert after.sources == KeptSources(g, drop);
    assert after.urlRows == AllKeptRows(g.urlRows, drop);
  }
}
