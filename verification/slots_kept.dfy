/** What the two drop passes keep, one after the other. */
module SlotsKept {
  import opened Wrappers
  import W = Wiring
  import opened Slots

  /** The new number of each slot kept. */
  type Numbering = map<nat, nat>

  /** The kept slots in order onto the new ones, each with its path. */
  ghost predicate Renumbers(paths: seq<string>, paths': seq<string>, m: Numbering)
  {
    && (forall i :: i in m ==> i < |paths| && m[i] < |paths'| && paths'[m[i]] == paths[i])
    && (forall i, j :: i in m && j in m && i < j ==> m[i] < m[j])
    && (forall j: nat :: j < |paths'| ==> j in m.Values)
  }

  function MappedIndex(m: Numbering, index: Option<int>): Option<int>
  {
    if index.Some? && index.value >= 0 && index.value in m then Some(m[index.value]) else index
  }

  function MappedRows(rows: seq<Row>, m: Numbering): seq<Row>
  {
    if rows == [] then []
    else
      var last := rows[|rows| - 1];
      MappedRows(rows[..|rows| - 1], m) + (if last.input in m then [last.(input := m[last.input])] else [])
  }

  ghost predicate SameUnit(u: Unit, u': Unit, m: Numbering)
  {
    && u'.outputs == u.outputs
    && u'.chapters == MappedIndex(m, u.chapters) && u'.metadata == MappedIndex(m, u.metadata)
  }

  ghost predicate SameUnits(units: seq<Unit>, units': seq<Unit>, m: Numbering)
  {
    |units'| == |units| && forall k :: 0 <= k < |units| ==> SameUnit(units[k], units'[k], m)
  }

  ghost predicate SameRows(rows: map<string, seq<Row>>, rows': map<string, seq<Row>>, m: Numbering)
  {
    rows'.Keys == rows.Keys && forall s :: s in rows ==> rows'[s] == MappedRows(rows[s], m)
  }

  ghost predicate SameSources(sources: map<string, nat>, sources': map<string, nat>, m: Numbering)
  {
    && (forall a :: a in sources' <==> a in sources && sources[a] in m)
    && (forall a :: a in sources' ==> sources'[a] == m[sources[a]])
  }

  ghost predicate PinnedKept(g: Graph, m: Numbering)
  {
    forall i: nat :: Referenced(g, i) ==> i in m
  }

  /** An alias left belongs to a dropped branch if it did. */
  ghost predicate SameDropped(g: Graph, g': Graph)
  {
    forall a :: a in g'.sources ==> (a in g'.dropped <==> a in g.dropped)
  }

  /** Everything that names a slot of `g` names the same one in `g'`, and every
      slot something pins is kept. */
  ghost predicate SameInputs(g: Graph, g': Graph, m: Numbering)
  {
    && Renumbers(g.inputPaths, g'.inputPaths, m) && PinnedKept(g, m)
    && g'.nodes == g.nodes && g'.trims == g.trims && g'.options == g.options
    && SameSources(g.sources, g'.sources, m) && SameUnits(g.units, g'.units, m) && SameRows(g.urlRows, g'.urlRows, m)
    && SameDropped(g, g')
  }

  function NumberingOf(g: Graph, drop: set<nat>): (m: Numbering)
    ensures forall i: nat :: i in m <==> i < |g.inputPaths| && i !in drop
    ensures forall i: nat :: i in m ==> m[i] == NewIndex(drop, i)
  {
    map i: nat | i < |g.inputPaths| && i !in drop :: NewIndex(drop, i)
  }

  lemma DroppedRenumbers(g: Graph, drop: set<nat>)
    ensures Renumbers(g.inputPaths, KeptPaths(g.inputPaths, drop), NumberingOf(g, drop))
  {
    var m, paths' := NumberingOf(g, drop), KeptPaths(g.inputPaths, drop);
    hide KeptPaths, NewIndex;
    forall i: nat | i in m ensures m[i] < |paths'| && paths'[m[i]] == g.inputPaths[i] {
      KeptAt(g.inputPaths, drop, i);
    }
    forall i: nat, j: nat | i in m && j in m && i < j ensures m[i] < m[j] {
      NewIndexRises(drop, i, j);
    }
    forall j: nat | j < |paths'| ensures j in m.Values {
      var i := EveryNumberUsed(drop, |g.inputPaths|, j);
      assert i in m && m[i] == j;
    }
  }

  lemma {:induction false} RowsMapped(rows: seq<Row>, drop: set<nat>, m: Numbering, n: nat)
    requires forall r :: r in rows ==> r.input < n
    requires forall i: nat :: i in m <==> i < n && i !in drop
    requires forall i: nat :: i in m ==> m[i] == NewIndex(drop, i)
    ensures KeptRows(rows, drop) == MappedRows(rows, m)
  {
    hide NewIndex;
    if rows != [] {
      var last := |rows| - 1;
      RowsMapped(rows[..last], drop, m, n);
      assert rows[last] in rows;
    }
  }

  lemma DroppedUnits(g: Graph, drop: set<nat>)
    requires Consistent(g) && Droppable(g, drop)
    ensures SameUnits(g.units, KeptUnits(g.units, drop), NumberingOf(g, drop))
  {
    NoLookupMisses(g, drop);
    hide Consistent, Droppable, NewIndex;
    forall k | 0 <= k < |g.units| ensures SameUnit(g.units[k], KeptUnits(g.units, drop)[k], NumberingOf(g, drop)) {
      assert g.units[k] in g.units;
    }
  }

  lemma DroppedRows(g: Graph, drop: set<nat>)
    requires Consistent(g)
    ensures SameRows(g.urlRows, AllKeptRows(g.urlRows, drop), NumberingOf(g, drop))
  {
    var m := NumberingOf(g, drop);
    hide KeptRows, MappedRows, NewIndex;
    forall s | s in g.urlRows ensures KeptRows(g.urlRows[s], drop) == MappedRows(g.urlRows[s], m) {
      RowsMapped(g.urlRows[s], drop, m, |g.inputPaths|);
    }
  }

  lemma DroppedSources(g: Graph, drop: set<nat>)
    requires Consistent(g)
    ensures SameSources(g.sources, KeptSources(g, drop), NumberingOf(g, drop))
  {
    hide NewIndex;
  }

  lemma PinsKept(g: Graph, drop: set<nat>)
    requires Consistent(g) && Droppable(g, drop)
    ensures PinnedKept(g, NumberingOf(g, drop))
  {
    hide NewIndex, Referenced;
    forall i: nat | Referenced(g, i) ensures i in NumberingOf(g, drop) {
      PinnedInTable(g, i);
    }
  }

  lemma PinnedInTable(g: Graph, i: nat)
    requires Consistent(g) && Referenced(g, i)
    ensures i < |g.inputPaths|
  {
    hide NewIndex;
  }

  lemma AliasesStay(g: Graph, drop: set<nat>, a: string)
    requires Consistent(g) && Droppable(g, drop) && (a in g.trims || a in g.options)
    ensures a in KeptSources(g, drop)
  {
    assert a in g.sources;
    assert PinnedByAliases(g, g.sources[a]);
    assert Referenced(g, g.sources[a]);
  }

  /** One pass keeps everything that names an input. */
  lemma DropKeeps(g: Graph, drop: set<nat>)
    requires Consistent(g) && Droppable(g, drop)
    ensures SameInputs(g, Renumbered(g, drop), NumberingOf(g, drop))
  {
    hide Renumbers, PinnedKept, SameSources, SameUnits, SameRows, NumberingOf, KeptSources, KeptPaths, KeptUnits, AllKeptRows,
         NewIndex, Consistent, Droppable;
    DroppedRenumbers(g, drop);
    DroppedUnits(g, drop);
    DroppedRows(g, drop);
    DroppedSources(g, drop);
    PinsKept(g, drop);
    forall a | a in g.trims || a in g.options ensures a in KeptSources(g, drop) {
      AliasesStay(g, drop, a);
    }
  }

  lemma NothingDropped(g: Graph)
    requires Consistent(g)
    ensures SameInputs(g, g, NumberingOf(g, {}))
  {
    var m := NumberingOf(g, {});
    forall i: nat ensures NewIndex({}, i) == i {
      Unmoved(i);
    }
    hide NewIndex, NumberingOf;
    assert PinnedKept(g, m) by { PinsKept(g, {}); }
    assert Renumbers(g.inputPaths, g.inputPaths, m) by {
      forall j: nat | j < |g.inputPaths| ensures j in m.Values {
        assert m[j] == j;
      }
    }
    SourcesUnmoved(g, m);
    hide Renumbers, PinnedKept, Consistent;
  }

  lemma SourcesUnmoved(g: Graph, m: Numbering)
    requires Consistent(g) && forall i: nat :: i in m <==> i < |g.inputPaths|
    requires forall i: nat :: i in m ==> m[i] == i
    ensures SameSources(g.sources, g.sources, m) && SameUnits(g.units, g.units, m) && SameRows(g.urlRows, g.urlRows, m)
  {
    forall s | s in g.urlRows ensures g.urlRows[s] == MappedRows(g.urlRows[s], m) {
      RowsUnmoved(g.urlRows[s], m);
    }
    hide MappedRows;
  }

  lemma {:induction false} Unmoved(i: nat)
    ensures NewIndex({}, i) == i
  {
    if i > 0 {
      Unmoved(i - 1);
    }
  }

  lemma {:induction false} RowsUnmoved(rows: seq<Row>, m: Numbering)
    requires forall r :: r in rows ==> r.input in m && m[r.input] == r.input
    ensures MappedRows(rows, m) == rows
  {
    if rows != [] {
      var last := |rows| - 1;
      RowsUnmoved(rows[..last], m);
      assert rows[last] in rows && rows == rows[..last] + [rows[last]];
    }
  }

  lemma DropSlotsKeeps(g: Graph, drop: set<nat>)
    requires Consistent(g) && Droppable(g, drop)
    ensures SameInputs(g, DropSlots(g, drop), NumberingOf(g, drop))
  {
    hide SameInputs, NumberingOf, Renumbered;
    if drop == {} {
      NothingDropped(g);
    } else {
      DropKeeps(g, drop);
    }
  }

  // What is pinned stays pinned

  lemma IndexStays(m: Numbering, index: Option<int>, i: nat)
    requires i in m && forall j: nat :: j in m && m[j] == m[i] ==> j == i
    requires index.Some? && index.value >= 0 ==> index.value in m
    ensures m[i] in IndexOf(MappedIndex(m, index)) <==> i in IndexOf(index)
  {
  }

  lemma RefsStay(g: Graph, g': Graph, m: Numbering, refs: seq<Ref>, i: nat)
    requires SameSources(g.sources, g'.sources, m) && i in m && forall j: nat :: j in m && m[j] == m[i] ==> j == i
    ensures m[i] in RefsIndices(g', refs) <==> i in RefsIndices(g, refs)
  {
  }

  lemma OneNumberEach(paths: seq<string>, paths': seq<string>, m: Numbering, i: nat)
    requires Renumbers(paths, paths', m) && i in m
    ensures forall j: nat :: j in m && m[j] == m[i] ==> j == i
  {
    forall j: nat | j in m ensures m[j] == m[i] ==> j == i {
      assert (j < i ==> m[j] < m[i]) && (i < j ==> m[i] < m[j]);
    }
  }

  lemma UnitStays(g: Graph, g': Graph, m: Numbering, k: nat, i: nat)
    requires SameInputs(g, g', m) && k < |g.units| && i in m
    ensures m[i] in UnitIndices(g', g'.units[k]) <==> i in UnitIndices(g, g.units[k])
  {
    var u, u' := g.units[k], g'.units[k];
    assert SameUnit(u, u', m);
    OneNumberEach(g.inputPaths, g'.inputPaths, m, i);
    RefsStay(g, g', m, u.outputs, i);
    UnitPinned(g, m, u);
    IndexStays(m, u.chapters, i);
    IndexStays(m, u.metadata, i);
    hide *;
    UnitIndicesAre(g, u);
    UnitIndicesAre(g', u');
    SameUnitIs(u, u', m);
  }

  lemma UnitIndicesAre(g: Graph, u: Unit)
    ensures UnitIndices(g, u) == RefsIndices(g, u.outputs) + IndexOf(u.chapters) + IndexOf(u.metadata)
  {
  }

  lemma SameUnitIs(u: Unit, u': Unit, m: Numbering)
    ensures SameUnit(u, u', m) <==>
      u'.outputs == u.outputs && u'.chapters == MappedIndex(m, u.chapters) && u'.metadata == MappedIndex(m, u.metadata)
  {
  }

  lemma UnitPinned(g: Graph, m: Numbering, u: Unit)
    requires PinnedKept(g, m) && u in g.units
    ensures u.chapters.Some? && u.chapters.value >= 0 ==> u.chapters.value in m
    ensures u.metadata.Some? && u.metadata.value >= 0 ==> u.metadata.value in m
  {
    if u.chapters.Some? && u.chapters.value >= 0 {
      assert (u.chapters.value as nat) in UnitIndices(g, u) && Referenced(g, u.chapters.value);
    }
    if u.metadata.Some? && u.metadata.value >= 0 {
      assert (u.metadata.value as nat) in UnitIndices(g, u) && Referenced(g, u.metadata.value);
    }
  }

  /** A kept slot is pinned after exactly when it was before. */
  lemma ReferencedStays(g: Graph, g': Graph, m: Numbering, i: nat)
    requires SameInputs(g, g', m) && i in m
    ensures Referenced(g', m[i]) <==> Referenced(g, i)
  {
    OneNumberEach(g.inputPaths, g'.inputPaths, m, i);
    forall n | n in g.nodes ensures m[i] in RefsIndices(g', n.inputs) <==> i in RefsIndices(g, n.inputs) {
      RefsStay(g, g', m, n.inputs, i);
    }
    forall k | 0 <= k < |g.units|
      ensures m[i] in UnitIndices(g', g'.units[k]) <==> i in UnitIndices(g, g.units[k])
    {
      UnitStays(g, g', m, k, i);
    }
    hide RefsIndices, UnitIndices, Renumbers, PinnedKept, SameRows;
    UnitsPinAlike(g, g', m, i);
    assert PinnedByNodes(g', g'.nodes, m[i]) <==> PinnedByNodes(g, g.nodes, i);
    assert PinnedByAliases(g', m[i]) <==> PinnedByAliases(g, i);
  }

  lemma UnitsPinAlike(g: Graph, g': Graph, m: Numbering, i: nat)
    requires i in m && |g'.units| == |g.units|
    requires forall k :: 0 <= k < |g.units| ==> (m[i] in UnitIndices(g', g'.units[k]) <==> i in UnitIndices(g, g.units[k]))
    ensures PinnedByUnits(g', g'.units, m[i]) <==> PinnedByUnits(g, g.units, i)
  {
    hide UnitIndices;
    if u :| u in g.units && i in UnitIndices(g, u) {
      var k :| 0 <= k < |g.units| && g.units[k] == u;
      assert g'.units[k] in g'.units;
    }
    if u :| u in g'.units && m[i] in UnitIndices(g', u) {
      var k :| 0 <= k < |g'.units| && g'.units[k] == u;
      assert g.units[k] in g.units;
    }
  }

  /** What named a stream of an input names the same file's still. */
  lemma StillNamesIt(g: Graph, g': Graph, m: Numbering, a: string)
    requires Consistent(g) && SameInputs(g, g', m) && a in g.sources && Referenced(g, g.sources[a])
    ensures a in g'.sources && g'.sources[a] < |g'.inputPaths|
    ensures g'.inputPaths[g'.sources[a]] == g.inputPaths[g.sources[a]]
  {
  }

  lemma {:induction false} RowsFrom(rows: seq<Row>, m: Numbering, r: Row) returns (was: Row)
    requires r in MappedRows(rows, m)
    ensures was in rows && was.input in m && r == was.(input := m[was.input])
  {
    var last := |rows| - 1;
    if r in MappedRows(rows[..last], m) {
      was := RowsFrom(rows[..last], m, r);
    } else {
      was := rows[last];
    }
  }

  lemma ConsistentStays(g: Graph, g': Graph, m: Numbering)
    requires Consistent(g) && SameInputs(g, g', m)
    ensures Consistent(g')
  {
    forall s, r | s in g'.urlRows && r in g'.urlRows[s] ensures r.input < |g'.inputPaths| {
      var was := RowsFrom(g.urlRows[s], m, r);
    }
    forall a | a in g.trims || a in g.options ensures a in g'.sources {
      assert PinnedByAliases(g, g.sources[a]) && Referenced(g, g.sources[a]);
    }
    forall k | 0 <= k < |g.units| ensures Slotted(g', g'.units[k].chapters) && Slotted(g', g'.units[k].metadata) {
      assert g.units[k] in g.units && SameUnit(g.units[k], g'.units[k], m);
      UnitPinned(g, m, g.units[k]);
    }
    hide MappedRows, Referenced;
  }

  // One pass after the other

  function Then(m: Numbering, m': Numbering): (both: Numbering)
    ensures forall i: nat :: i in both <==> i in m && m[i] in m'
    ensures forall i: nat :: i in both ==> both[i] == m'[m[i]]
  {
    map i | i in m && m[i] in m' :: m'[m[i]]
  }

  lemma ThenRenumbers(p0: seq<string>, p1: seq<string>, p2: seq<string>, m: Numbering, m': Numbering)
    requires Renumbers(p0, p1, m) && Renumbers(p1, p2, m')
    ensures Renumbers(p0, p2, Then(m, m'))
  {
    var both := Then(m, m');
    forall i: nat | i in both ensures i < |p0| && both[i] < |p2| && p2[both[i]] == p0[i] {
      assert m[i] in m';
    }
    forall i: nat, j: nat | i in both && j in both && i < j ensures both[i] < both[j] {
      assert m[i] < m[j];
    }
    forall j: nat | j < |p2| ensures j in both.Values {
      assert j in m'.Values;
      var k: nat :| k in m' && m'[k] == j;
      assert k in m.Values;
      var i: nat :| i in m && m[i] == k;
      assert i in both && both[i] == j;
    }
  }

  lemma {:induction false} ThenRows(rows: seq<Row>, m: Numbering, m': Numbering)
    ensures MappedRows(MappedRows(rows, m), m') == MappedRows(rows, Then(m, m'))
  {
    if rows != [] {
      var last := |rows| - 1;
      ThenRows(rows[..last], m, m');
      var first, r := MappedRows(rows[..last], m), rows[last];
      if r.input in m {
        assert (first + [r.(input := m[r.input])])[..|first|] == first;
      } else {
        assert first + [] == first;
      }
    }
  }

  lemma ThenUnits(g: Graph, units': seq<Unit>, units'': seq<Unit>, m: Numbering, m': Numbering)
    requires SameUnits(g.units, units', m) && SameUnits(units', units'', m') && PinnedKept(g, m)
    requires forall i: nat :: Referenced(g, i) ==> i in Then(m, m')
    ensures SameUnits(g.units, units'', Then(m, m'))
  {
    forall k | 0 <= k < |g.units| ensures SameUnit(g.units[k], units''[k], Then(m, m')) {
      var u := g.units[k];
      assert SameUnit(u, units'[k], m) && SameUnit(units'[k], units''[k], m') && u in g.units;
      UnitPinned(g, m, u);
      UnitPinned(g, Then(m, m'), u);
    }
  }

  /** Two passes together keep what each does. */
  lemma BothKeep(g: Graph, g': Graph, g'': Graph, m: Numbering, m': Numbering)
    requires SameInputs(g, g', m) && SameInputs(g', g'', m')
    ensures SameInputs(g, g'', Then(m, m'))
  {
    hide *;
    var both := Then(m, m');
    SameInputsIs(g, g', m);
    SameInputsIs(g', g'', m');
    DroppedAlike(g, g', g'', m, m');
    ThenPins(g, g', g'', m, m');
    ThenRenumbers(g.inputPaths, g'.inputPaths, g''.inputPaths, m, m');
    PinnedIs(g, both);
    ThenUnits(g, g'.units, g''.units, m, m');
    ThenAllRows(g.urlRows, g'.urlRows, g''.urlRows, m, m');
    ThenSources(g.sources, g'.sources, g''.sources, m, m');
    SameInputsIs(g, g'', both);
  }

  lemma DroppedAlike(g: Graph, g': Graph, g'': Graph, m: Numbering, m': Numbering)
    requires SameSources(g.sources, g'.sources, m) && SameSources(g'.sources, g''.sources, m')
    requires SameDropped(g, g') && SameDropped(g', g'')
    ensures SameDropped(g, g'')
  {
  }

  lemma PinnedIs(g: Graph, m: Numbering)
    ensures PinnedKept(g, m) <==> forall i: nat :: Referenced(g, i) ==> i in m
  {
  }

  lemma SameInputsIs(g: Graph, g': Graph, m: Numbering)
    ensures SameInputs(g, g', m) <==>
      && Renumbers(g.inputPaths, g'.inputPaths, m) && PinnedKept(g, m)
      && g'.nodes == g.nodes && g'.trims == g.trims && g'.options == g.options
      && SameSources(g.sources, g'.sources, m) && SameUnits(g.units, g'.units, m) && SameRows(g.urlRows, g'.urlRows, m)
      && SameDropped(g, g')
  {
  }

  lemma ThenPins(g: Graph, g': Graph, g'': Graph, m: Numbering, m': Numbering)
    requires SameInputs(g, g', m) && SameInputs(g', g'', m')
    ensures PinnedKept(g, Then(m, m'))
  {
    forall i: nat | Referenced(g, i) ensures i in Then(m, m') {
      ReferencedStays(g, g', m, i);
    }
  }

  lemma ThenSources(s0: map<string, nat>, s1: map<string, nat>, s2: map<string, nat>, m: Numbering, m': Numbering)
    requires SameSources(s0, s1, m) && SameSources(s1, s2, m')
    ensures SameSources(s0, s2, Then(m, m'))
  {
  }

  lemma ThenAllRows(r0: map<string, seq<Row>>, r1: map<string, seq<Row>>, r2: map<string, seq<Row>>, m: Numbering, m': Numbering)
    requires SameRows(r0, r1, m) && SameRows(r1, r2, m')
    ensures SameRows(r0, r2, Then(m, m'))
  {
    hide MappedRows;
    forall s | s in r0 ensures r2[s] == MappedRows(r0[s], Then(m, m')) {
      ThenRows(r0[s], m, m');
    }
  }

  // Every name still leads to its file

  /** The ref is a stream of a known alias, and slot `i` is that alias's. */
  predicate Reads(g: Graph, ref: Ref, i: nat)
  {
    ref.Source? && ref.alias in g.sources && g.sources[ref.alias] == i
  }

  /** Something of the graph names slot `i`: a node's input, a file's stream,
      chapters or metadata, or an alias with a window or options. */
  ghost predicate Named(g: Graph, i: nat)
  {
    || (exists k, q :: 0 <= k < |g.nodes| && 0 <= q < |g.nodes[k].inputs| && Reads(g, g.nodes[k].inputs[q], i))
    || (exists k, q :: 0 <= k < |g.units| && 0 <= q < |g.units[k].outputs| && Reads(g, g.units[k].outputs[q], i))
    || (exists k :: 0 <= k < |g.units| && (g.units[k].chapters == Some(i) || g.units[k].metadata == Some(i)))
    || (exists a :: a in g.sources && (a in g.trims || a in g.options) && g.sources[a] == i)
  }

  /** The slots the pass takes for read are those something names. */
  lemma ReferencedMeans(g: Graph, i: nat)
    ensures Referenced(g, i) <==> Named(g, i)
  {
    ByNodes(g, i);
    ByUnits(g, i);
    hide PinnedByNodes, PinnedByUnits;
  }

  lemma ByNodes(g: Graph, i: nat)
    ensures PinnedByNodes(g, g.nodes, i) <==>
      exists k, q :: 0 <= k < |g.nodes| && 0 <= q < |g.nodes[k].inputs| && Reads(g, g.nodes[k].inputs[q], i)
  {
    if n :| n in g.nodes && i in RefsIndices(g, n.inputs) {
      var k :| 0 <= k < |g.nodes| && g.nodes[k] == n;
      var q :| 0 <= q < |n.inputs| && n.inputs[q].Source? && n.inputs[q].alias in g.sources && g.sources[n.inputs[q].alias] == i;
      assert Reads(g, g.nodes[k].inputs[q], i);
    }
    if k, q :| 0 <= k < |g.nodes| && 0 <= q < |g.nodes[k].inputs| && Reads(g, g.nodes[k].inputs[q], i) {
      assert i in RefsIndices(g, g.nodes[k].inputs);
    }
  }

  lemma ByUnits(g: Graph, i: nat)
    ensures PinnedByUnits(g, g.units, i) <==>
      || (exists k, q :: 0 <= k < |g.units| && 0 <= q < |g.units[k].outputs| && Reads(g, g.units[k].outputs[q], i))
      || (exists k :: 0 <= k < |g.units| && (g.units[k].chapters == Some(i) || g.units[k].metadata == Some(i)))
  {
    if u :| u in g.units && i in UnitIndices(g, u) {
      var k :| 0 <= k < |g.units| && g.units[k] == u;
      if i in RefsIndices(g, u.outputs) {
        var q :| 0 <= q < |u.outputs| && u.outputs[q].Source? && u.outputs[q].alias in g.sources && g.sources[u.outputs[q].alias] == i;
        assert Reads(g, g.units[k].outputs[q], i);
      }
    }
    if k, q :| 0 <= k < |g.units| && 0 <= q < |g.units[k].outputs| && Reads(g, g.units[k].outputs[q], i) {
      assert i in UnitIndices(g, g.units[k]);
    }
    if k :| 0 <= k < |g.units| && (g.units[k].chapters == Some(i) || g.units[k].metadata == Some(i)) {
      assert i in UnitIndices(g, g.units[k]);
    }
  }

  /** The alias is a source's after as before, of the same file. */
  ghost predicate LeadsThere(g: Graph, g': Graph, a: string)
  {
    && a in g.sources && a in g'.sources
    && g.sources[a] < |g.inputPaths| && g'.sources[a] < |g'.inputPaths|
    && g'.inputPaths[g'.sources[a]] == g.inputPaths[g.sources[a]]
  }

  ghost predicate RefLeadsThere(g: Graph, g': Graph, ref: Ref)
  {
    ref.Source? && ref.alias in g.sources ==> LeadsThere(g, g', ref.alias)
  }

  /** A number that names a slot names one of the same file, and any other is
      left as it was. */
  ghost predicate NumberLeadsThere(g: Graph, g': Graph, was: Option<int>, now: Option<int>)
  {
    if was.None? || was.value < 0 then now == was
    else
      && now.Some? && 0 <= now.value < |g'.inputPaths| && was.value < |g.inputPaths|
      && g'.inputPaths[now.value] == g.inputPaths[was.value]
  }

  /** What any node, file or alias names is still there, and the same file. */
  ghost predicate AllLeadThere(g: Graph, g': Graph)
  {
    && g'.nodes == g.nodes && g'.trims == g.trims && g'.options == g.options && |g'.units| == |g.units|
    && (forall k, q :: 0 <= k < |g.nodes| && 0 <= q < |g.nodes[k].inputs| ==> RefLeadsThere(g, g', g.nodes[k].inputs[q]))
    && (forall k :: 0 <= k < |g.units| ==>
          && g'.units[k].outputs == g.units[k].outputs
          && NumberLeadsThere(g, g', g.units[k].chapters, g'.units[k].chapters)
          && NumberLeadsThere(g, g', g.units[k].metadata, g'.units[k].metadata))
    && (forall k, q :: 0 <= k < |g.units| && 0 <= q < |g.units[k].outputs| ==> RefLeadsThere(g, g', g.units[k].outputs[q]))
    && (forall a :: a in g.trims || a in g.options ==> LeadsThere(g, g', a))
  }

  lemma NamedLeads(g: Graph, g': Graph, m: Numbering, a: string)
    requires Consistent(g) && SameInputs(g, g', m) && a in g.sources && Named(g, g.sources[a])
    ensures LeadsThere(g, g', a)
  {
    ReferencedMeans(g, g.sources[a]);
    StillNamesIt(g, g', m, a);
    hide SameInputs, Named, Referenced;
  }

  lemma NumberLeads(g: Graph, g': Graph, m: Numbering, was: Option<int>)
    requires SameInputs(g, g', m) && (was.Some? && was.value >= 0 ==> Named(g, was.value))
    ensures NumberLeadsThere(g, g', was, MappedIndex(m, was))
  {
    if was.Some? && was.value >= 0 {
      ReferencedMeans(g, was.value);
    }
    hide Named, Referenced;
  }

  /** Keeping the inputs keeps every name's file. */
  lemma NamesLead(g: Graph, g': Graph, m: Numbering)
    requires Consistent(g) && SameInputs(g, g', m)
    ensures AllLeadThere(g, g')
  {
    SameInputsIs(g, g', m);
    SourcesConsistent(g);
    hide SameInputs, Consistent, Named, LeadsThere, NumberLeadsThere, Renumbers, PinnedKept, SameSources, SameRows;
    forall k, q | 0 <= k < |g.nodes| && 0 <= q < |g.nodes[k].inputs| ensures RefLeadsThere(g, g', g.nodes[k].inputs[q]) {
      var ref := g.nodes[k].inputs[q];
      if ref.Source? && ref.alias in g.sources {
        NodeNames(g, k, q);
        NamedLeads(g, g', m, ref.alias);
      }
    }
    forall k, q | 0 <= k < |g.units| && 0 <= q < |g.units[k].outputs| ensures RefLeadsThere(g, g', g.units[k].outputs[q]) {
      var ref := g.units[k].outputs[q];
      if ref.Source? && ref.alias in g.sources {
        UnitNames(g, k, q);
        NamedLeads(g, g', m, ref.alias);
      }
    }
    forall k | 0 <= k < |g.units|
      ensures g'.units[k].outputs == g.units[k].outputs
      ensures NumberLeadsThere(g, g', g.units[k].chapters, g'.units[k].chapters)
      ensures NumberLeadsThere(g, g', g.units[k].metadata, g'.units[k].metadata)
    {
      NumberNames(g, k);
      NumberLeads(g, g', m, g.units[k].chapters);
      NumberLeads(g, g', m, g.units[k].metadata);
    }
    forall a | a in g.trims || a in g.options ensures LeadsThere(g, g', a) {
      AliasNames(g, a);
      NamedLeads(g, g', m, a);
    }
  }

  lemma SourcesConsistent(g: Graph)
    requires Consistent(g)
    ensures g.trims.Keys <= g.sources.Keys && g.options.Keys <= g.sources.Keys
  {
  }

  lemma NodeNames(g: Graph, k: nat, q: nat)
    requires k < |g.nodes| && q < |g.nodes[k].inputs|
    requires g.nodes[k].inputs[q].Source? && g.nodes[k].inputs[q].alias in g.sources
    ensures Named(g, g.sources[g.nodes[k].inputs[q].alias])
  {
    assert Reads(g, g.nodes[k].inputs[q], g.sources[g.nodes[k].inputs[q].alias]);
  }

  lemma UnitNames(g: Graph, k: nat, q: nat)
    requires k < |g.units| && q < |g.units[k].outputs|
    requires g.units[k].outputs[q].Source? && g.units[k].outputs[q].alias in g.sources
    ensures Named(g, g.sources[g.units[k].outputs[q].alias])
  {
    assert Reads(g, g.units[k].outputs[q], g.sources[g.units[k].outputs[q].alias]);
  }

  lemma NumberNames(g: Graph, k: nat)
    requires k < |g.units|
    ensures var u := g.units[k];
      && (u.chapters.Some? && u.chapters.value >= 0 ==> Named(g, u.chapters.value))
      && (u.metadata.Some? && u.metadata.value >= 0 ==> Named(g, u.metadata.value))
  {
  }

  lemma AliasNames(g: Graph, a: string)
    requires a in g.sources && (a in g.trims || a in g.options)
    ensures Named(g, g.sources[a])
  {
  }

  function UrlIndices(g: Graph): set<nat>
  {
    set s, r | s in g.urlRows && r in g.urlRows[s] :: r.input
  }

  function DroppedIndices(g: Graph): set<nat>
  {
    set a | a in g.dropped && a in g.sources :: g.sources[a]
  }

  /** Some URL source has slot `i` for a row. */
  ghost predicate OfUrlRow(g: Graph, i: nat)
  {
    exists s, r :: s in g.urlRows && r in g.urlRows[s] && r.input == i
  }

  /** Some dropped branch has slot `i` for an alias. */
  ghost predicate OfDroppedBranch(g: Graph, i: nat)
  {
    exists a :: a in g.dropped && a in g.sources && g.sources[a] == i
  }

  lemma CandidatesAre(g: Graph)
    ensures forall i: nat :: i in UrlIndices(g) <==> OfUrlRow(g, i)
    ensures forall i: nat :: i in DroppedIndices(g) <==> OfDroppedBranch(g, i)
  {
  }

  /** Every URL row's input, and every dropped branch's, is named. */
  ghost predicate NothingToDrop(g: Graph)
  {
    && (forall s, r :: s in g.urlRows && r in g.urlRows[s] ==> Named(g, r.input))
    && (forall a :: a in g.dropped && a in g.sources ==> Named(g, g.sources[a]))
  }

  /** The slots kept are all but those of `which` that nothing names. */
  ghost predicate KeepsAllBut(g: Graph, which: set<nat>, m: Numbering)
  {
    forall i: nat :: i in m <==> i < |g.inputPaths| && (Named(g, i) || i !in which)
  }

  method DropUnusedUrlInputs(g: Graph) returns (after: Graph, ghost m: Numbering)
    requires Consistent(g)
    ensures SameInputs(g, after, m)
    ensures forall i: nat :: i in m <==> i < |g.inputPaths| && (Named(g, i) || !OfUrlRow(g, i))
    ensures forall i: nat :: i in UrlIndices(after) ==> Referenced(after, i)
    ensures (forall i: nat :: i in UrlIndices(g) ==> Referenced(g, i)) ==> after == g
  {
    hide *;
    var indices := UrlIndices(g);
    CandidatesAre(g);
    if indices == {} {
      NothingDropped(g);
      NumbersAllBut(g, indices, {}, {});
      KeptAre(g, indices, NumberingOf(g, {}));
      return g, NumberingOf(g, {});
    }
    var referenced := ReferencedInputIndices(g);
    var drop := indices - referenced;
    assert Droppable(g, drop) by { DroppableIs(g, drop); }
    after := DropInputSlots(g, drop);
    DropSlotsKeeps(g, drop);
    DropsNone(g);
    assert (forall i: nat :: i in drop ==> Referenced(g, i)) ==> drop == {} by { EmptyDrop(g, drop, referenced); }
    m := NumberingOf(g, drop);
    NumbersAllBut(g, indices, referenced, drop);
    KeptAre(g, indices, m);
    forall i: nat | i in UrlIndices(after) ensures Referenced(after, i) {
      var was := UrlIndexFrom(g, after, m, i);
      ReferencedStays(g, after, m, was);
    }
  }

  lemma NumbersAllBut(g: Graph, which: set<nat>, referenced: set<nat>, drop: set<nat>)
    requires which == {} || forall i: nat :: i in referenced <==> Referenced(g, i)
    requires drop == which - referenced
    ensures KeepsAllBut(g, which, NumberingOf(g, drop))
  {
    hide Referenced, Named;
    forall i: nat ensures Referenced(g, i) <==> Named(g, i) {
      ReferencedMeans(g, i);
    }
  }

  lemma DroppableIs(g: Graph, drop: set<nat>)
    requires forall i: nat :: i in drop ==> !Referenced(g, i)
    ensures Droppable(g, drop)
  {
  }

  lemma EmptyDrop(g: Graph, drop: set<nat>, referenced: set<nat>)
    requires drop !! referenced && forall i: nat :: i in referenced <==> Referenced(g, i)
    ensures (forall i: nat :: i in drop ==> Referenced(g, i)) ==> drop == {}
  {
  }

  lemma DropsNone(g: Graph)
    ensures DropSlots(g, {}) == g
  {
  }

  lemma UrlIndexFrom(g: Graph, g': Graph, m: Numbering, i: nat) returns (was: nat)
    requires SameInputs(g, g', m) && i in UrlIndices(g')
    ensures was in UrlIndices(g) && was in m && m[was] == i
  {
    var s, r :| s in g'.urlRows && r in g'.urlRows[s] && r.input == i;
    var before := RowsFrom(g.urlRows[s], m, r);
    was := before.input;
  }

  method DropDroppedBranchInputs(g: Graph) returns (after: Graph, ghost m: Numbering)
    requires Consistent(g)
    ensures SameInputs(g, after, m)
    ensures forall i: nat :: i in m <==> i < |g.inputPaths| && (Named(g, i) || !OfDroppedBranch(g, i))
    ensures forall i: nat :: i in DroppedIndices(after) ==> Referenced(after, i)
    ensures (forall i: nat :: i in UrlIndices(g) ==> Referenced(g, i)) ==> forall i: nat :: i in UrlIndices(after) ==> Referenced(after, i)
    ensures (forall i: nat :: i in DroppedIndices(g) ==> Referenced(g, i)) ==> after == g
  {
    hide *;
    var candidates := DroppedIndices(g);
    CandidatesAre(g);
    if candidates == {} {
      NothingDropped(g);
      NumbersAllBut(g, candidates, {}, {});
      KeptAre(g, candidates, NumberingOf(g, {}));
      return g, NumberingOf(g, {});
    }
    var referenced := ReferencedInputIndices(g);
    var drop := candidates - referenced;
    assert Droppable(g, drop) by { DroppableIs(g, drop); }
    after := DropInputSlots(g, drop);
    DropSlotsKeeps(g, drop);
    DropsNone(g);
    assert (forall i: nat :: i in drop ==> Referenced(g, i)) ==> drop == {} by { EmptyDrop(g, drop, referenced); }
    m := NumberingOf(g, drop);
    NumbersAllBut(g, candidates, referenced, drop);
    KeptAre(g, candidates, m);
    forall i: nat | i in DroppedIndices(after) ensures Referenced(after, i) {
      var was := DroppedIndexFrom(g, drop, i);
      ReferencedStays(g, after, m, was);
    }
    if forall i: nat :: i in UrlIndices(g) ==> Referenced(g, i) {
      forall i: nat | i in UrlIndices(after) ensures Referenced(after, i) {
        var was := UrlIndexFrom(g, after, m, i);
        ReferencedStays(g, after, m, was);
      }
    }
  }

  lemma DroppedIndexFrom(g: Graph, drop: set<nat>, i: nat) returns (was: nat)
    requires Consistent(g) && i in DroppedIndices(DropSlots(g, drop))
    ensures was in DroppedIndices(g) && was in NumberingOf(g, drop) && NumberingOf(g, drop)[was] == i
  {
    if drop == {} {
      was := i;
      Unmoved(i);
    } else {
      var a :| a in Renumbered(g, drop).dropped && a in KeptSources(g, drop) && KeptSources(g, drop)[a] == i;
      was := g.sources[a];
    }
  }

  /** A slot left is some dropped branch's if it was. */
  lemma DroppedIndexStays(g: Graph, g': Graph, m: Numbering, i: nat)
    requires SameInputs(g, g', m) && i in m
    ensures m[i] in DroppedIndices(g') <==> i in DroppedIndices(g)
  {
    if m[i] in DroppedIndices(g') {
      var a :| a in g'.dropped && a in g'.sources && g'.sources[a] == m[i];
      assert a in g.dropped && m[g.sources[a]] == m[i];
      OneNumberEach(g.inputPaths, g'.inputPaths, m, i);
      assert g.sources[a] == i;
    }
    if i in DroppedIndices(g) {
      var a :| a in g.dropped && a in g.sources && g.sources[a] == i;
      assert a in g'.sources && g'.sources[a] == m[i];
    }
    hide Referenced, MappedRows;
  }

  lemma BothKeepAllBut(g: Graph, g': Graph, g'': Graph, m: Numbering, m': Numbering)
    requires SameInputs(g, g', m) && SameInputs(g', g'', m')
    requires KeepsAllBut(g, UrlIndices(g), m) && KeepsAllBut(g', DroppedIndices(g'), m')
    ensures KeepsAllBut(g, UrlIndices(g) + DroppedIndices(g), Then(m, m'))
  {
    forall i: nat ensures i in Then(m, m') <==>
      i < |g.inputPaths| && (Named(g, i) || i !in UrlIndices(g) + DroppedIndices(g))
    {
      if i in m {
        ReferencedMeans(g, i);
        ReferencedMeans(g', m[i]);
        ReferencedStays(g, g', m, i);
        DroppedIndexStays(g, g', m, i);
        NumberBelow(g, g', m, i);
      }
      hide SameInputs, Referenced, Named, UrlIndices, DroppedIndices;
    }
  }

  lemma NumberBelow(g: Graph, g': Graph, m: Numbering, i: nat)
    requires SameInputs(g, g', m) && i in m
    ensures i < |g.inputPaths| && m[i] < |g'.inputPaths|
  {
  }

  /** Both passes: every name of an input leads to the same file, every slot left
      that either could drop is named, no other slot goes, and there is nothing
      more to drop. */
  method DropUnused(g: Graph) returns (after: Graph, ghost both: Numbering)
    requires Consistent(g)
    ensures Consistent(after) && SameInputs(g, after, both) && NothingToDrop(after)
    ensures forall i: nat :: i in both <==>
      i < |g.inputPaths| && (Named(g, i) || !(OfUrlRow(g, i) || OfDroppedBranch(g, i)))
    ensures AllLeadThere(g, after)
    ensures NothingToDrop(g) ==> after == g
  {
    hide *;
    ghost var m, m';
    var between;
    between, m := DropUnusedUrlInputs(g);
    CandidatesAre(g);
    ConsistentStays(g, between, m);
    after, m' := DropDroppedBranchInputs(between);
    CandidatesAre(between);
    KeepsIs(g, UrlIndices(g), m);
    KeepsIs(between, DroppedIndices(between), m');
    ConsistentStays(between, after, m');
    both := Then(m, m');
    BothKeep(g, between, after, m, m');
    BothKeepAllBut(g, between, after, m, m');
    NamesLead(g, after, both);
    KeptAre(g, UrlIndices(g) + DroppedIndices(g), both);
    NothingToDropIs(g);
    NothingToDropIs(after);
  }

  lemma KeepsIs(g: Graph, which: set<nat>, m: Numbering)
    requires forall i: nat :: i in m <==> i < |g.inputPaths| && (Named(g, i) || i !in which)
    ensures KeepsAllBut(g, which, m)
  {
  }

  lemma KeptAre(g: Graph, which: set<nat>, m: Numbering)
    requires KeepsAllBut(g, which, m)
    ensures forall i: nat :: i in m <==> i < |g.inputPaths| && (Named(g, i) || i !in which)
  {
  }

  lemma NothingToDropIs(g: Graph)
    ensures NothingToDrop(g) <==> forall i: nat :: i in UrlIndices(g) || i in DroppedIndices(g) ==> Referenced(g, i)
  {
    CandidatesAre(g);
    hide UrlIndices, DroppedIndices, Referenced, Named;
    forall i: nat ensures Referenced(g, i) <==> Named(g, i) {
      ReferencedMeans(g, i);
    }
    forall s, r | s in g.urlRows && r in g.urlRows[s] ensures OfUrlRow(g, r.input) { }
    forall a | a in g.dropped && a in g.sources ensures OfDroppedBranch(g, g.sources[a]) { }
  }
}
