/** Fusing a run of device filters into one graph keeps what every sink computes. */
module DeviceFusing {
  import opened Wrappers
  import W = Wiring
  import opened Device

  type Ref = W.Ref

  /** What a pad carries. Nothing is assumed of it. */
  type Picture(!new)

  /** Every ref names an earlier node's pad, or is a source. */
  predicate Ordered(g: Graph)
  {
    && WellFormed(g)
    && (forall k, q :: 0 <= k < |g.nodes| && 0 <= q < |g.nodes[k].inputs| ==> Known(g, k, g.nodes[k].inputs[q]))
    && (forall s :: s in g.sinks ==> Known(g, |g.nodes|, s.ref))
  }

  predicate Known(g: Graph, k: nat, ref: Ref)
  {
    ref.Source? ||
    var at := Index(g.nodes, W.Slot(ref).node);
    at < k && at < |g.nodes| && W.Slot(ref).pad < g.nodes[at].pads
  }

  predicate AllCandidates(g: Graph, chosen: set<string>)
  {
    forall n :: n in chosen ==> IsCandidate(g, n)
  }

  lemma IndexIs(g: Graph, i: nat)
    requires Ordered(g) && i < |g.nodes|
    ensures Index(g.nodes, g.nodes[i].id) == i
  {
  }

  function InputOf(g: Graph, n: string): Ref
    requires WellFormed(g) && IsCandidate(g, n)
  {
    NodeOf(g, n).inputs[0]
  }

  /** The chosen filter `n` joins the graph of: it reads it, nothing else does. */
  function MergesInto(g: Graph, chosen: set<string>, n: string): Option<string>
    requires WellFormed(g) && IsCandidate(g, n)
  {
    var before := Producer(g, InputOf(g, n));
    if before.Some? && before.value in chosen && Readers(g, before.value) == [(n, 0)] && FilesOf(g, before.value) == {}
    then before else None
  }

  /** Some filter among the first `k` nodes takes `b`'s graph into its own. */
  predicate MergedWithin(g: Graph, chosen: set<string>, k: nat, b: string)
    requires WellFormed(g) && AllCandidates(g, chosen)
  {
    b in chosen && exists n :: n in chosen && Index(g.nodes, n) < k && MergesInto(g, chosen, n) == Some(b)
  }

  predicate IsMerged(g: Graph, chosen: set<string>, b: string)
    requires WellFormed(g) && AllCandidates(g, chosen)
  {
    MergedWithin(g, chosen, |g.nodes|, b)
  }

  lemma MergesBefore(g: Graph, chosen: set<string>, n: string)
    requires Ordered(g) && AllCandidates(g, chosen) && n in chosen && MergesInto(g, chosen, n).Some?
    ensures MergesInto(g, chosen, n).value in chosen
    ensures Index(g.nodes, MergesInto(g, chosen, n).value) < Index(g.nodes, n) < |g.nodes|
  {
    var k := Index(g.nodes, n);
    assert Known(g, k, g.nodes[k].inputs[0]);
  }

  /** The run `n` ends, in flow order. */
  function RunOf(g: Graph, chosen: set<string>, n: string): (run: seq<string>)
    requires Ordered(g) && AllCandidates(g, chosen) && n in chosen
    ensures run != [] && run[|run| - 1] == n
    decreases Index(g.nodes, n)
  {
    var b := MergesInto(g, chosen, n);
    if b.None? then [n] else MergesBefore(g, chosen, n); RunOf(g, chosen, b.value) + [n]
  }

  /** The filter the run begins with. */
  function HeadOf(g: Graph, chosen: set<string>, n: string): (head: string)
    requires Ordered(g) && AllCandidates(g, chosen) && n in chosen
    ensures head in chosen && MergesInto(g, chosen, head).None?
    ensures Index(g.nodes, head) <= Index(g.nodes, n)
    decreases Index(g.nodes, n)
  {
    var b := MergesInto(g, chosen, n);
    if b.None? then n else MergesBefore(g, chosen, n); HeadOf(g, chosen, b.value)
  }

  // The merging loop

  /** What the loop holds after the graph's first `i` nodes. */
  ghost predicate Merging(g: Graph, chosen: set<string>, i: nat,
                          graphs: map<string, seq<string>>, inputs: map<string, Ref>, merged: set<string>)
    requires Ordered(g) && AllCandidates(g, chosen)
  {
    && graphs.Keys == chosen && inputs.Keys == chosen
    && (forall n :: n in chosen ==> Reached(g, chosen, i, n, graphs[n], inputs[n]))
    && (forall b :: b in merged <==> MergedWithin(g, chosen, i, b))
  }

  /** `n`'s graph and input, whole once the loop has passed it. */
  predicate Reached(g: Graph, chosen: set<string>, i: nat, n: string, graph: seq<string>, input: Ref)
    requires Ordered(g) && AllCandidates(g, chosen) && n in chosen
  {
    if Index(g.nodes, n) < i then graph == RunOf(g, chosen, n) && input == InputOf(g, HeadOf(g, chosen, n))
    else graph == [n] && input == InputOf(g, n)
  }

  lemma ReachedStill(g: Graph, chosen: set<string>, i: nat, n: string, graph: seq<string>, input: Ref)
    requires Ordered(g) && AllCandidates(g, chosen) && n in chosen && i < |g.nodes| && n != g.nodes[i].id
    requires Reached(g, chosen, i, n, graph, input)
    ensures Reached(g, chosen, i + 1, n, graph, input)
  {
    assert Index(g.nodes, n) < |g.nodes|;
    hide RunOf, HeadOf, InputOf, MergesInto, Ordered, AllCandidates;
  }

  lemma ReachedJoined(g: Graph, chosen: set<string>, i: nat, n: string, b: string,
                      graphB: seq<string>, inputB: Ref, graph: seq<string>, input: Ref)
    requires Ordered(g) && AllCandidates(g, chosen) && n in chosen && b in chosen && Index(g.nodes, n) == i
    requires MergesInto(g, chosen, n) == Some(b)
    requires Reached(g, chosen, i, b, graphB, inputB) && Reached(g, chosen, i, n, graph, input)
    ensures Reached(g, chosen, i + 1, n, graphB + graph, inputB)
  {
    MergesBefore(g, chosen, n);
    hide InputOf, MergesInto, Ordered, AllCandidates, Index;
  }

  lemma ReachedAlone(g: Graph, chosen: set<string>, i: nat, n: string, graph: seq<string>, input: Ref)
    requires Ordered(g) && AllCandidates(g, chosen) && n in chosen && Index(g.nodes, n) == i
    requires MergesInto(g, chosen, n).None? && Reached(g, chosen, i, n, graph, input)
    ensures Reached(g, chosen, i + 1, n, graph, input)
  {
    hide InputOf, MergesInto, Ordered, AllCandidates, Index;
  }

  lemma OneMore(g: Graph, chosen: set<string>, i: nat, b: string)
    requires Ordered(g) && AllCandidates(g, chosen) && i < |g.nodes|
    ensures MergedWithin(g, chosen, i + 1, b) <==>
      MergedWithin(g, chosen, i, b) || (g.nodes[i].id in chosen && MergesInto(g, chosen, g.nodes[i].id) == Some(b))
  {
    IndexIs(g, i);
    assert DistinctNodes(g.nodes);
    hide MergesInto, WellFormed, Ordered;
  }

  /** The loop's test is `MergesInto`: what is merged already has its one reader. */
  lemma TestIs(g: Graph, chosen: set<string>, i: nat, n: string)
    requires Ordered(g) && AllCandidates(g, chosen) && n in chosen && Index(g.nodes, n) == i
    ensures IsCandidate(g, n) && WellFormed(g)
    ensures var before := Producer(g, InputOf(g, n));
      MergesInto(g, chosen, n) ==
      if before.Some? && before.value in chosen && !MergedWithin(g, chosen, i, before.value)
        && Readers(g, before.value) == [(n, 0)] && FilesOf(g, before.value) == {}
      then before else None
  {
  }

  lemma MergingIs(g: Graph, chosen: set<string>, i: nat,
                  graphs: map<string, seq<string>>, inputs: map<string, Ref>, merged: set<string>)
    requires Ordered(g) && AllCandidates(g, chosen)
    ensures WellFormed(g)
    ensures Merging(g, chosen, i, graphs, inputs, merged) <==>
      && graphs.Keys == chosen && inputs.Keys == chosen
      && (forall n :: n in chosen ==> Reached(g, chosen, i, n, graphs[n], inputs[n]))
      && (forall b :: b in merged <==> MergedWithin(g, chosen, i, b))
  {
    hide Reached, MergedWithin, AllCandidates;
  }

  lemma Joined(g: Graph, chosen: set<string>, i: nat, graphs: map<string, seq<string>>, inputs: map<string, Ref>,
               merged: set<string>, n: string, b: string)
    requires Ordered(g) && AllCandidates(g, chosen) && n in chosen && Index(g.nodes, n) == i < |g.nodes|
    requires Merging(g, chosen, i, graphs, inputs, merged) && MergesInto(g, chosen, n) == Some(b)
    ensures b in chosen && b in graphs && n in graphs && b in inputs
    ensures Merging(g, chosen, i + 1, graphs[n := graphs[b] + graphs[n]], inputs[n := inputs[b]], merged + {b})
  {
    hide *;
    MergesBefore(g, chosen, n);
    IndexInjective(g, chosen);
    MergingIs(g, chosen, i, graphs, inputs, merged);
    var graphs', inputs', merged' := graphs[n := graphs[b] + graphs[n]], inputs[n := inputs[b]], merged + {b};
    forall m | m in chosen ensures Reached(g, chosen, i + 1, m, graphs'[m], inputs'[m]) {
      if m == n {
        ReachedJoined(g, chosen, i, n, b, graphs[b], inputs[b], graphs[n], inputs[n]);
      } else {
        ReachedStill(g, chosen, i, m, graphs[m], inputs[m]);
      }
    }
    forall m ensures MergedWithin(g, chosen, i + 1, m) <==> m in merged' {
      OneMore(g, chosen, i, m);
    }
    MergingIs(g, chosen, i + 1, graphs', inputs', merged');
  }

  lemma IndexInjective(g: Graph, chosen: set<string>)
    requires Ordered(g) && AllCandidates(g, chosen)
    ensures forall m :: m in chosen ==> Index(g.nodes, m) < |g.nodes| && g.nodes[Index(g.nodes, m)].id == m
  {
  }

  lemma Alone(g: Graph, chosen: set<string>, i: nat, graphs: map<string, seq<string>>, inputs: map<string, Ref>, merged: set<string>)
    requires Ordered(g) && AllCandidates(g, chosen) && i < |g.nodes|
    requires Merging(g, chosen, i, graphs, inputs, merged)
    requires g.nodes[i].id in chosen ==> MergesInto(g, chosen, g.nodes[i].id).None?
    ensures Merging(g, chosen, i + 1, graphs, inputs, merged)
  {
    hide *;
    IndexIs(g, i);
    MergingIs(g, chosen, i, graphs, inputs, merged);
    forall m | m in chosen ensures Reached(g, chosen, i + 1, m, graphs[m], inputs[m]) {
      if m == g.nodes[i].id {
        ReachedAlone(g, chosen, i, m, graphs[m], inputs[m]);
      } else {
        ReachedStill(g, chosen, i, m, graphs[m], inputs[m]);
      }
    }
    forall m ensures MergedWithin(g, chosen, i + 1, m) <==> m in merged {
      OneMore(g, chosen, i, m);
    }
    MergingIs(g, chosen, i + 1, graphs, inputs, merged);
  }

  lemma NoneMergedYet(g: Graph, chosen: set<string>, graphs: map<string, seq<string>>, inputs: map<string, Ref>)
    requires Ordered(g) && AllCandidates(g, chosen) && graphs.Keys == chosen && inputs.Keys == chosen
    requires forall n :: n in chosen ==> graphs[n] == [n] && inputs[n] == InputOf(g, n)
    ensures Merging(g, chosen, 0, graphs, inputs, {})
  {
    hide RunOf, HeadOf, MergesInto, InputOf;
  }

  /** What the loop reads at node `i`, and what it leaves at the end. */
  lemma MergingHolds(g: Graph, chosen: set<string>, i: nat,
                     graphs: map<string, seq<string>>, inputs: map<string, Ref>, merged: set<string>)
    requires Ordered(g) && AllCandidates(g, chosen) && i <= |g.nodes| && Merging(g, chosen, i, graphs, inputs, merged)
    ensures graphs.Keys == chosen && inputs.Keys == chosen
    ensures forall b :: b in merged <==> MergedWithin(g, chosen, i, b)
    ensures i < |g.nodes| && g.nodes[i].id in chosen ==>
      Index(g.nodes, g.nodes[i].id) == i && inputs[g.nodes[i].id] == InputOf(g, g.nodes[i].id)
    ensures i == |g.nodes| ==> forall n :: n in chosen ==> graphs[n] == RunOf(g, chosen, n)
    ensures i == |g.nodes| ==> forall n :: n in chosen ==> inputs[n] == InputOf(g, HeadOf(g, chosen, n))
  {
    IndexInjective(g, chosen);
    if i < |g.nodes| {
      IndexIs(g, i);
    }
    hide RunOf, HeadOf, MergesInto, MergedWithin, InputOf, Index, Ordered, AllCandidates;
  }

  /** Each chosen filter, in the graph's order, takes the graph and the input
      of the one it joins. */
  method MergeRuns(g: Graph, chosen: set<string>)
    returns (graphs: map<string, seq<string>>, inputs: map<string, Ref>, merged: set<string>)
    requires Ordered(g) && AllCandidates(g, chosen)
    ensures graphs.Keys == chosen && inputs.Keys == chosen
    ensures forall n :: n in chosen ==> graphs[n] == RunOf(g, chosen, n)
    ensures forall n :: n in chosen ==> inputs[n] == InputOf(g, HeadOf(g, chosen, n))
    ensures forall b :: b in merged <==> IsMerged(g, chosen, b)
  {
    hide RunOf, HeadOf, MergesInto, MergedWithin, Index, Merging, Readers, Producer, FilesOf, Known;
    graphs := map n | n in chosen :: [n];
    inputs := map n | n in chosen :: InputOf(g, n);
    merged := {};
    NoneMergedYet(g, chosen, graphs, inputs);
    hide *;
    for i := 0 to |g.nodes|
      invariant Merging(g, chosen, i, graphs, inputs, merged)
    {
      MergingHolds(g, chosen, i, graphs, inputs, merged);
      var name := g.nodes[i].id;
      if name in chosen {
        TestIs(g, chosen, i, name);
        var before := Producer(g, inputs[name]);
        if before.Some? && before.value in chosen && before.value !in merged
          && Readers(g, before.value) == [(name, 0)] && FilesOf(g, before.value) == {}
        {
          Joined(g, chosen, i, graphs, inputs, merged, name, before.value);
          graphs := graphs[name := graphs[before.value] + graphs[name]];
          inputs := inputs[name := inputs[before.value]];
          merged := merged + {before.value};
        } else {
          Alone(g, chosen, i, graphs, inputs, merged);
        }
      } else {
        Alone(g, chosen, i, graphs, inputs, merged);
      }
    }
    MergingHolds(g, chosen, |g.nodes|, graphs, inputs, merged);
    forall b ensures b in merged <==> IsMerged(g, chosen, b) {
      IsMergedIs(g, chosen, b);
    }
  }

  lemma IsMergedIs(g: Graph, chosen: set<string>, b: string)
    requires Ordered(g) && AllCandidates(g, chosen)
    ensures IsMerged(g, chosen, b) <==> MergedWithin(g, chosen, |g.nodes|, b)
  {
  }

  // The graph after

  datatype Survivor = Plain(node: Filter) | OnDevice(id: string, graph: seq<string>, input: Ref)

  function IdOf(s: Survivor): string
  {
    match s
    case Plain(node) => node.id
    case OnDevice(id, _, _) => id
  }

  function Plains(nodes: seq<Filter>): (s: seq<Survivor>)
    ensures |s| == |nodes| && forall i :: 0 <= i < |nodes| ==> s[i] == Plain(nodes[i])
  {
    seq(|nodes|, i requires 0 <= i < |nodes| => Plain(nodes[i]))
  }

  function FusedNode(g: Graph, chosen: set<string>, node: Filter): Survivor
    requires Ordered(g) && AllCandidates(g, chosen)
  {
    if node.id in chosen then OnDevice(node.id, RunOf(g, chosen, node.id), InputOf(g, HeadOf(g, chosen, node.id)))
    else Plain(node)
  }

  /** The nodes left among the first `k`, in their order. */
  function Survivors(g: Graph, chosen: set<string>, k: nat): (s: seq<Survivor>)
    requires Ordered(g) && AllCandidates(g, chosen) && k <= |g.nodes|
    ensures |s| <= k
  {
    if k == 0 then []
    else
      Survivors(g, chosen, k - 1) +
      (if IsMerged(g, chosen, g.nodes[k - 1].id) then [] else [FusedNode(g, chosen, g.nodes[k - 1])])
  }

  function Fused(g: Graph, chosen: set<string>): seq<Survivor>
    requires Ordered(g) && AllCandidates(g, chosen)
  {
    Survivors(g, chosen, |g.nodes|)
  }

  method Fuse(g: Graph, chosen: set<string>) returns (after: seq<Survivor>)
    requires Ordered(g) && AllCandidates(g, chosen)
    ensures after == Fused(g, chosen)
  {
    hide *;
    var graphs, inputs, merged := MergeRuns(g, chosen);
    after := [];
    NoSurvivorYet(g, chosen);
    for k := 0 to |g.nodes|
      invariant after == Survivors(g, chosen, k)
    {
      var node := g.nodes[k];
      NextSurvivor(g, chosen, k);
      if node.id !in merged {
        var survivor := if node.id in chosen then OnDevice(node.id, graphs[node.id], inputs[node.id]) else Plain(node);
        after := after + [survivor];
      }
    }
  }

  lemma NoSurvivorYet(g: Graph, chosen: set<string>)
    requires Ordered(g) && AllCandidates(g, chosen)
    ensures WellFormed(g) && Survivors(g, chosen, 0) == [] && Fused(g, chosen) == Survivors(g, chosen, |g.nodes|)
  {
  }

  lemma NextSurvivor(g: Graph, chosen: set<string>, k: nat)
    requires Ordered(g) && AllCandidates(g, chosen) && k < |g.nodes| && WellFormed(g)
    ensures IsMerged(g, chosen, g.nodes[k].id) ==> Survivors(g, chosen, k + 1) == Survivors(g, chosen, k)
    ensures !IsMerged(g, chosen, g.nodes[k].id) ==>
      Survivors(g, chosen, k + 1) == Survivors(g, chosen, k) + [FusedNode(g, chosen, g.nodes[k])]
    ensures g.nodes[k].id !in chosen ==> FusedNode(g, chosen, g.nodes[k]) == Plain(g.nodes[k])
    ensures g.nodes[k].id in chosen ==> IsCandidate(g, HeadOf(g, chosen, g.nodes[k].id))
    ensures g.nodes[k].id in chosen ==>
      FusedNode(g, chosen, g.nodes[k]) ==
      OnDevice(g.nodes[k].id, RunOf(g, chosen, g.nodes[k].id), InputOf(g, HeadOf(g, chosen, g.nodes[k].id)))
  {
    hide RunOf, HeadOf, IsMerged, InputOf, MergedWithin, IsCandidate;
  }

  // Where the survivors are

  function At(nodes: seq<Survivor>, id: string): (at: nat)
    ensures at <= |nodes|
    ensures at < |nodes| ==> IdOf(nodes[at]) == id
    ensures forall i :: 0 <= i < at ==> IdOf(nodes[i]) != id
  {
    if nodes == [] then 0 else if IdOf(nodes[0]) == id then 0 else 1 + At(nodes[1..], id)
  }

  lemma {:induction false} PrefixOfMore(g: Graph, chosen: set<string>, j: nat, k: nat)
    requires Ordered(g) && AllCandidates(g, chosen) && j <= k <= |g.nodes|
    ensures Survivors(g, chosen, j) <= Survivors(g, chosen, k)
    decreases k
  {
    hide IsMerged, FusedNode, Ordered, AllCandidates;
    if j < k {
      PrefixOfMore(g, chosen, j, k - 1);
    }
  }

  lemma {:induction false} SurvivorIsNode(g: Graph, chosen: set<string>, k: nat, i: nat) returns (j: nat)
    requires Ordered(g) && AllCandidates(g, chosen) && k <= |g.nodes| && i < |Survivors(g, chosen, k)|
    ensures j < k && !IsMerged(g, chosen, g.nodes[j].id) && i == |Survivors(g, chosen, j)|
    ensures Survivors(g, chosen, k)[i] == FusedNode(g, chosen, g.nodes[j])
    decreases k
  {
    hide IsMerged, FusedNode, Ordered, AllCandidates;
    if i < |Survivors(g, chosen, k - 1)| {
      j := SurvivorIsNode(g, chosen, k - 1, i);
    } else {
      j := k - 1;
    }
  }

  lemma HasId(g: Graph, chosen: set<string>, node: Filter)
    requires Ordered(g) && AllCandidates(g, chosen)
    ensures IdOf(FusedNode(g, chosen, node)) == node.id
  {
  }

  lemma OneLonger(g: Graph, chosen: set<string>, j: nat)
    requires Ordered(g) && AllCandidates(g, chosen) && j < |g.nodes| && !IsMerged(g, chosen, g.nodes[j].id)
    ensures Survivors(g, chosen, j + 1) == Survivors(g, chosen, j) + [FusedNode(g, chosen, g.nodes[j])]
  {
    hide IsMerged, FusedNode, Ordered, AllCandidates;
  }

  /** A survivor is found after the survivors that came before it. */
  lemma FoundAt(g: Graph, chosen: set<string>, j: nat)
    requires Ordered(g) && AllCandidates(g, chosen) && j < |g.nodes| && !IsMerged(g, chosen, g.nodes[j].id)
    ensures |Survivors(g, chosen, j)| < |Fused(g, chosen)|
    ensures Fused(g, chosen)[|Survivors(g, chosen, j)|] == FusedNode(g, chosen, g.nodes[j])
    ensures At(Fused(g, chosen), g.nodes[j].id) == |Survivors(g, chosen, j)|
  {
    hide *;
    FusedIs(g, chosen);
    PrefixOfMore(g, chosen, j + 1, |g.nodes|);
    OneLonger(g, chosen, j);
    Prefixed(Survivors(g, chosen, j), FusedNode(g, chosen, g.nodes[j]), Fused(g, chosen));
    HasId(g, chosen, g.nodes[j]);
    AtMost(Fused(g, chosen), g.nodes[j].id, |Survivors(g, chosen, j)|);
    var i := SurvivorIsNode(g, chosen, |g.nodes|, At(Fused(g, chosen), g.nodes[j].id));
    HasId(g, chosen, g.nodes[i]);
    SameNode(g, i, j);
  }

  lemma FusedIs(g: Graph, chosen: set<string>)
    requires Ordered(g) && AllCandidates(g, chosen)
    ensures Fused(g, chosen) == Survivors(g, chosen, |g.nodes|) && DistinctNodes(g.nodes) && WellFormed(g)
  {
  }

  lemma Prefixed<T>(a: seq<T>, x: T, b: seq<T>)
    requires a + [x] <= b
    ensures |a| < |b| && b[|a|] == x
  {
    assert (a + [x])[|a|] == x;
  }

  lemma AtMost(nodes: seq<Survivor>, id: string, i: nat)
    requires i < |nodes| && IdOf(nodes[i]) == id
    ensures At(nodes, id) <= i
  {
  }

  lemma SameNode(g: Graph, i: nat, j: nat)
    requires DistinctNodes(g.nodes) && i < |g.nodes| && j < |g.nodes| && g.nodes[i].id == g.nodes[j].id
    ensures i == j
  {
  }

  lemma KeepsOrder(g: Graph, chosen: set<string>, i: nat, j: nat)
    requires Ordered(g) && AllCandidates(g, chosen) && i < j <= |g.nodes| && !IsMerged(g, chosen, g.nodes[i].id)
    ensures |Survivors(g, chosen, i)| < |Survivors(g, chosen, j)|
  {
    hide *;
    PrefixOfMore(g, chosen, i + 1, j);
    OneLonger(g, chosen, i);
  }

  // Nothing refers to a merged node

  lemma OnlyReader(g: Graph, chosen: set<string>, b: string, r: (string, nat))
    requires Ordered(g) && AllCandidates(g, chosen) && IsMerged(g, chosen, b) && r in Readers(g, b)
    ensures r.1 == 0 && r.0 in chosen && MergesInto(g, chosen, r.0) == Some(b)
  {
  }

  /** A node reads its input's producer. */
  lemma ReadsIt(g: Graph, j: nat, q: nat)
    requires Ordered(g) && j < |g.nodes| && q < |g.nodes[j].inputs| && Producer(g, g.nodes[j].inputs[q]).Some?
    requires W.Slot(g.nodes[j].inputs[q]).pad == 0
    ensures (g.nodes[j].id, q) in Readers(g, Producer(g, g.nodes[j].inputs[q]).value)
  {
    NodeIs(g, j);
    ReaderIs(g, Producer(g, g.nodes[j].inputs[q]).value, (g.nodes[j].id, q));
  }

  lemma ProducerIs(g: Graph, k: nat, ref: Ref)
    requires Ordered(g) && Known(g, k, ref) && !ref.Source?
    ensures Producer(g, ref) == Some(W.Slot(ref).node)
    ensures NodeOf(g, W.Slot(ref).node) == g.nodes[Index(g.nodes, W.Slot(ref).node)]
  {
  }

  /** A plain node's input names a survivor. */
  lemma PlainReadsSurvivor(g: Graph, chosen: set<string>, j: nat, q: nat)
    requires Ordered(g) && AllCandidates(g, chosen) && j < |g.nodes| && q < |g.nodes[j].inputs|
    requires g.nodes[j].id !in chosen && !g.nodes[j].inputs[q].Source?
    ensures !IsMerged(g, chosen, W.Slot(g.nodes[j].inputs[q]).node)
  {
    var ref := g.nodes[j].inputs[q];
    assert Known(g, j, ref);
    ProducerIs(g, j, ref);
    if IsMerged(g, chosen, W.Slot(ref).node) {
      assert W.Slot(ref).pad == 0;
      ReadsIt(g, j, q);
      OnlyReader(g, chosen, W.Slot(ref).node, (g.nodes[j].id, q));
    }
  }

  /** A fused run's input names a survivor. */
  lemma HeadReadsSurvivor(g: Graph, chosen: set<string>, h: string)
    requires Ordered(g) && AllCandidates(g, chosen) && h in chosen && MergesInto(g, chosen, h).None?
    ensures Known(g, Index(g.nodes, h), InputOf(g, h))
    ensures !InputOf(g, h).Source? ==> !IsMerged(g, chosen, W.Slot(InputOf(g, h)).node)
  {
    var ref, j := InputOf(g, h), Index(g.nodes, h);
    assert Known(g, j, g.nodes[j].inputs[0]);
    if !ref.Source? && IsMerged(g, chosen, W.Slot(ref).node) {
      ProducerIs(g, j, ref);
      assert W.Slot(ref).pad == 0;
      ReadsIt(g, j, 0);
      OnlyReader(g, chosen, W.Slot(ref).node, (h, 0));
    }
  }

  lemma NoFiles(g: Graph, chosen: set<string>, b: string, s: Sink)
    requires Ordered(g) && AllCandidates(g, chosen) && IsMerged(g, chosen, b) && s in g.sinks
    ensures !(Producer(g, s.ref) == Some(b) && W.Slot(s.ref).pad == 0)
  {
    assert Producer(g, s.ref) == Some(b) && W.Slot(s.ref).pad == 0 ==> s in FilesOf(g, b);
  }

  /** A file's stream is a survivor's. */
  lemma SinkReadsSurvivor(g: Graph, chosen: set<string>, s: Sink)
    requires Ordered(g) && AllCandidates(g, chosen) && s in g.sinks && !s.ref.Source?
    ensures !IsMerged(g, chosen, W.Slot(s.ref).node)
  {
    ProducerIs(g, |g.nodes|, s.ref);
    if IsMerged(g, chosen, W.Slot(s.ref).node) {
      NoFiles(g, chosen, W.Slot(s.ref).node, s);
    }
  }

  // What each ref carries

  datatype World = World(
    source: Ref -> Picture,
    run: (string, seq<Picture>, nat) -> Picture,
    variant: (string, Picture) -> Picture,
    missing: Picture)

  /** Each variant computes what its filter does. */
  ghost predicate VariantsAgree(w: World, chosen: set<string>)
  {
    forall n: string, p: Picture :: n in chosen ==> w.run(n, [p], 0) == w.variant(n, p)
  }

  /** A device graph's filters in turn. */
  ghost function Through(w: World, graph: seq<string>, p: Picture): Picture
  {
    if graph == [] then p else w.variant(graph[|graph| - 1], Through(w, graph[..|graph| - 1], p))
  }

  /** What a ref carries, among the first `k` nodes. */
  ghost function Value(w: World, nodes: seq<Survivor>, k: nat, ref: Ref): Picture
    decreases k, 0
  {
    if ref.Source? then w.source(ref)
    else
      var at := At(nodes, W.Slot(ref).node);
      if at >= k || at >= |nodes| then w.missing else ValueAt(w, nodes, at, W.Slot(ref).pad)
  }

  ghost function ValueAt(w: World, nodes: seq<Survivor>, at: nat, pad: nat): Picture
    requires at < |nodes|
    decreases at
  {
    match nodes[at]
    case Plain(node) => w.run(node.id, Carried(w, nodes, at, node.inputs), pad)
    case OnDevice(_, graph, input) => Through(w, graph, Value(w, nodes, at, input))
  }

  ghost function Carried(w: World, nodes: seq<Survivor>, k: nat, refs: seq<Ref>): (ps: seq<Picture>)
    ensures |ps| == |refs| && forall q :: 0 <= q < |refs| ==> ps[q] == Value(w, nodes, k, refs[q])
    decreases k, 1 + |refs|
  {
    if refs == [] then [] else Carried(w, nodes, k, refs[..|refs| - 1]) + [Value(w, nodes, k, refs[|refs| - 1])]
  }

  /** What a ref carries in the graph as it was. */
  ghost function Before(w: World, g: Graph, ref: Ref): Picture
  {
    Value(w, Plains(g.nodes), |g.nodes|, ref)
  }

  /** What a ref carries in the graph with its runs fused. */
  ghost function After(w: World, g: Graph, chosen: set<string>, ref: Ref): Picture
    requires Ordered(g) && AllCandidates(g, chosen)
  {
    Value(w, Fused(g, chosen), |Fused(g, chosen)|, ref)
  }

  lemma {:induction false} PlainAt(nodes: seq<Filter>, id: string)
    ensures At(Plains(nodes), id) == Index(nodes, id)
  {
    var at, index := At(Plains(nodes), id), Index(nodes, id);
    if index < |nodes| {
      assert IdOf(Plains(nodes)[index]) == nodes[index].id;
    }
    if at < index {
      assert Plains(nodes)[at] == Plain(nodes[at]);
      EarlierIs(nodes, id, at);
    }
  }

  lemma {:induction false} EarlierIs(nodes: seq<Filter>, id: string, at: nat)
    requires at < Index(nodes, id)
    ensures nodes[at].id != id
  {
    if at > 0 {
      EarlierIs(nodes[1..], id, at - 1);
    }
  }

  /** A node's pad, where the graph knows it. */
  lemma BeforeIs(w: World, g: Graph, k: nat, ref: Ref)
    requires Ordered(g) && Known(g, k, ref) && !ref.Source? && k <= |g.nodes|
    ensures var at := Index(g.nodes, W.Slot(ref).node);
      && at < k
      && Before(w, g, ref) == ValueAt(w, Plains(g.nodes), at, W.Slot(ref).pad)
      && Value(w, Plains(g.nodes), k, ref) == Before(w, g, ref)
  {
    PlainAt(g.nodes, W.Slot(ref).node);
    hide ValueAt, WellFormed;
  }

  /** A chosen filter alone: its variant over its input. */
  lemma ChosenIs(w: World, g: Graph, chosen: set<string>, n: string)
    requires Ordered(g) && AllCandidates(g, chosen) && n in chosen && VariantsAgree(w, chosen)
    ensures Index(g.nodes, n) < |g.nodes|
    ensures ValueAt(w, Plains(g.nodes), Index(g.nodes, n), 0) == w.variant(n, Before(w, g, InputOf(g, n)))
  {
    var k := Index(g.nodes, n);
    var node := g.nodes[k];
    assert Known(g, k, node.inputs[0]) && node == NodeOf(g, n) && InputOf(g, n) == node.inputs[0] && |node.inputs| == 1;
    var v := Value(w, Plains(g.nodes), k, node.inputs[0]);
    assert v == Before(w, g, node.inputs[0]) by {
      if !node.inputs[0].Source? {
        BeforeIs(w, g, k, node.inputs[0]);
      }
    }
    assert Carried(w, Plains(g.nodes), k, node.inputs) == [v];
    hide Ordered, AllCandidates, Index, Value, Carried;
  }

  lemma ThroughMore(w: World, run: seq<string>, n: string, p: Picture)
    ensures Through(w, run + [n], p) == w.variant(n, Through(w, run, p))
  {
    assert (run + [n])[..|run|] == run;
  }

  /** A run's filters, in flow order, over what its head reads. */
  lemma {:induction false} RunMeans(w: World, g: Graph, chosen: set<string>, n: string)
    requires Ordered(g) && AllCandidates(g, chosen) && n in chosen && VariantsAgree(w, chosen)
    ensures Index(g.nodes, n) < |g.nodes|
    ensures ValueAt(w, Plains(g.nodes), Index(g.nodes, n), 0) ==
            Through(w, RunOf(g, chosen, n), Before(w, g, InputOf(g, HeadOf(g, chosen, n))))
    decreases Index(g.nodes, n)
  {
    ChosenIs(w, g, chosen, n);
    var b := MergesInto(g, chosen, n);
    if b.Some? {
      MergesBefore(g, chosen, n);
      RunMeans(w, g, chosen, b.value);
      JoinedMeans(w, g, chosen, n, b.value);
    } else {
      AloneMeans(w, g, chosen, n);
    }
  }

  lemma Onward(g: Graph, chosen: set<string>, m: string, x: string)
    requires Ordered(g) && AllCandidates(g, chosen) && m in chosen && MergesInto(g, chosen, m) == Some(x)
    ensures x in chosen && Index(g.nodes, x) < Index(g.nodes, m) < |g.nodes|
    ensures HeadOf(g, chosen, m) == HeadOf(g, chosen, x) && RunOf(g, chosen, m) == RunOf(g, chosen, x) + [m]
  {
    MergesBefore(g, chosen, m);
  }

  lemma JoinedMeans(w: World, g: Graph, chosen: set<string>, n: string, b: string)
    requires Ordered(g) && AllCandidates(g, chosen) && n in chosen && MergesInto(g, chosen, n) == Some(b) && b in chosen
    requires Index(g.nodes, b) < |g.nodes|
    ensures Before(w, g, InputOf(g, n)) == ValueAt(w, Plains(g.nodes), Index(g.nodes, b), 0)
    ensures HeadOf(g, chosen, n) == HeadOf(g, chosen, b)
    ensures forall p :: Through(w, RunOf(g, chosen, n), p) == w.variant(n, Through(w, RunOf(g, chosen, b), p))
  {
    hide *;
    Onward(g, chosen, n, b);
    forall p ensures Through(w, RunOf(g, chosen, n), p) == w.variant(n, Through(w, RunOf(g, chosen, b), p)) {
      ThroughMore(w, RunOf(g, chosen, b), n, p);
    }
    var k := JoinedInput(g, chosen, n, b);
    BeforeIs(w, g, k, InputOf(g, n));
  }

  lemma JoinedInput(g: Graph, chosen: set<string>, n: string, b: string) returns (k: nat)
    requires Ordered(g) && AllCandidates(g, chosen) && n in chosen && MergesInto(g, chosen, n) == Some(b) && b in chosen
    ensures k <= |g.nodes| && WellFormed(g) && IsCandidate(g, n) && Known(g, k, InputOf(g, n))
    ensures !InputOf(g, n).Source? && W.Slot(InputOf(g, n)).node == b && W.Slot(InputOf(g, n)).pad == 0
  {
    k := Index(g.nodes, n);
    assert Known(g, k, g.nodes[k].inputs[0]) && InputOf(g, n) == g.nodes[k].inputs[0];
    ProducerIs(g, k, InputOf(g, n));
  }

  lemma AloneMeans(w: World, g: Graph, chosen: set<string>, n: string)
    requires Ordered(g) && AllCandidates(g, chosen) && n in chosen && MergesInto(g, chosen, n).None?
    ensures HeadOf(g, chosen, n) == n
    ensures forall p :: Through(w, RunOf(g, chosen, n), p) == w.variant(n, p)
  {
    assert RunOf(g, chosen, n) == [n];
    forall p ensures Through(w, [n], p) == w.variant(n, p) {
      ThroughMore(w, [], n, p);
      assert [] + [n] == [n];
    }
  }

  /** A survivor's ref, known to the first `k` nodes, is found among the
      survivors of those nodes and carries what it did. */
  lemma {:induction false} StillCarries(w: World, g: Graph, chosen: set<string>, k: nat, ref: Ref)
    requires Ordered(g) && AllCandidates(g, chosen) && VariantsAgree(w, chosen) && k <= |g.nodes| && Known(g, k, ref)
    requires !ref.Source? ==> !IsMerged(g, chosen, W.Slot(ref).node)
    ensures Value(w, Fused(g, chosen), |Survivors(g, chosen, k)|, ref) == Before(w, g, ref)
    decreases k, 0
  {
    hide IsMerged, VariantsAgree, Ordered, AllCandidates, ValueAt, FusedNode, Survivors, Fused;
    if !ref.Source? {
      BeforeIs(w, g, k, ref);
      var j := Index(g.nodes, W.Slot(ref).node);
      FoundAt(g, chosen, j);
      KeepsOrder(g, chosen, j, k);
      PadIs(g, chosen, j, W.Slot(ref).pad);
      if g.nodes[j].id in chosen {
        StillComputesRun(w, g, chosen, j);
      } else {
        StillComputesPlain(w, g, chosen, j, W.Slot(ref).pad);
      }
    }
  }

  lemma PadIs(g: Graph, chosen: set<string>, j: nat, pad: nat)
    requires Ordered(g) && AllCandidates(g, chosen) && j < |g.nodes| && pad < g.nodes[j].pads
    ensures g.nodes[j].id in chosen ==> pad == 0
  {
    NodeIs(g, j);
  }

  lemma {:induction false} StillComputesRun(w: World, g: Graph, chosen: set<string>, j: nat)
    requires Ordered(g) && AllCandidates(g, chosen) && VariantsAgree(w, chosen) && j < |g.nodes|
    requires g.nodes[j].id in chosen && !IsMerged(g, chosen, g.nodes[j].id)
    ensures |Survivors(g, chosen, j)| < |Fused(g, chosen)|
    ensures ValueAt(w, Fused(g, chosen), |Survivors(g, chosen, j)|, 0) == ValueAt(w, Plains(g.nodes), j, 0)
    decreases j, 1
  {
    var n := g.nodes[j].id;
    var h := HeadOf(g, chosen, n);
    FoundAt(g, chosen, j);
    IndexIs(g, j);
    RunMeans(w, g, chosen, n);
    HeadReadsSurvivor(g, chosen, h);
    KnownLater(g, Index(g.nodes, h), j, InputOf(g, h));
    StillCarries(w, g, chosen, j, InputOf(g, h));
    hide IsMerged, VariantsAgree, Ordered, AllCandidates, Survivors, Fused, Value, Before, RunOf, HeadOf, Through, InputOf, Known;
  }

  lemma KnownLater(g: Graph, k: nat, k': nat, ref: Ref)
    requires Known(g, k, ref) && k <= k'
    ensures Known(g, k', ref)
  {
  }

  lemma {:induction false} StillComputesPlain(w: World, g: Graph, chosen: set<string>, j: nat, pad: nat)
    requires Ordered(g) && AllCandidates(g, chosen) && VariantsAgree(w, chosen) && j < |g.nodes|
    requires g.nodes[j].id !in chosen && !IsMerged(g, chosen, g.nodes[j].id)
    ensures |Survivors(g, chosen, j)| < |Fused(g, chosen)|
    ensures ValueAt(w, Fused(g, chosen), |Survivors(g, chosen, j)|, pad) == ValueAt(w, Plains(g.nodes), j, pad)
    decreases j, 1
  {
    FoundAt(g, chosen, j);
    var node, k := g.nodes[j], |Survivors(g, chosen, j)|;
    assert FusedNode(g, chosen, node) == Plain(node);
    var was, now := Carried(w, Plains(g.nodes), j, node.inputs), Carried(w, Fused(g, chosen), k, node.inputs);
    forall q | 0 <= q < |node.inputs| ensures now[q] == was[q] {
      var ref := node.inputs[q];
      InputKnown(g, j, q);
      if !ref.Source? {
        PlainReadsSurvivor(g, chosen, j, q);
        BeforeIs(w, g, j, ref);
      }
      StillCarries(w, g, chosen, j, ref);
    }
    assert was == now;
    hide IsMerged, VariantsAgree, Ordered, AllCandidates, Survivors, Fused, Value, Carried;
  }

  lemma InputKnown(g: Graph, j: nat, q: nat)
    requires Ordered(g) && j < |g.nodes| && q < |g.nodes[j].inputs|
    ensures Known(g, j, g.nodes[j].inputs[q])
  {
  }

  /** Every file gets the stream it did. */
  lemma SinksKept(w: World, g: Graph, chosen: set<string>, s: Sink)
    requires Ordered(g) && AllCandidates(g, chosen) && VariantsAgree(w, chosen) && s in g.sinks
    ensures After(w, g, chosen, s.ref) == Before(w, g, s.ref)
  {
    assert Known(g, |g.nodes|, s.ref);
    if !s.ref.Source? {
      SinkReadsSurvivor(g, chosen, s);
    }
    StillCarries(w, g, chosen, |g.nodes|, s.ref);
  }

  // What is left

  /** The refs a survivor reads. */
  function Refs(s: Survivor): seq<Ref>
  {
    match s
    case Plain(node) => node.inputs
    case OnDevice(_, _, input) => [input]
  }

  lemma StillKnown(g: Graph, chosen: set<string>, k: nat, ref: Ref)
    requires Ordered(g) && AllCandidates(g, chosen) && k <= |g.nodes| && Known(g, k, ref)
    requires !ref.Source? ==> !IsMerged(g, chosen, W.Slot(ref).node)
    ensures ref.Source? || At(Fused(g, chosen), W.Slot(ref).node) < |Survivors(g, chosen, k)|
  {
    hide IsMerged, Ordered, AllCandidates, FusedNode, Survivors, Fused;
    if !ref.Source? {
      var j := Index(g.nodes, W.Slot(ref).node);
      FoundAt(g, chosen, j);
      KeepsOrder(g, chosen, j, k);
    }
  }

  /** Every ref of a survivor names an earlier survivor, and every file's
      stream a survivor: none names a filter that was merged away. */
  lemma FusedOrdered(g: Graph, chosen: set<string>)
    requires Ordered(g) && AllCandidates(g, chosen)
    ensures forall i, q :: 0 <= i < |Fused(g, chosen)| && 0 <= q < |Refs(Fused(g, chosen)[i])| ==>
      var ref := Refs(Fused(g, chosen)[i])[q]; ref.Source? || At(Fused(g, chosen), W.Slot(ref).node) < i
    ensures forall s :: s in g.sinks ==>
      s.ref.Source? || At(Fused(g, chosen), W.Slot(s.ref).node) < |Fused(g, chosen)|
  {
    hide IsMerged, Ordered, AllCandidates, FusedNode, Survivors, Fused, At, Known;
    FusedIs(g, chosen);
    forall i, q | 0 <= i < |Fused(g, chosen)| && 0 <= q < |Refs(Fused(g, chosen)[i])|
      ensures var ref := Refs(Fused(g, chosen)[i])[q]; ref.Source? || At(Fused(g, chosen), W.Slot(ref).node) < i
    {
      var j := SurvivorIsNode(g, chosen, |g.nodes|, i);
      RefSurvives(g, chosen, j, q);
    }
    forall s | s in g.sinks
      ensures s.ref.Source? || At(Fused(g, chosen), W.Slot(s.ref).node) < |Fused(g, chosen)|
    {
      SinkKnown(g, s);
      if !s.ref.Source? {
        SinkReadsSurvivor(g, chosen, s);
      }
      StillKnown(g, chosen, |g.nodes|, s.ref);
    }
  }

  lemma SinkKnown(g: Graph, s: Sink)
    requires Ordered(g) && s in g.sinks
    ensures Known(g, |g.nodes|, s.ref)
  {
  }

  lemma RefSurvives(g: Graph, chosen: set<string>, j: nat, q: nat)
    requires Ordered(g) && AllCandidates(g, chosen) && j < |g.nodes|
    requires q < |Refs(FusedNode(g, chosen, g.nodes[j]))|
    ensures var ref := Refs(FusedNode(g, chosen, g.nodes[j]))[q];
      ref.Source? || At(Fused(g, chosen), W.Slot(ref).node) < |Survivors(g, chosen, j)|
  {
    var n := g.nodes[j].id;
    if n in chosen {
      var h := HeadOf(g, chosen, n);
      IndexIs(g, j);
      HeadReadsSurvivor(g, chosen, h);
      KnownLater(g, Index(g.nodes, h), j, InputOf(g, h));
      StillKnown(g, chosen, j, InputOf(g, h));
      assert Refs(FusedNode(g, chosen, g.nodes[j])) == [InputOf(g, h)];
    } else {
      InputKnown(g, j, q);
      if !g.nodes[j].inputs[q].Source? {
        PlainReadsSurvivor(g, chosen, j, q);
      }
      StillKnown(g, chosen, j, g.nodes[j].inputs[q]);
    }
  }

  lemma MergedBy(g: Graph, chosen: set<string>, x: string) returns (m: string)
    requires Ordered(g) && AllCandidates(g, chosen) && IsMerged(g, chosen, x)
    ensures m in chosen && MergesInto(g, chosen, m) == Some(x)
  {
    m :| m in chosen && MergesInto(g, chosen, m) == Some(x);
  }

  /** Every chosen filter is in a survivor's graph, whole run and all. */
  lemma {:induction false} InSomeRun(g: Graph, chosen: set<string>, x: string) returns (t: string)
    requires Ordered(g) && AllCandidates(g, chosen) && x in chosen
    ensures t in chosen && !IsMerged(g, chosen, t) && RunOf(g, chosen, x) <= RunOf(g, chosen, t)
    ensures HeadOf(g, chosen, t) == HeadOf(g, chosen, x)
    decreases |g.nodes| - Index(g.nodes, x)
  {
    FusedIs(g, chosen);
    hide IsMerged, Ordered, AllCandidates, MergesInto, RunOf, HeadOf, WellFormed;
    t := x;
    if IsMerged(g, chosen, x) {
      var m := MergedBy(g, chosen, x);
      Onward(g, chosen, m, x);
      t := InSomeRun(g, chosen, m);
    }
  }

  /** `b` is read by another survivor, or by a file. */
  ghost predicate ReadElsewhere(g: Graph, chosen: set<string>, i: nat, b: string)
    requires Ordered(g) && AllCandidates(g, chosen)
  {
    || FilesOf(g, b) != {}
    || exists j: nat, q: nat :: j < |Fused(g, chosen)| && j != i && ReadsPad(g, Fused(g, chosen)[j], q, b)
  }

  predicate ReadsPad(g: Graph, s: Survivor, q: nat, b: string)
  {
    q < |Refs(s)| && Producer(g, Refs(s)[q]) == Some(b) && W.Slot(Refs(s)[q]).pad == 0
  }

  /** A reader besides the run's own head, where the two could not be merged. */
  lemma AnotherReader(g: Graph, chosen: set<string>, h: string, b: string) returns (r: (string, nat))
    requires Ordered(g) && AllCandidates(g, chosen) && h in chosen && MergesInto(g, chosen, h).None?
    requires Producer(g, InputOf(g, h)) == Some(b) && b in chosen && FilesOf(g, b) == {}
    ensures r in Readers(g, b) && r.0 != h
  {
    var readers, k := Readers(g, b), Index(g.nodes, h);
    assert Known(g, k, g.nodes[k].inputs[0]);
    ProducerIs(g, k, InputOf(g, h));
    ReadsIt(g, k, 0);
    assert (h, 0) in readers && readers != [(h, 0)];
    ReadersOnce(g, b, g.nodes);
    assert forall x :: x in readers && x.0 == h ==> x == (h, 0) by {
      forall x | x in readers && x.0 == h ensures x == (h, 0) {
        ReaderIs(g, b, x);
      }
    }
    hide Readers, ReadersAmong, Ordered, AllCandidates, MergesInto, FilesOf;
    r := Another(readers, (h, 0));
  }

  lemma Another(readers: seq<(string, nat)>, one: (string, nat)) returns (r: (string, nat))
    requires one in readers && readers != [one]
    requires forall i, j :: 0 <= i < j < |readers| ==> readers[i] != readers[j]
    ensures r in readers && r != one
  {
    assert |readers| <= 1 ==> readers == [one];
    r := if readers[0] == one then readers[1] else readers[0];
  }

  lemma ReadsOn(g: Graph, chosen: set<string>, b: string, r: (string, nat), i: nat) returns (q: nat)
    requires Ordered(g) && AllCandidates(g, chosen) && r in Readers(g, b) && i < |g.nodes|
    requires if r.0 in chosen then g.nodes[i].id in chosen && HeadOf(g, chosen, g.nodes[i].id) == r.0 else g.nodes[i].id == r.0
    ensures ReadsPad(g, FusedNode(g, chosen, g.nodes[i]), q, b)
  {
    NodeIs(g, i);
    ReaderIs(g, b, r);
    q := r.1;
    if r.0 in chosen {
      assert q == 0 && Refs(FusedNode(g, chosen, g.nodes[i])) == [InputOf(g, r.0)];
    } else {
      assert FusedNode(g, chosen, g.nodes[i]) == Plain(g.nodes[i]);
    }
    hide Readers, ReadersAmong, HeadOf, RunOf, MergesInto, Ordered, AllCandidates, WellFormed, FusedNode, Producer, InputOf;
  }

  /** Whoever reads a chosen filter that has another reader too, reads it still. */
  lemma ReaderSurvives(g: Graph, chosen: set<string>, b: string, r: (string, nat)) returns (t: string, j: nat, q: nat)
    requires Ordered(g) && AllCandidates(g, chosen) && r in Readers(g, b)
    requires r.0 in chosen ==> MergesInto(g, chosen, r.0).None?
    ensures j < |Fused(g, chosen)| && ReadsPad(g, Fused(g, chosen)[j], q, b) && IdOf(Fused(g, chosen)[j]) == t
    ensures if r.0 in chosen then t in chosen && HeadOf(g, chosen, t) == r.0 else t == r.0
  {
    hide *;
    var i: nat;
    if r.0 in chosen {
      IsItsHead(g, chosen, r.0);
      t := InSomeRun(g, chosen, r.0);
      IndexInjective(g, chosen);
      i := Index(g.nodes, t);
    } else {
      t := r.0;
      NotChosenKept(g, chosen, t);
      i := ReaderAt(g, b, r);
    }
    FoundAt(g, chosen, i);
    HasId(g, chosen, g.nodes[i]);
    j := |Survivors(g, chosen, i)|;
    q := ReadsOn(g, chosen, b, r, i);
  }

  lemma IsItsHead(g: Graph, chosen: set<string>, h: string)
    requires Ordered(g) && AllCandidates(g, chosen) && h in chosen && MergesInto(g, chosen, h).None?
    ensures HeadOf(g, chosen, h) == h
  {
  }

  lemma ReaderAt(g: Graph, b: string, r: (string, nat)) returns (i: nat)
    requires Ordered(g) && r in Readers(g, b)
    ensures i < |g.nodes| && g.nodes[i].id == r.0 && WellFormed(g)
  {
    ReaderIs(g, b, r);
    i := Index(g.nodes, r.0);
  }

  lemma NotChosenKept(g: Graph, chosen: set<string>, t: string)
    requires Ordered(g) && AllCandidates(g, chosen) && t !in chosen
    ensures !IsMerged(g, chosen, t)
  {
  }

  /** Fusing goes as far as it can: what a survivor's head reads, when that is
      a chosen filter too, something else reads as well. */
  lemma NoneLeftToMerge(g: Graph, chosen: set<string>, i: nat, b: string)
    requires Ordered(g) && AllCandidates(g, chosen) && i < |Fused(g, chosen)| && Fused(g, chosen)[i].OnDevice?
    requires Producer(g, Fused(g, chosen)[i].input) == Some(b) && b in chosen
    ensures ReadElsewhere(g, chosen, i, b)
  {
    FusedIs(g, chosen);
    var k := SurvivorIsNode(g, chosen, |g.nodes|, i);
    var n := g.nodes[k].id;
    NextSurvivor(g, chosen, k);
    var h := HeadOf(g, chosen, n);
    hide IsMerged, Survivors, Fused, Readers, AllCandidates, Ordered, MergesInto, RunOf, HeadOf, FilesOf, ReadsPad;
    if FilesOf(g, b) == {} {
      var r := AnotherReader(g, chosen, h, b);
      NotTheOneReader(g, chosen, h, b, r);
      var t, j, q := ReaderSurvives(g, chosen, b, r);
      assert j != i;
    }
  }

  lemma NotTheOneReader(g: Graph, chosen: set<string>, h: string, b: string, r: (string, nat))
    requires Ordered(g) && AllCandidates(g, chosen) && h in chosen && Producer(g, InputOf(g, h)) == Some(b) && b in chosen
    requires r in Readers(g, b) && r.0 != h
    ensures r.0 in chosen ==> MergesInto(g, chosen, r.0).None?
  {
    var k := Index(g.nodes, h);
    assert Known(g, k, g.nodes[k].inputs[0]);
    ProducerIs(g, k, InputOf(g, h));
    ReadsIt(g, k, 0);
    ReaderIs(g, b, r);
  }
}
