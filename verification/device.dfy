/**
Which of a query's filters run on the sidecar's device: the largest set whose
members each read from the device and are read only there.
*/
module Device {
  import opened Wrappers
  import opened Wiring

  /** `heldIn` and `heldOut` are the inputs and pads a shaped node's ports hold
      on the GPU; `variant` is its filter's libavfilter graph on the device. */
  datatype Filter = Filter(id: string, filter: string, inputs: seq<Ref>, pads: nat, shaped: bool,
                           heldIn: set<nat>, heldOut: set<nat>, variant: Option<string>)

  /** One file's stream, and whether its encoder reads the device's pictures. */
  datatype Sink = Sink(ref: Ref, onDevice: bool)

  datatype Graph = Graph(nodes: seq<Filter>, sinks: seq<Sink>)

  predicate DistinctNodes(nodes: seq<Filter>)
  {
    forall i, j :: 0 <= i < j < |nodes| ==> nodes[i].id != nodes[j].id
  }

  /** A filter with a variant takes one input and writes one pad. */
  predicate WellFormed(g: Graph)
  {
    && DistinctNodes(g.nodes)
    && (forall i :: 0 <= i < |g.nodes| && g.nodes[i].variant.Some? ==> |g.nodes[i].inputs| == 1 && g.nodes[i].pads == 1)
  }

  function Index(nodes: seq<Filter>, id: string): (at: nat)
    ensures at <= |nodes|
    ensures at < |nodes| ==> nodes[at].id == id
    ensures at == |nodes| ==> forall i :: 0 <= i < |nodes| ==> nodes[i].id != id
  {
    if nodes == [] then 0 else if nodes[0].id == id then 0 else 1 + Index(nodes[1..], id)
  }

  predicate IsNode(g: Graph, id: string) { Index(g.nodes, id) < |g.nodes| }

  function NodeOf(g: Graph, id: string): (node: Filter)
    requires IsNode(g, id)
    ensures node in g.nodes && node.id == id
  {
    g.nodes[Index(g.nodes, id)]
  }

  lemma NodeIs(g: Graph, i: nat)
    requires DistinctNodes(g.nodes) && i < |g.nodes|
    ensures IsNode(g, g.nodes[i].id) && NodeOf(g, g.nodes[i].id) == g.nodes[i]
  {
  }

  /** The node writing `ref`, if one does (`_producer`). */
  function Producer(g: Graph, ref: Ref): Option<string>
  {
    if ref.Source? then None
    else
      var id := Slot(ref).node;
      if IsNode(g, id) && Slot(ref).pad < NodeOf(g, id).pads then Some(id) else None
  }

  /** Every read of `name`'s first pad: the reader and the input it reads at. */
  function ReadersAmong(g: Graph, name: string, nodes: seq<Filter>): (readers: seq<(string, nat)>)
  {
    if nodes == [] then []
    else
      var last := |nodes| - 1;
      ReadersAmong(g, name, nodes[..last]) + InputsReading(g, name, nodes[last], |nodes[last].inputs|)
  }

  function InputsReading(g: Graph, name: string, node: Filter, upTo: nat): (readers: seq<(string, nat)>)
    requires upTo <= |node.inputs|
    ensures forall r :: r in readers <==>
      r.0 == node.id && r.1 < upTo && Producer(g, node.inputs[r.1]) == Some(name) && Slot(node.inputs[r.1]).pad == 0
    ensures forall i, j :: 0 <= i < j < |readers| ==> readers[i] != readers[j]
  {
    if upTo == 0 then []
    else
      InputsReading(g, name, node, upTo - 1) +
      (if Producer(g, node.inputs[upTo - 1]) == Some(name) && Slot(node.inputs[upTo - 1]).pad == 0
       then [(node.id, upTo - 1)] else [])
  }

  function Readers(g: Graph, name: string): seq<(string, nat)>
  {
    ReadersAmong(g, name, g.nodes)
  }

  lemma {:induction false} ReadersAre(g: Graph, name: string, nodes: seq<Filter>, r: (string, nat))
    requires DistinctNodes(nodes)
    ensures r in ReadersAmong(g, name, nodes) <==>
      exists i :: 0 <= i < |nodes| && r in InputsReading(g, name, nodes[i], |nodes[i].inputs|)
  {
    hide InputsReading;
    if nodes != [] {
      var last := |nodes| - 1;
      ReadersAre(g, name, nodes[..last], r);
      var before := ReadersAmong(g, name, nodes[..last]);
      if r in before {
        var i :| 0 <= i < last && r in InputsReading(g, name, nodes[..last][i], |nodes[..last][i].inputs|);
        assert r in InputsReading(g, name, nodes[i], |nodes[i].inputs|);
      }
      if i :| 0 <= i < |nodes| && r in InputsReading(g, name, nodes[i], |nodes[i].inputs|) {
        if i < last {
          assert r in InputsReading(g, name, nodes[..last][i], |nodes[..last][i].inputs|);
        }
      }
    }
  }

  /** No read is listed twice. */
  lemma {:induction false} ReadersOnce(g: Graph, name: string, nodes: seq<Filter>)
    requires DistinctNodes(nodes)
    ensures forall i, j :: 0 <= i < j < |ReadersAmong(g, name, nodes)| ==>
      ReadersAmong(g, name, nodes)[i] != ReadersAmong(g, name, nodes)[j]
  {
    if nodes != [] {
      var last := |nodes| - 1;
      ReadersOnce(g, name, nodes[..last]);
      var before, own := ReadersAmong(g, name, nodes[..last]), InputsReading(g, name, nodes[last], |nodes[last].inputs|);
      forall a, b | 0 <= a < |before| && 0 <= b < |own| ensures before[a] != own[b] {
        ReadersAre(g, name, nodes[..last], before[a]);
        assert own[b] in own && before[a] in before;
        var i :| 0 <= i < last && before[a] in InputsReading(g, name, nodes[..last][i], |nodes[..last][i].inputs|);
        assert nodes[..last][i].id != nodes[last].id;
      }
    }
  }

  /** A reader is a node that reads the pad at that input. */
  lemma ReaderIs(g: Graph, name: string, r: (string, nat))
    requires DistinctNodes(g.nodes)
    ensures r in Readers(g, name) <==>
      && IsNode(g, r.0) && r.1 < |NodeOf(g, r.0).inputs|
      && Producer(g, NodeOf(g, r.0).inputs[r.1]) == Some(name) && Slot(NodeOf(g, r.0).inputs[r.1]).pad == 0
  {
    ReadersAre(g, name, g.nodes, r);
    if r in Readers(g, name) {
      var i :| 0 <= i < |g.nodes| && r in InputsReading(g, name, g.nodes[i], |g.nodes[i].inputs|);
      NodeIs(g, i);
    }
  }

  function FilesOf(g: Graph, name: string): (files: set<Sink>)
  {
    set s | s in g.sinks && Producer(g, s.ref) == Some(name) && Slot(s.ref).pad == 0
  }

  // The two conditions

  predicate HeldOut(g: Graph, ref: Ref)
  {
    Producer(g, ref).Some? &&
    var node := NodeOf(g, Producer(g, ref).value);
    node.shaped && Slot(ref).pad in node.heldOut
  }

  predicate HeldIn(g: Graph, reader: (string, nat))
  {
    IsNode(g, reader.0) && NodeOf(g, reader.0).shaped && reader.1 in NodeOf(g, reader.0).heldIn
  }

  /** An input's own picture, or a split's copy of it. */
  predicate InputPicture(g: Graph, ref: Ref, seen: set<string>)
    decreases Ids(g) - seen
  {
    var found := Producer(g, ref);
    if found.None? || found.value in seen then ref.Source? && ref.kind == Video
    else
      var node := NodeOf(g, found.value);
      node.filter == "split" && node.inputs != [] && InputPicture(g, node.inputs[0], seen + {node.id})
  }

  function Ids(g: Graph): set<string>
  {
    set i | 0 <= i < |g.nodes| :: g.nodes[i].id
  }

  predicate IsCandidate(g: Graph, name: string)
  {
    IsNode(g, name) && NodeOf(g, name).variant.Some?
  }

  predicate ReadsThere(g: Graph, chosen: set<string>, name: string)
    requires WellFormed(g) && IsCandidate(g, name)
  {
    var source := NodeOf(g, name).inputs[0];
    || HeldOut(g, source)
    || (Producer(g, source).Some? && Producer(g, source).value in chosen)
    || InputPicture(g, source, {})
  }

  predicate ReadThere(g: Graph, chosen: set<string>, name: string)
  {
    && (Readers(g, name) != [] || FilesOf(g, name) != {})
    && (forall r :: r in Readers(g, name) ==> r.0 in chosen || HeldIn(g, r))
    && (forall s :: s in FilesOf(g, name) ==> s.onDevice)
  }

  /** Every member is a filter with a variant, reads from the device, and is
      read only there. */
  ghost predicate Qualified(g: Graph, chosen: set<string>)
    requires WellFormed(g)
  {
    forall name :: name in chosen ==>
      IsCandidate(g, name) && ReadsThere(g, chosen, name) && ReadThere(g, chosen, name)
  }

  function Candidates(g: Graph): set<string>
  {
    set i | 0 <= i < |g.nodes| && g.nodes[i].variant.Some? :: g.nodes[i].id
  }

  /** The set's members in some order. */
  method Listed(names: set<string>) returns (order: seq<string>)
    ensures forall n :: n in order <==> n in names
    ensures forall i, j :: 0 <= i < j < |order| ==> order[i] != order[j]
  {
    order := [];
    var rest := names;
    while rest != {}
      invariant forall n :: n in names <==> n in order || n in rest
      invariant rest <= names && forall n :: n in order ==> n !in rest
      invariant forall i, j :: 0 <= i < j < |order| ==> order[i] != order[j]
      decreases rest
    {
      var n :| n in rest;
      order := order + [n];
      rest := rest - {n};
    }
  }

  /** Drop members that do not qualify until none is left: whatever order each
      pass goes in, what stays is the largest qualified set. */
  method DropUntilStable(g: Graph) returns (chosen: set<string>)
    requires WellFormed(g)
    ensures Qualified(g, chosen)
    ensures forall other: set<string> :: Qualified(g, other) ==> other <= chosen
  {
    chosen := Candidates(g);
    AllCandidates(g);
    var changed := true;
    while changed
      invariant forall n :: n in chosen ==> IsCandidate(g, n)
      invariant forall other: set<string> :: Qualified(g, other) ==> other <= chosen
      invariant !changed ==> Qualified(g, chosen)
      decreases chosen, changed
    {
      changed := false;
      ghost var began := chosen;
      var order := Listed(chosen);
      for i := 0 to |order|
        invariant chosen <= began && (changed <==> chosen != began)
        invariant forall n :: n in order[i..] ==> n in chosen
        invariant forall other: set<string> :: Qualified(g, other) ==> other <= chosen
        invariant forall n :: n in chosen && n !in order[i..] ==>
          changed || (ReadsThere(g, chosen, n) && ReadThere(g, chosen, n))
      {
        var name := order[i];
        assert order[i..] == [name] + order[i + 1..];
        assert name in chosen && name !in order[i + 1..];
        if !(ReadsThere(g, chosen, name) && ReadThere(g, chosen, name)) {
          forall other: set<string> | Qualified(g, other) ensures other <= chosen - {name} {
            NotIn(g, chosen, other, name);
          }
          chosen := chosen - {name};
          changed := true;
        }
      }
      assert order[|order|..] == [];
    }
  }

  lemma AllCandidates(g: Graph)
    requires WellFormed(g)
    ensures forall n :: n in Candidates(g) <==> IsCandidate(g, n)
  {
    forall i | 0 <= i < |g.nodes| ensures NodeOf(g, g.nodes[i].id) == g.nodes[i] && IsNode(g, g.nodes[i].id) {
      NodeIs(g, i);
    }
  }

  /** What does not qualify in a set qualifies in none inside it. */
  lemma NotIn(g: Graph, chosen: set<string>, other: set<string>, name: string)
    requires WellFormed(g) && IsCandidate(g, name) && Qualified(g, other) && other <= chosen
    requires !(ReadsThere(g, chosen, name) && ReadThere(g, chosen, name))
    ensures name !in other
  {
  }
}
