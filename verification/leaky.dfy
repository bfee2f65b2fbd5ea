/**
The form a leaky takes: over coded packets where everything reading it takes
packets, and otherwise over what a decode ahead of it makes of them.
*/
module Leaky {
  import opened Wrappers
  import W = Wiring
  import opened Decoding
  import opened DecodingComplete

  /** One file's stream, and the codec it encodes it with, if it says. */
  datatype File = File(ref: Ref, codec: Option<string>)

  predicate NodeTakesPackets(g: Graph, node: Node, ref: Ref)
  {
    ref in node.inputs ==> TakesPackets(g, node, ref)
  }

  /** Everything reading `ref` takes packets: nodes, and files that copy. */
  predicate ReadersTakePackets(g: Graph, files: seq<File>, ref: Ref)
  {
    && (forall k :: 0 <= k < |g.nodes| ==> NodeTakesPackets(g, g.nodes[k], ref))
    && (forall f :: f in files && f.ref == ref ==> f.codec.None? || f.codec == Some("copy"))
  }

  /** A leaky over packets. */
  predicate LeaksPackets(g: Graph, node: Node)
  {
    node.filter == LEAKY && node.inputs != [] && Coded(g, node.inputs[0])
  }

  predicate NeedsAhead(g: Graph, files: seq<File>, node: Node)
  {
    LeaksPackets(g, node) && !ReadersTakePackets(g, files, W.Whole(node.id))
  }

  function AheadId(node: Node): string
  {
    node.id + "_decode"
  }

  function Ahead(node: Node): Node
    requires node.inputs != []
  {
    Node(AheadId(node), "null", [node.inputs[0]], false, [], {})
  }

  /** The leaky over its decode's pictures. */
  function Turned(node: Node): Node
    requires node.inputs != []
  {
    node.(inputs := [W.Whole(AheadId(node))] + node.inputs[1..])
  }

  function Out(g: Graph, files: seq<File>, k: nat): seq<Node>
    requires k <= |g.nodes|
  {
    if k == 0 then []
    else
      var node := g.nodes[k - 1];
      Out(g, files, k - 1) + (if NeedsAhead(g, files, node) then [Ahead(node), Turned(node)] else [node])
  }

  function AfterLeaky(g: Graph, files: seq<File>): Graph
  {
    g.(nodes := Table(Out(g, files, |g.nodes|)))
  }

  /** The decodes first found, then put in front of their leakys. */
  method DecodeAheadOfLeaky(g: Graph, files: seq<File>) returns (after: Graph)
    requires Distinct(g.nodes)
    ensures after == AfterLeaky(g, files)
  {
    hide NeedsAhead;
    var decodes: set<string> := {};
    for k := 0 to |g.nodes|
      invariant forall id :: id in decodes <==> exists j :: 0 <= j < k && g.nodes[j].id == id && NeedsAhead(g, files, g.nodes[j])
    {
      if NeedsAhead(g, files, g.nodes[k]) {
        decodes := decodes + {g.nodes[k].id};
      }
    }
    var nodes: seq<Node> := [];
    for k := 0 to |g.nodes|
      invariant nodes == Table(Out(g, files, k))
    {
      hide *;
      var node := g.nodes[k];
      InDecodes(g, files, decodes, k);
      OutTable(g, files, k);
      if node.id in decodes {
        NeedsInput(g, files, node);
        nodes := Put(Put(nodes, Ahead(node)), Turned(node));
      } else {
        nodes := Put(nodes, node);
      }
    }
    after := g.(nodes := nodes);
  }

  lemma InDecodes(g: Graph, files: seq<File>, decodes: set<string>, k: nat)
    requires Distinct(g.nodes) && k < |g.nodes|
    requires forall id :: id in decodes <==> exists j :: 0 <= j < |g.nodes| && g.nodes[j].id == id && NeedsAhead(g, files, g.nodes[j])
    ensures g.nodes[k].id in decodes <==> NeedsAhead(g, files, g.nodes[k])
  {
    hide NeedsAhead;
  }

  lemma OutTable(g: Graph, files: seq<File>, k: nat)
    requires k < |g.nodes|
    ensures var node, so := g.nodes[k], Table(Out(g, files, k));
      Table(Out(g, files, k + 1)) == if NeedsAhead(g, files, node) then Put(Put(so, Ahead(node)), Turned(node)) else Put(so, node)
  {
    var node, out := g.nodes[k], Out(g, files, k);
    if NeedsAhead(g, files, node) {
      TableOn(out, Ahead(node));
      TableOn(out + [Ahead(node)], Turned(node));
      assert out + [Ahead(node), Turned(node)] == out + [Ahead(node)] + [Turned(node)];
    } else {
      TableOn(out, node);
    }
    hide NeedsAhead, Table, Put, Ahead, Turned;
  }

  lemma NeedsInput(g: Graph, files: seq<File>, node: Node)
    requires NeedsAhead(g, files, node)
    ensures node.inputs != []
  {
  }

  // What is left

  /** A leaky is a node the host makes, with no shape of its own, and no packet
      filter: only declared modules are given shapes, or filter packets. */
  predicate LeakiesPlain(g: Graph)
  {
    forall k :: 0 <= k < |g.nodes| && g.nodes[k].filter == LEAKY ==>
      !g.nodes[k].shaped && g.nodes[k].id !in g.packetFilters
  }

  /** And nothing is called what a decode would be. */
  predicate ReadyForLeaky(g: Graph, files: seq<File>)
  {
    && Distinct(g.nodes) && Ordered(g.nodes) && LeakiesPlain(g)
    && (forall k :: 0 <= k < |g.nodes| ==> ReadsOnce(g.nodes[k]))
    && (forall k :: 0 <= k < |g.nodes| && NeedsAhead(g, files, g.nodes[k]) ==> Unused(g, AheadId(g.nodes[k])))
  }

  /** `left` is one of the first `k` nodes as the pass leaves it, or a decode. */
  predicate LeftBy(g: Graph, files: seq<File>, j: nat, left: Node)
    requires j < |g.nodes|
  {
    var node := g.nodes[j];
    if NeedsAhead(g, files, node) then node.inputs != [] && (left == Ahead(node) || left == Turned(node)) else left == node
  }

  lemma {:induction false} EachLeft(g: Graph, files: seq<File>, k: nat, i: nat) returns (j: nat)
    requires k <= |g.nodes| && i < |Out(g, files, k)|
    ensures j < k && LeftBy(g, files, j, Out(g, files, k)[i])
  {
    hide NeedsAhead;
    if i < |Out(g, files, k - 1)| {
      j := EachLeft(g, files, k - 1, i);
    } else {
      j := k - 1;
      if NeedsAhead(g, files, g.nodes[j]) {
        NeedsInput(g, files, g.nodes[j]);
      }
    }
  }

  lemma {:induction false} EachThere(g: Graph, files: seq<File>, k: nat, j: nat)
    requires j < k <= |g.nodes|
    ensures NeedsAhead(g, files, g.nodes[j]) ==>
      g.nodes[j].inputs != [] && Ahead(g.nodes[j]) in Out(g, files, k) && Turned(g.nodes[j]) in Out(g, files, k)
    ensures !NeedsAhead(g, files, g.nodes[j]) ==> g.nodes[j] in Out(g, files, k)
  {
    if NeedsAhead(g, files, g.nodes[j]) {
      NeedsInput(g, files, g.nodes[j]);
    }
    hide NeedsAhead;
    if j < k - 1 {
      EachThere(g, files, k - 1, j);
    }
  }

  // No id meets another

  ghost predicate OutCalled(g: Graph, files: seq<File>, k: nat)
    requires k <= |g.nodes|
  {
    forall id :: IsNode(Out(g, files, k), id) ==>
      IsNode(g.nodes[..k], id) || exists j :: 0 <= j < k && NeedsAhead(g, files, g.nodes[j]) && AheadId(g.nodes[j]) == id
  }

  lemma AheadApart(a: Node, b: Node)
    ensures AheadId(a) != a.id && (AheadId(a) == AheadId(b) ==> a.id == b.id)
  {
    assert |AheadId(a)| > |a.id|;
    if AheadId(a) == AheadId(b) {
      assert AheadId(a)[..|a.id|] == a.id && AheadId(b)[..|b.id|] == b.id;
    }
  }

  lemma NotOut(g: Graph, files: seq<File>, k: nat)
    requires ReadyForLeaky(g, files) && k < |g.nodes| && OutCalled(g, files, k)
    ensures !IsNode(Out(g, files, k), g.nodes[k].id)
    ensures NeedsAhead(g, files, g.nodes[k]) ==> !IsNode(Out(g, files, k), AheadId(g.nodes[k]))
  {
    var node := g.nodes[k];
    assert IsNode(g.nodes, node.id) && !IsNode(g.nodes[..k], node.id);
    if NeedsAhead(g, files, node) {
      assert Unused(g, AheadId(node));
      NotEarlier(g, k, AheadId(node));
    }
    forall j | 0 <= j < k && NeedsAhead(g, files, g.nodes[j])
      ensures AheadId(g.nodes[j]) != node.id && AheadId(g.nodes[j]) != AheadId(node)
    {
      assert Unused(g, AheadId(g.nodes[j]));
      AheadApart(g.nodes[j], node);
    }
  }

  lemma {:induction false} OutDistinct(g: Graph, files: seq<File>, k: nat)
    requires ReadyForLeaky(g, files) && k <= |g.nodes|
    ensures Distinct(Out(g, files, k)) && OutCalled(g, files, k)
  {
    if k > 0 {
      var node, out := g.nodes[k - 1], Out(g, files, k - 1);
      OutDistinct(g, files, k - 1);
      NotOut(g, files, k - 1);
      CalledOn(g.nodes[..k - 1], node);
      assert g.nodes[..k - 1] + [node] == g.nodes[..k];
      if NeedsAhead(g, files, node) {
        CalledOn(out, Ahead(node));
        CalledOn(out + [Ahead(node)], Turned(node));
        AheadApart(node, node);
        assert out + [Ahead(node), Turned(node)] == out + [Ahead(node)] + [Turned(node)];
      } else {
        CalledOn(out, node);
      }
      hide NeedsAhead, IsNode, Distinct, ReadyForLeaky;
    }
  }

  /** Nothing is kept over another. */
  lemma AllOut(g: Graph, files: seq<File>)
    requires ReadyForLeaky(g, files)
    ensures AfterLeaky(g, files) == g.(nodes := Out(g, files, |g.nodes|)) && Distinct(AfterLeaky(g, files).nodes)
  {
    OutDistinct(g, files, |g.nodes|);
    TableKeeps(Out(g, files, |g.nodes|));
  }

  lemma CodedStillSo(g: Graph, files: seq<File>, ref: Ref)
    requires ReadyForLeaky(g, files)
    ensures Coded(AfterLeaky(g, files), ref) <==> Coded(g, ref)
  {
    AllOut(g, files);
    if !ref.Source? {
      WritesStillSo(g, files, NodeRef(ref), W.Slot(ref).pad);
    }
    hide WritesPackets, Out, Table;
  }

  lemma WritesStillSo(g: Graph, files: seq<File>, id: string, pad: nat)
    ensures WritesPackets(Out(g, files, |g.nodes|), id, pad) <==> WritesPackets(g.nodes, id, pad)
  {
    var nodes := Out(g, files, |g.nodes|);
    hide Out, NeedsAhead;
    if k :| 0 <= k < |nodes| && nodes[k].id == id && nodes[k].shaped && pad in nodes[k].packetPads {
      var j := EachLeft(g, files, |g.nodes|, k);
      assert g.nodes[j].id == id && g.nodes[j].shaped && pad in g.nodes[j].packetPads;
    }
    if j :| 0 <= j < |g.nodes| && g.nodes[j].id == id && g.nodes[j].shaped && pad in g.nodes[j].packetPads {
      EachThere(g, files, |g.nodes|, j);
      var left := if NeedsAhead(g, files, g.nodes[j]) then Turned(g.nodes[j]) else g.nodes[j];
      assert left in nodes;
      var k :| 0 <= k < |nodes| && nodes[k] == left;
    }
  }

  /** A leaky hands on no coded stream. */
  lemma LeakyNotCoded(g: Graph, files: seq<File>, l: nat)
    requires ReadyForLeaky(g, files) && l < |g.nodes| && g.nodes[l].filter == LEAKY
    ensures !Coded(g, W.Whole(g.nodes[l].id))
  {
    var id := g.nodes[l].id;
    forall k | 0 <= k < |g.nodes| && g.nodes[k].id == id ensures !g.nodes[k].shaped {
      assert k == l;
    }
  }

  /** A turned leaky reads its other inputs where it did. */
  lemma TurnedTakes(g: Graph, files: seq<File>, j: nat, ref: Ref)
    requires ReadyForLeaky(g, files) && j < |g.nodes| && NeedsAhead(g, files, g.nodes[j])
    requires ref in Turned(g.nodes[j]).inputs && ref != W.Whole(AheadId(g.nodes[j]))
    ensures ref in g.nodes[j].inputs
    ensures TakesPackets(AfterLeaky(g, files), Turned(g.nodes[j]), ref) <==> TakesPackets(g, g.nodes[j], ref)
  {
    var node := g.nodes[j];
    var turned := Turned(node);
    var q :| 0 <= q < |turned.inputs| && turned.inputs[q] == ref;
    assert q > 0 && node.inputs[q] == ref;
    forall p | 0 <= p < q ensures turned.inputs[p] != ref && node.inputs[p] != ref {
      assert ReadsOnce(node);
    }
    FirstIs(turned.inputs, ref, q);
    FirstIs(node.inputs, ref, q);
    hide Out, NeedsAhead, ReadyForLeaky;
  }

  /** A leaky whose readers all took packets has only such readers after: no
      decode reads it, for a decode reads a coded stream. */
  lemma KeptReaders(g: Graph, files: seq<File>, l: nat)
    requires ReadyForLeaky(g, files) && l < |g.nodes| && g.nodes[l].filter == LEAKY
    requires ReadersTakePackets(g, files, W.Whole(g.nodes[l].id))
    ensures ReadersTakePackets(AfterLeaky(g, files), files, W.Whole(g.nodes[l].id))
  {
    AllOut(g, files);
    var g', ref := AfterLeaky(g, files), W.Whole(g.nodes[l].id);
    forall i | 0 <= i < |g'.nodes| ensures NodeTakesPackets(g', g'.nodes[i], ref) {
      var j := EachLeft(g, files, |g.nodes|, i);
      assert NodeTakesPackets(g, g.nodes[j], ref);
      LeftTakes(g, files, l, j, g'.nodes[i]);
    }
  }

  lemma LeftTakes(g: Graph, files: seq<File>, l: nat, j: nat, left: Node)
    requires ReadyForLeaky(g, files) && l < |g.nodes| && g.nodes[l].filter == LEAKY
    requires j < |g.nodes| && LeftBy(g, files, j, left)
    requires NodeTakesPackets(g, g.nodes[j], W.Whole(g.nodes[l].id))
    ensures NodeTakesPackets(AfterLeaky(g, files), left, W.Whole(g.nodes[l].id))
  {
    var node, ref := g.nodes[j], W.Whole(g.nodes[l].id);
    LeakyNotCoded(g, files, l);
    if NeedsAhead(g, files, node) && ref in left.inputs {
      assert g.nodes[j].inputs[0] != ref;
      assert IsNode(g.nodes, g.nodes[l].id) && Unused(g, AheadId(node));
      TurnedTakes(g, files, j, ref);
    }
    hide Out, ReadyForLeaky;
  }

  /** A leaky the pass turned reads no packets any more. */
  lemma TurnedLeaksNone(g: Graph, files: seq<File>, j: nat)
    requires ReadyForLeaky(g, files) && j < |g.nodes| && NeedsAhead(g, files, g.nodes[j])
    ensures !LeaksPackets(AfterLeaky(g, files), Turned(g.nodes[j]))
    ensures !LeaksPackets(AfterLeaky(g, files), Ahead(g.nodes[j]))
  {
    CodedStillSo(g, files, W.Whole(AheadId(g.nodes[j])));
    assert Unused(g, AheadId(g.nodes[j]));
    hide Out, ReadyForLeaky;
  }

  /** A leaky is left over packets exactly where everything reading it took
      packets, and then everything reading it still does. */
  lemma KeptExactly(g: Graph, files: seq<File>, j: nat)
    requires ReadyForLeaky(g, files) && j < |g.nodes| && LeaksPackets(g, g.nodes[j])
    ensures var node, ref := g.nodes[j], W.Whole(g.nodes[j].id);
      var left := if ReadersTakePackets(g, files, ref) then node else Turned(node);
      var g' := AfterLeaky(g, files);
      && left in g'.nodes
      && (LeaksPackets(g', left) <==> ReadersTakePackets(g, files, ref))
      && (LeaksPackets(g', left) ==> ReadersTakePackets(g', files, ref))
  {
    EachThere(g, files, |g.nodes|, j);
    AllOut(g, files);
    if NeedsAhead(g, files, g.nodes[j]) {
      TurnedLeaksNone(g, files, j);
    } else {
      CodedStillSo(g, files, g.nodes[j].inputs[0]);
      KeptReaders(g, files, j);
    }
    hide Out, ReadersTakePackets, Coded, ReadyForLeaky;
  }

  /** The pass leaves no leaky over packets that something decodes after. */
  lemma NoneNeedsAhead(g: Graph, files: seq<File>, i: nat)
    requires ReadyForLeaky(g, files) && i < |AfterLeaky(g, files).nodes|
    ensures !NeedsAhead(AfterLeaky(g, files), files, AfterLeaky(g, files).nodes[i])
  {
    hide Table, Put, ReadersTakePackets, Coded, AfterLeaky, ReadyForLeaky;
    AllOut(g, files);
    var j := EachLeft(g, files, |g.nodes|, i);
    hide Out;
    if NeedsAhead(g, files, g.nodes[j]) {
      TurnedLeaksNone(g, files, j);
    } else {
      KeptNeedsNone(g, files, j);
    }
  }

  /** Said of the nodes and files themselves: a leaky still over what a node
      writes as packets is read by packet sinks, packet filters, packets ports
      and files that copy. */
  lemma PacketsGoOn(g: Graph, files: seq<File>, i: nat, k: nat)
    requires ReadyForLeaky(g, files) && i < |AfterLeaky(g, files).nodes| && k < |AfterLeaky(g, files).nodes|
    ensures var leaky, maker, nodes := AfterLeaky(g, files).nodes[i], AfterLeaky(g, files).nodes[k], AfterLeaky(g, files).nodes;
      && leaky.filter == "leaky" && leaky.inputs != [] && !leaky.inputs[0].Source?
      && W.Slot(leaky.inputs[0]).node == maker.id
      && (maker.id in g.packetFilters || (maker.shaped && W.Slot(leaky.inputs[0]).pad in maker.packetPads))
      ==>
        && (forall f :: f in files && f.ref == W.Whole(leaky.id) ==> f.codec.None? || f.codec == Some("copy"))
        && (forall j, q :: 0 <= j < |nodes| && 0 <= q < |nodes[j].inputs| && FirstReads(nodes[j], q, W.Whole(leaky.id)) ==>
              nodes[j].id in g.packetSinks + g.packetFilters
              || (nodes[j].shaped && q < |nodes[j].ports| && nodes[j].ports[q] == Some(Packets)))
  {
    var g' := AfterLeaky(g, files);
    NoneNeedsAhead(g, files, i);
    hide ReadyForLeaky, AfterLeaky;
    var leaky := g'.nodes[i];
    forall j, q | 0 <= j < |g'.nodes| && 0 <= q < |g'.nodes[j].inputs| && FirstReads(g'.nodes[j], q, W.Whole(leaky.id))
      ensures PortOf(g'.nodes[j], W.Whole(leaky.id)) == if q < |g'.nodes[j].ports| then g'.nodes[j].ports[q] else None
      ensures W.Whole(leaky.id) in g'.nodes[j].inputs
    {
      FirstIs(g'.nodes[j].inputs, W.Whole(leaky.id), q);
    }
    if LeaksPackets(g', leaky) {
      assert forall j :: 0 <= j < |g'.nodes| ==> NodeTakesPackets(g', g'.nodes[j], W.Whole(leaky.id));
    }
    hide PortOf;
  }

  predicate FirstReads(node: Node, q: nat, ref: Ref)
    requires q < |node.inputs|
  {
    node.inputs[q] == ref && forall p :: 0 <= p < q ==> node.inputs[p] != ref
  }

  lemma KeptNeedsNone(g: Graph, files: seq<File>, j: nat)
    requires ReadyForLeaky(g, files) && j < |g.nodes| && !NeedsAhead(g, files, g.nodes[j])
    ensures !NeedsAhead(AfterLeaky(g, files), files, g.nodes[j])
  {
    var node := g.nodes[j];
    hide ReadersTakePackets, Coded, AfterLeaky, ReadyForLeaky;
    if node.inputs != [] {
      CodedStillSo(g, files, node.inputs[0]);
    }
    if LeaksPackets(g, node) {
      KeptReaders(g, files, j);
    }
  }

  lemma {:induction false} NothingTurned(g: Graph, files: seq<File>, k: nat)
    requires k <= |g.nodes| && forall i :: 0 <= i < |g.nodes| ==> !NeedsAhead(g, files, g.nodes[i])
    ensures Out(g, files, k) == g.nodes[..k]
  {
    hide NeedsAhead;
    if k > 0 {
      NothingTurned(g, files, k - 1);
    }
  }

  /** A second run changes nothing. */
  lemma SecondRunIdle(g: Graph, files: seq<File>)
    requires ReadyForLeaky(g, files)
    ensures AfterLeaky(AfterLeaky(g, files), files) == AfterLeaky(g, files)
  {
    var g' := AfterLeaky(g, files);
    forall i | 0 <= i < |g'.nodes| ensures !NeedsAhead(g', files, g'.nodes[i]) {
      NoneNeedsAhead(g, files, i);
    }
    AllOut(g, files);
    TableKeeps(g'.nodes);
    hide Out, Table, NeedsAhead, ReadyForLeaky;
    NothingTurned(g', files, |g'.nodes|);
    assert g'.nodes[..|g'.nodes|] == g'.nodes;
  }
}
