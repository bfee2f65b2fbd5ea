/** What the decode pass leaves: every frame reader served, nothing else changed. */
module DecodingComplete {
  import opened Names
  import opened Wrappers
  import W = Wiring
  import opened Decoding

  /** Every ref is a source or names an earlier node. */
  predicate Ordered(nodes: seq<Node>)
  {
    forall k, q :: 0 <= k < |nodes| && 0 <= q < |nodes[k].inputs| ==> Resolves(nodes[..k], nodes[k].inputs[q])
  }

  predicate Resolves(nodes: seq<Node>, ref: Ref)
  {
    ref.Source? || IsNode(nodes, NodeRef(ref))
  }

  predicate ReadsOnce(node: Node)
  {
    forall p, q :: 0 <= p < q < |node.inputs| ==> node.inputs[p] != node.inputs[q]
  }

  /** The ids made for decodes are nobody's, and each is for one ref. */
  predicate Fresh(g: Graph, refs: set<Ref>)
  {
    && (forall r :: r in refs ==> Unused(g, DecodeId(r)))
    && (forall r, r' :: r in refs && r' in refs && DecodeId(r) == DecodeId(r') ==> r == r')
  }

  predicate Unused(g: Graph, id: string)
  {
    !IsNode(g.nodes, id) && id !in g.packetSinks && id !in g.packetFilters && id !in g.dataFilters && id !in g.decoders
  }

  predicate Ready(g: Graph, modules: set<string>)
  {
    && Distinct(g.nodes) && Ordered(g.nodes) && Fresh(g, Seen(g, modules, |g.nodes|))
    && (forall k :: 0 <= k < |g.nodes| ==> ReadsOnce(g.nodes[k]))
    && "null" !in modules && "anull" !in modules
  }

  // Which refs get a decode

  ghost predicate Needed(g: Graph, modules: set<string>, k: nat, r: Ref)
    requires k <= |g.nodes|
  {
    exists j, q :: 0 <= j < k && 0 <= q < |g.nodes[j].inputs| && NeedsDecode(g, modules, g.nodes[j], q) && g.nodes[j].inputs[q] == r
  }

  lemma {:induction false} SeenInMeans(g: Graph, modules: set<string>, node: Node, q: nat, seen: set<Ref>, r: Ref)
    requires q <= |node.inputs|
    ensures r in SeenIn(g, modules, node, q, seen) <==>
      r in seen || exists p :: 0 <= p < q && NeedsDecode(g, modules, node, p) && node.inputs[p] == r
  {
    hide NeedsDecode;
    if q > 0 {
      SeenInMeans(g, modules, node, q - 1, seen, r);
    }
  }

  lemma {:induction false} SeenMeans(g: Graph, modules: set<string>, k: nat, r: Ref)
    requires k <= |g.nodes|
    ensures r in Seen(g, modules, k) <==> Needed(g, modules, k, r)
  {
    hide NeedsDecode, SeenIn;
    if k > 0 {
      SeenMeans(g, modules, k - 1, r);
      SeenInMeans(g, modules, g.nodes[k - 1], |g.nodes[k - 1].inputs|, Seen(g, modules, k - 1), r);
    }
  }

  lemma {:induction false} SeenGrows(g: Graph, modules: set<string>, k: nat, q: nat, r: Ref)
    requires k < |g.nodes| && q <= |g.nodes[k].inputs|
    requires r in SeenIn(g, modules, g.nodes[k], q, Seen(g, modules, k))
    ensures r in Seen(g, modules, |g.nodes|)
  {
    hide NeedsDecode, SeenIn, Seen;
    SeenInMeans(g, modules, g.nodes[k], q, Seen(g, modules, k), r);
    SeenMeans(g, modules, k, r);
    SeenMeans(g, modules, |g.nodes|, r);
  }

  // What holds as the nodes are made

  /** `node` is one of the first `k` rewired, or a seen ref's decode. */
  ghost predicate IsMade(g: Graph, modules: set<string>, k: nat, seen: set<Ref>, node: Node)
    requires k <= |g.nodes|
  {
    || (exists j :: 0 <= j < k && node == Rewired(g, modules, g.nodes[j]))
    || (exists r :: r in seen && node == Decode(g, r))
  }

  ghost predicate Holds(g: Graph, modules: set<string>, nodes: seq<Node>, k: nat, seen: set<Ref>)
    requires k <= |g.nodes|
  {
    && Distinct(nodes) && Ordered(nodes)
    && (forall i :: 0 <= i < |nodes| ==> IsMade(g, modules, k, seen, nodes[i]))
    && (forall j :: 0 <= j < k ==> Rewired(g, modules, g.nodes[j]) in nodes)
    && (forall r :: r in seen ==> Decode(g, r) in nodes)
  }

  lemma {:induction false} OneMore(nodes: seq<Node>, node: Node)
    requires Distinct(nodes) && Ordered(nodes) && !IsNode(nodes, node.id)
    requires forall q :: 0 <= q < |node.inputs| ==> Resolves(nodes, node.inputs[q])
    ensures Distinct(nodes + [node]) && Ordered(nodes + [node])
  {
    hide Resolves;
    var more := nodes + [node];
    forall k, q | 0 <= k < |more| && 0 <= q < |more[k].inputs| ensures Resolves(more[..k], more[k].inputs[q]) {
      assert more[..k] == if k == |nodes| then nodes else nodes[..k];
    }
  }

  lemma MadeHas(g: Graph, modules: set<string>, nodes: seq<Node>, k: nat, seen: set<Ref>, id: string)
    requires k <= |g.nodes| && Holds(g, modules, nodes, k, seen)
    ensures IsNode(nodes, id) <==> IsNode(g.nodes[..k], id) || exists r :: r in seen && DecodeId(r) == id
  {
    if i :| 0 <= i < |nodes| && nodes[i].id == id {
      assert IsMade(g, modules, k, seen, nodes[i]);
      if j :| 0 <= j < k && nodes[i] == Rewired(g, modules, g.nodes[j]) {
        assert g.nodes[..k][j].id == id;
      }
    }
    if j :| 0 <= j < |g.nodes[..k]| && g.nodes[..k][j].id == id {
      assert Rewired(g, modules, g.nodes[j]) in nodes;
    }
    if r :| r in seen && DecodeId(r) == id {
      assert Decode(g, r) in nodes;
    }
  }

  /** The producer of a node's input is made before it. */
  lemma InputMade(g: Graph, modules: set<string>, nodes: seq<Node>, k: nat, seen: set<Ref>, q: nat)
    requires k < |g.nodes| && Ordered(g.nodes) && Holds(g, modules, nodes, k, seen) && q < |g.nodes[k].inputs|
    ensures Resolves(nodes, g.nodes[k].inputs[q])
  {
    var ref := g.nodes[k].inputs[q];
    assert Resolves(g.nodes[..k], ref);
    if !ref.Source? {
      MadeHas(g, modules, nodes, k, seen, NodeRef(ref));
    }
  }

  lemma HoldsDecode(g: Graph, modules: set<string>, nodes: seq<Node>, k: nat, seen: set<Ref>, q: nat)
    requires Ready(g, modules) && k < |g.nodes| && q < |g.nodes[k].inputs| && Holds(g, modules, nodes, k, seen)
    requires g.nodes[k].inputs[q] !in seen
    requires forall r :: r in seen || r == g.nodes[k].inputs[q] ==> r in Seen(g, modules, |g.nodes|)
    ensures var r := g.nodes[k].inputs[q];
      Holds(g, modules, nodes + [Decode(g, r)], k, seen + {r})
  {
    var r := g.nodes[k].inputs[q];
    var node := Decode(g, r);
    InputMade(g, modules, nodes, k, seen, q);
    MadeHas(g, modules, nodes, k, seen, node.id);
    NotEarlier(g, k, node.id);
    OneMore(nodes, node);
    hide Distinct, Ordered, Seen, Rewired, Decode;
    var more := nodes + [node];
    forall i | 0 <= i < |more| ensures IsMade(g, modules, k, seen + {r}, more[i]) {
      if i < |nodes| {
        assert IsMade(g, modules, k, seen, nodes[i]);
      }
    }
  }

  lemma NotEarlier(g: Graph, k: nat, id: string)
    requires k <= |g.nodes|
    ensures !IsNode(g.nodes, id) ==> !IsNode(g.nodes[..k], id)
  {
  }

  lemma HoldsNode(g: Graph, modules: set<string>, nodes: seq<Node>, k: nat, seen: set<Ref>)
    requires Ready(g, modules) && k < |g.nodes| && Holds(g, modules, nodes, k, seen)
    requires forall r :: r in seen ==> r in Seen(g, modules, |g.nodes|)
    requires forall q :: 0 <= q < |g.nodes[k].inputs| && NeedsDecode(g, modules, g.nodes[k], q) ==> g.nodes[k].inputs[q] in seen
    ensures Holds(g, modules, nodes + [Rewired(g, modules, g.nodes[k])], k + 1, seen)
  {
    var node, rewired := g.nodes[k], Rewired(g, modules, g.nodes[k]);
    forall q | 0 <= q < |rewired.inputs| ensures Resolves(nodes, rewired.inputs[q]) {
      if NeedsDecode(g, modules, node, q) {
        MadeHas(g, modules, nodes, k, seen, DecodeId(node.inputs[q]));
      } else {
        InputMade(g, modules, nodes, k, seen, q);
      }
    }
    MadeHas(g, modules, nodes, k, seen, node.id);
    assert IsNode(g.nodes, node.id);
    assert !IsNode(g.nodes[..k], node.id);
    OneMore(nodes, rewired);
    hide Distinct, Ordered, Seen, Rewired, Decode, NeedsDecode;
    var more := nodes + [rewired];
    forall i | 0 <= i < |more| ensures IsMade(g, modules, k + 1, seen, more[i]) {
      if i < |nodes| {
        assert IsMade(g, modules, k, seen, nodes[i]);
      }
    }
  }

  lemma {:induction false} HoldsWithin(g: Graph, modules: set<string>, k: nat, q: nat)
    requires Ready(g, modules) && k < |g.nodes| && q <= |g.nodes[k].inputs|
    requires Holds(g, modules, Made(g, modules, k), k, Seen(g, modules, k))
    ensures Holds(g, modules, Made(g, modules, k) + NewDecodes(g, modules, g.nodes[k], q, Seen(g, modules, k)), k,
                  SeenIn(g, modules, g.nodes[k], q, Seen(g, modules, k)))
    decreases q
  {
    hide NeedsDecode, Holds, Ready, Made, Seen, Decode;
    var node, nodes, seen := g.nodes[k], Made(g, modules, k), Seen(g, modules, k);
    if q == 0 {
      assert nodes + [] == nodes;
    } else {
      HoldsWithin(g, modules, k, q - 1);
      var r := node.inputs[q - 1];
      var seen' := SeenIn(g, modules, node, q - 1, seen);
      var nodes' := nodes + NewDecodes(g, modules, node, q - 1, seen);
      if NeedsDecode(g, modules, node, q - 1) && r !in seen' {
        forall s | s in seen' || s == r ensures s in Seen(g, modules, |g.nodes|) {
          SeenGrows(g, modules, k, q, s);
        }
        HoldsDecode(g, modules, nodes', k, seen', q - 1);
        assert nodes' + [Decode(g, r)] == nodes + NewDecodes(g, modules, node, q, seen);
      } else {
        assert NewDecodes(g, modules, node, q, seen) == NewDecodes(g, modules, node, q - 1, seen);
        assert SeenIn(g, modules, node, q, seen) == seen';
      }
    }
  }

  lemma {:induction false} MadeHolds(g: Graph, modules: set<string>, k: nat)
    requires Ready(g, modules) && k <= |g.nodes|
    ensures Holds(g, modules, Made(g, modules, k), k, Seen(g, modules, k))
  {
    if k > 0 {
      var node, q := g.nodes[k - 1], |g.nodes[k - 1].inputs|;
      MadeHolds(g, modules, k - 1);
      HoldsWithin(g, modules, k - 1, q);
      hide NeedsDecode, Holds, Ready, SeenIn, NewDecodes;
      var seen := SeenIn(g, modules, node, q, Seen(g, modules, k - 1));
      forall r | r in seen ensures r in Seen(g, modules, |g.nodes|) {
        SeenGrows(g, modules, k - 1, q, r);
      }
      forall p | 0 <= p < q && NeedsDecode(g, modules, node, p) ensures node.inputs[p] in seen {
        SeenInMeans(g, modules, node, q, Seen(g, modules, k - 1), node.inputs[p]);
      }
      HoldsNode(g, modules, Made(g, modules, k - 1) + NewDecodes(g, modules, node, q, Seen(g, modules, k - 1)), k - 1, seen);
    }
  }

  function After(g: Graph, modules: set<string>): Graph
  {
    g.(nodes := Table(Made(g, modules, |g.nodes|)))
  }

  lemma AllMade(g: Graph, modules: set<string>)
    requires Ready(g, modules)
    ensures After(g, modules).nodes == Made(g, modules, |g.nodes|)
    ensures Holds(g, modules, After(g, modules).nodes, |g.nodes|, Seen(g, modules, |g.nodes|))
  {
    MadeHolds(g, modules, |g.nodes|);
    TableKeeps(Made(g, modules, |g.nodes|));
  }

  // Where ids meet

  /** What is made is called as the first nodes are, or as a seen ref's decode. */
  ghost predicate CalledSo(g: Graph, nodes: seq<Node>, k: nat, seen: set<Ref>)
    requires k <= |g.nodes|
  {
    forall id :: IsNode(nodes, id) <==> IsNode(g.nodes[..k], id) || exists r :: r in seen && DecodeId(r) == id
  }

  /** No decode is called as a node, and no two as each other. */
  ghost predicate Apart(g: Graph, k: nat, seen: set<Ref>)
    requires k <= |g.nodes|
  {
    && (forall r :: r in seen ==> !IsNode(g.nodes[..k], DecodeId(r)))
    && (forall r, r' :: r in seen && r' in seen && DecodeId(r) == DecodeId(r') ==> r == r')
  }

  ghost predicate Fitting(g: Graph, nodes: seq<Node>, k: nat, seen: set<Ref>)
    requires k <= |g.nodes|
  {
    CalledSo(g, nodes, k, seen) && (Distinct(nodes) <==> Apart(g, k, seen))
  }

  lemma CalledOn(nodes: seq<Node>, node: Node)
    ensures forall id :: IsNode(nodes + [node], id) <==> IsNode(nodes, id) || node.id == id
    ensures Distinct(nodes + [node]) <==> Distinct(nodes) && !IsNode(nodes, node.id)
  {
    var more := nodes + [node];
    forall id ensures IsNode(more, id) <==> IsNode(nodes, id) || node.id == id {
      if i :| 0 <= i < |nodes| && nodes[i].id == id {
        assert more[i].id == id;
      }
      assert more[|nodes|] == node;
    }
    if Distinct(more) {
      forall i | 0 <= i < |nodes| ensures nodes[i].id != node.id {
        assert more[i].id != more[|nodes|].id;
      }
      forall i, j | 0 <= i < j < |nodes| ensures nodes[i].id != nodes[j].id {
        assert more[i].id != more[j].id;
      }
    }
  }

  lemma ApartDecode(g: Graph, nodes: seq<Node>, k: nat, seen: set<Ref>, r: Ref)
    requires k <= |g.nodes| && Fitting(g, nodes, k, seen) && r !in seen
    ensures Fitting(g, nodes + [Decode(g, r)], k, seen + {r})
  {
    CalledOn(nodes, Decode(g, r));
    hide IsNode, Distinct, DecodeId;
    var more := seen + {r};
    if Apart(g, k, more) {
      forall s | s in seen ensures DecodeId(s) != DecodeId(r) {
        assert s in more && r in more;
      }
      assert Apart(g, k, seen);
    }
  }

  lemma ApartOne(g: Graph, k: nat, seen: set<Ref>)
    requires k < |g.nodes| && Distinct(g.nodes)
    ensures Apart(g, k + 1, seen) <==> Apart(g, k, seen) && forall r :: r in seen ==> DecodeId(r) != g.nodes[k].id
    ensures forall id :: IsNode(g.nodes[..k + 1], id) <==> IsNode(g.nodes[..k], id) || g.nodes[k].id == id
    ensures !IsNode(g.nodes[..k], g.nodes[k].id)
  {
    CalledOn(g.nodes[..k], g.nodes[k]);
    assert g.nodes[..k] + [g.nodes[k]] == g.nodes[..k + 1];
    assert !IsNode(g.nodes[..k], g.nodes[k].id);
    hide IsNode, Distinct, DecodeId;
  }

  lemma ApartNode(g: Graph, modules: set<string>, nodes: seq<Node>, k: nat, seen: set<Ref>)
    requires k < |g.nodes| && Distinct(g.nodes) && Fitting(g, nodes, k, seen)
    ensures Fitting(g, nodes + [Rewired(g, modules, g.nodes[k])], k + 1, seen)
  {
    CalledOn(nodes, Rewired(g, modules, g.nodes[k]));
    ApartOne(g, k, seen);
    RewiredCalled(g, modules, k);
    hide IsNode, Distinct, DecodeId, Apart, Rewired;
  }

  lemma RewiredCalled(g: Graph, modules: set<string>, k: nat)
    requires k < |g.nodes|
    ensures Rewired(g, modules, g.nodes[k]).id == g.nodes[k].id
  {
  }

  lemma {:induction false} ApartWithin(g: Graph, modules: set<string>, k: nat, q: nat)
    requires Distinct(g.nodes) && k < |g.nodes| && q <= |g.nodes[k].inputs|
    requires Fitting(g, Made(g, modules, k), k, Seen(g, modules, k))
    ensures Fitting(g, Made(g, modules, k) + NewDecodes(g, modules, g.nodes[k], q, Seen(g, modules, k)), k,
                    SeenIn(g, modules, g.nodes[k], q, Seen(g, modules, k)))
    decreases q
  {
    hide *;
    if q == 0 {
      NoInput(g, modules, k);
    } else {
      ApartWithin(g, modules, k, q - 1);
      ApartInput(g, modules, k, q - 1, Made(g, modules, k), Seen(g, modules, k));
    }
  }

  lemma ApartInput(g: Graph, modules: set<string>, k: nat, q: nat, made: seq<Node>, seen: set<Ref>)
    requires k < |g.nodes| && q < |g.nodes[k].inputs|
    requires Fitting(g, made + NewDecodes(g, modules, g.nodes[k], q, seen), k, SeenIn(g, modules, g.nodes[k], q, seen))
    ensures Fitting(g, made + NewDecodes(g, modules, g.nodes[k], q + 1, seen), k, SeenIn(g, modules, g.nodes[k], q + 1, seen))
  {
    hide *;
    var node, r := g.nodes[k], g.nodes[k].inputs[q];
    var added, seen' := NewDecodes(g, modules, node, q, seen), SeenIn(g, modules, node, q, seen);
    DecodesOn(g, modules, node, q, seen);
    Grouped(made, added, [Decode(g, r)]);
    if NeedsDecode(g, modules, node, q) && r !in seen' {
      ApartDecode(g, made + added, k, seen', r);
    } else {
      assert SeenIn(g, modules, node, q + 1, seen) == seen';
    }
  }

  lemma {:induction false} ApartMade(g: Graph, modules: set<string>, k: nat)
    requires Distinct(g.nodes) && k <= |g.nodes|
    ensures Fitting(g, Made(g, modules, k), k, Seen(g, modules, k))
  {
    hide *;
    if k == 0 {
      ApartNone(g, modules);
    } else {
      var node, seen := g.nodes[k - 1], Seen(g, modules, k - 1);
      ApartMade(g, modules, k - 1);
      ApartWithin(g, modules, k - 1, |node.inputs|);
      OneNode(g, modules, k - 1);
      MadeOn(g, modules, k - 1);
      ApartNode(g, modules, Made(g, modules, k - 1) + NewDecodes(g, modules, node, |node.inputs|, seen), k - 1,
                SeenIn(g, modules, node, |node.inputs|, seen));
    }
  }

  lemma ApartNone(g: Graph, modules: set<string>)
    ensures Fitting(g, Made(g, modules, 0), 0, Seen(g, modules, 0))
  {
    assert Made(g, modules, 0) == [] && g.nodes[..0] == [];
  }

  lemma MadeOn(g: Graph, modules: set<string>, k: nat)
    requires k < |g.nodes|
    ensures var node, seen := g.nodes[k], Seen(g, modules, k);
      Made(g, modules, k + 1)
      == Made(g, modules, k) + NewDecodes(g, modules, node, |node.inputs|, seen) + [Rewired(g, modules, node)]
  {
    hide NewDecodes, Rewired, Seen;
  }

  /** Every node and every decode the pass makes is kept, none over another,
      exactly when no ref that needs a decode has its id for a node's or for
      another such ref's. */
  lemma NoneLost(g: Graph, modules: set<string>)
    requires Distinct(g.nodes)
    ensures After(g, modules).nodes == Made(g, modules, |g.nodes|) <==>
      && (forall r :: Needed(g, modules, |g.nodes|, r) ==> !IsNode(g.nodes, DecodeId(r)))
      && (forall r, r' :: Needed(g, modules, |g.nodes|, r) && Needed(g, modules, |g.nodes|, r') && DecodeId(r) == DecodeId(r')
            ==> r == r')
  {
    var n := |g.nodes|;
    ApartMade(g, modules, n);
    TableKeeps(Made(g, modules, n));
    forall r ensures r in Seen(g, modules, n) <==> Needed(g, modules, n, r) {
      SeenMeans(g, modules, n, r);
    }
    assert g.nodes[..n] == g.nodes;
    hide Made, Table, Seen, Needed, DecodeId, IsNode, Distinct, CalledSo;
  }

  /** And ids can meet: pad 1 of `a`, and the whole of a node called `a_1`. */
  lemma IdsMeet(n: string, p: nat)
    ensures DecodeId(W.Pad(n, p)) == DecodeId(W.Whole(n + "_" + Decimal(p)))
    ensures DecodeId(W.Pad("a", 1)) == DecodeId(W.Whole("a_1"))
  {
    assert Decimal(1) == "1";
  }

  // What the pass leaves

  /** Every node left is one of the graph's, reading a decode where it needs
      one and otherwise what it did, or the decode of a ref some node needs
      decoded: ids stay distinct, so there is one decode a ref, and none more. */
  lemma NodesLeft(g: Graph, modules: set<string>)
    requires Ready(g, modules)
    ensures var nodes := After(g, modules).nodes;
      && Distinct(nodes) && Ordered(nodes)
      && (forall j :: 0 <= j < |g.nodes| ==> Rewired(g, modules, g.nodes[j]) in nodes)
      && (forall i :: 0 <= i < |nodes| ==> IsMade(g, modules, |g.nodes|, Seen(g, modules, |g.nodes|), nodes[i]))
  {
    AllMade(g, modules);
  }

  /** A ref some node needs decoded has its decode, and a node the graph did
      not have is such a ref's. */
  lemma OneDecodeEach(g: Graph, modules: set<string>, r: Ref, i: nat)
    requires Ready(g, modules) && i < |After(g, modules).nodes|
    ensures Needed(g, modules, |g.nodes|, r) ==> Decode(g, r) in After(g, modules).nodes && !IsNode(g.nodes, DecodeId(r))
    ensures !IsNode(g.nodes, After(g, modules).nodes[i].id) ==>
      exists s :: Needed(g, modules, |g.nodes|, s) && After(g, modules).nodes[i] == Decode(g, s)
  {
    AllMade(g, modules);
    var nodes, seen := After(g, modules).nodes, Seen(g, modules, |g.nodes|);
    forall s ensures s in seen <==> Needed(g, modules, |g.nodes|, s) {
      SeenMeans(g, modules, |g.nodes|, s);
    }
    hide NeedsDecode, Made, Seen, Needed, Distinct, Ordered;
    assert IsMade(g, modules, |g.nodes|, seen, nodes[i]);
  }

  // Nothing is left to decode

  /** A pad is coded after exactly when it was before. */
  lemma CodedStays(g: Graph, modules: set<string>, ref: Ref)
    requires Ready(g, modules)
    ensures Coded(After(g, modules), ref) <==> Coded(g, ref)
  {
    if !ref.Source? {
      WritesStays(g, modules, NodeRef(ref), W.Slot(ref).pad);
    }
    hide WritesPackets, Ready, Made;
  }

  lemma WritesStays(g: Graph, modules: set<string>, id: string, pad: nat)
    requires Ready(g, modules)
    ensures WritesPackets(After(g, modules).nodes, id, pad) <==> WritesPackets(g.nodes, id, pad)
  {
    AllMade(g, modules);
    var nodes, seen := After(g, modules).nodes, Seen(g, modules, |g.nodes|);
    hide NeedsDecode, Made, Seen, Distinct, Ordered, Ready;
    if k :| 0 <= k < |nodes| && nodes[k].id == id && nodes[k].shaped && pad in nodes[k].packetPads {
      assert IsMade(g, modules, |g.nodes|, seen, nodes[k]);
    }
    if k :| 0 <= k < |g.nodes| && g.nodes[k].id == id && g.nodes[k].shaped && pad in g.nodes[k].packetPads {
      assert Rewired(g, modules, g.nodes[k]) in nodes;
      var i :| 0 <= i < |nodes| && nodes[i] == Rewired(g, modules, g.nodes[k]);
    }
  }

  /** A decode's own output is no coded stream. */
  lemma DecodeNotCoded(g: Graph, r: Ref)
    requires Unused(g, DecodeId(r))
    ensures !Coded(g, W.Whole(DecodeId(r)))
  {
  }

  /** An input left as it was is read at the port it was. */
  lemma PortStays(g: Graph, modules: set<string>, k: nat, q: nat)
    requires Ready(g, modules) && k < |g.nodes| && q < |g.nodes[k].inputs| && !NeedsDecode(g, modules, g.nodes[k], q)
    ensures var node, ref := g.nodes[k], g.nodes[k].inputs[q];
      PortOf(Rewired(g, modules, node), ref) == PortOf(node, ref)
  {
    var node, ref := g.nodes[k], g.nodes[k].inputs[q];
    var rewired := Rewired(g, modules, node);
    forall p | 0 <= p < q ensures rewired.inputs[p] != ref && node.inputs[p] != ref {
      assert ReadsOnce(node);
      if NeedsDecode(g, modules, node, p) {
        SeenMeans(g, modules, |g.nodes|, node.inputs[p]);
        assert Unused(g, DecodeId(node.inputs[p]));
        assert Resolves(g.nodes[..k], ref);
      }
    }
    FirstIs(rewired.inputs, ref, q);
    FirstIs(node.inputs, ref, q);
    hide NeedsDecode, Ready;
  }

  lemma FirstIs(refs: seq<Ref>, ref: Ref, q: nat)
    requires q < |refs| && refs[q] == ref && forall p :: 0 <= p < q ==> refs[p] != ref
    ensures FirstAt(refs, ref) == q
  {
  }

  /** No frame reader is left reading a coded stream. */
  lemma NoneNeedsDecode(g: Graph, modules: set<string>, i: nat, q: nat)
    requires Ready(g, modules) && i < |After(g, modules).nodes| && q < |After(g, modules).nodes[i].inputs|
    ensures !NeedsDecode(After(g, modules), modules, After(g, modules).nodes[i], q)
  {
    AllMade(g, modules);
    var g' := After(g, modules);
    var seen := Seen(g, modules, |g.nodes|);
    assert IsMade(g, modules, |g.nodes|, seen, g'.nodes[i]);
    if j :| 0 <= j < |g.nodes| && g'.nodes[i] == Rewired(g, modules, g.nodes[j]) {
      RewiredNeedsNone(g, modules, j, q);
    } else {
      var r :| r in seen && g'.nodes[i] == Decode(g, r);
      DecodeNeedsNone(g, modules, r);
    }
  }

  /** Said of the nodes themselves: what a frames port of a shaped node, or any
      input of a hosted module, reads of a picture or a sound is made by no node
      that writes it as packets and by no packet filter. */
  lemma FramesFed(g: Graph, modules: set<string>, i: nat, q: nat, k: nat)
    requires Ready(g, modules)
    requires i < |After(g, modules).nodes| && q < |After(g, modules).nodes[i].inputs| && k < |After(g, modules).nodes|
    ensures var reader, maker, ref :=
        After(g, modules).nodes[i], After(g, modules).nodes[k], After(g, modules).nodes[i].inputs[q];
      && (g.kinds(ref) == W.Video || g.kinds(ref) == W.Audio)
      && !ref.Source? && W.Slot(ref).node == maker.id
      && reader.filter != "leaky" && reader.id !in g.dataFilters + g.decoders + g.packetSinks + g.packetFilters
      && (if reader.shaped then
            q < |reader.ports| && reader.ports[q] == Some(Frames) && forall p :: 0 <= p < q ==> reader.inputs[p] != ref
          else reader.filter in modules)
      ==> maker.id !in g.packetFilters && !(maker.shaped && W.Slot(ref).pad in maker.packetPads)
  {
    NoneNeedsDecode(g, modules, i, q);
    var g' := After(g, modules);
    var reader, maker, ref := g'.nodes[i], g'.nodes[k], g'.nodes[i].inputs[q];
    if reader.shaped && forall p :: 0 <= p < q ==> reader.inputs[p] != ref {
      FirstIs(reader.inputs, ref, q);
    }
    hide Ready, Made, Table;
  }

  predicate Decodes(g: Graph, node: Node, r: Ref)
  {
    && node.id == DecodeId(r) && node.inputs == [r]
    && ((g.kinds(r) == W.Video && node.filter == "null") || (g.kinds(r) == W.Audio && node.filter == "anull"))
  }

  /** And the decode put in is the kind's own: `null` of a picture, `anull` of a
      sound. */
  lemma DecodeOfKind(g: Graph, modules: set<string>, r: Ref)
    requires Ready(g, modules) && Needed(g, modules, |g.nodes|, r)
    ensures exists i :: 0 <= i < |After(g, modules).nodes| && Decodes(g, After(g, modules).nodes[i], r)
  {
    AllMade(g, modules);
    SeenMeans(g, modules, |g.nodes|, r);
    var nodes := After(g, modules).nodes;
    assert Decode(g, r) in nodes;
    var i :| 0 <= i < |nodes| && nodes[i] == Decode(g, r);
    hide Made, Table, Ready, Seen;
    var j, p :| 0 <= j < |g.nodes| && 0 <= p < |g.nodes[j].inputs| && NeedsDecode(g, modules, g.nodes[j], p) && g.nodes[j].inputs[p] == r;
    assert Decodes(g, nodes[i], r);
  }

  lemma DecodeNeedsNone(g: Graph, modules: set<string>, r: Ref)
    requires Ready(g, modules) && r in Seen(g, modules, |g.nodes|)
    ensures !NeedsDecode(After(g, modules), modules, Decode(g, r), 0)
  {
    assert Unused(g, DecodeId(r));
    hide Made, Seen, Coded;
  }

  lemma RewiredNeedsNone(g: Graph, modules: set<string>, j: nat, q: nat)
    requires Ready(g, modules) && j < |g.nodes| && q < |g.nodes[j].inputs|
    ensures !NeedsDecode(After(g, modules), modules, Rewired(g, modules, g.nodes[j]), q)
  {
    var node := g.nodes[j];
    var ref := node.inputs[q];
    if NeedsDecode(g, modules, node, q) {
      SeenMeans(g, modules, |g.nodes|, ref);
      DecodeNotCoded(g, ref);
      CodedStays(g, modules, W.Whole(DecodeId(ref)));
    } else {
      PortStays(g, modules, j, q);
      CodedStays(g, modules, ref);
    }
    hide Ready, Coded, PortOf, Made, Seen;
  }

  /** A node that needs no decode is left as it was. */
  lemma OthersUnchanged(g: Graph, modules: set<string>, j: nat)
    requires Ready(g, modules) && j < |g.nodes|
    requires forall q :: 0 <= q < |g.nodes[j].inputs| ==> !NeedsDecode(g, modules, g.nodes[j], q)
    ensures g.nodes[j] in After(g, modules).nodes
  {
    NodesLeft(g, modules);
    hide Ready, Made, NeedsDecode;
    assert Rewired(g, modules, g.nodes[j]).inputs == g.nodes[j].inputs;
  }

  lemma {:induction false} NothingToMake(g: Graph, modules: set<string>, k: nat)
    requires k <= |g.nodes|
    requires forall i, q :: 0 <= i < |g.nodes| && 0 <= q < |g.nodes[i].inputs| ==> !NeedsDecode(g, modules, g.nodes[i], q)
    ensures Made(g, modules, k) == g.nodes[..k]
  {
    hide NeedsDecode;
    if k > 0 {
      NothingToMake(g, modules, k - 1);
      var node := g.nodes[k - 1];
      assert Rewired(g, modules, node).inputs == node.inputs;
      NoNewDecodes(g, modules, node, |node.inputs|, Seen(g, modules, k - 1));
      assert g.nodes[..k - 1] + [] + [node] == g.nodes[..k];
    }
  }

  lemma {:induction false} NoNewDecodes(g: Graph, modules: set<string>, node: Node, q: nat, seen: set<Ref>)
    requires q <= |node.inputs| && forall p :: 0 <= p < |node.inputs| ==> !NeedsDecode(g, modules, node, p)
    ensures NewDecodes(g, modules, node, q, seen) == []
  {
    hide NeedsDecode;
    if q > 0 {
      NoNewDecodes(g, modules, node, q - 1, seen);
    }
  }

  /** A second run changes nothing. */
  lemma SecondRunIdle(g: Graph, modules: set<string>)
    requires Ready(g, modules)
    ensures After(After(g, modules), modules) == After(g, modules)
  {
    var g' := After(g, modules);
    forall i, q | 0 <= i < |g'.nodes| && 0 <= q < |g'.nodes[i].inputs|
      ensures !NeedsDecode(g', modules, g'.nodes[i], q)
    {
      NoneNeedsDecode(g, modules, i, q);
    }
    AllMade(g, modules);
    TableKeeps(g'.nodes);
    hide Made, NeedsDecode, Ready, Table;
    NothingToMake(g', modules, |g'.nodes|);
    hide *;
    assert g'.nodes[..|g'.nodes|] == g'.nodes;
    assert Made(g', modules, |g'.nodes|) == g'.nodes;
    AfterIs(g', modules);
  }

  lemma AfterIs(g: Graph, modules: set<string>)
    ensures After(g, modules) == g.(nodes := Table(Made(g, modules, |g.nodes|)))
  {
  }
}
