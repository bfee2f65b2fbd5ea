/**
How a stage's processes are joined and spawned: which pipe edges run over
stdio, and an order that spawns each such producer before its consumer.
*/
module Spawning {

  /** `number` tells apart edges between the same two processes. */
  datatype Edge = Edge(source: string, target: string, number: nat)

  predicate Alone(edges: seq<Edge>, i: nat)
    requires i < |edges|
  {
    forall j :: 0 <= j < |edges| && j != i ==> edges[j].source != edges[i].source && edges[j].target != edges[i].target
  }

  function Count(edges: seq<Edge>, end: Edge -> string, name: string): nat
  {
    if edges == [] then 0
    else Count(edges[..|edges| - 1], end, name) + (if end(edges[|edges| - 1]) == name then 1 else 0)
  }

  const Source := (e: Edge) => e.source
  const Target := (e: Edge) => e.target

  lemma {:induction false} CountHas(edges: seq<Edge>, end: Edge -> string, i: nat)
    requires i < |edges|
    ensures Count(edges, end, end(edges[i])) >= 1
    ensures Count(edges, end, end(edges[i])) == 1 <==>
      forall j :: 0 <= j < |edges| && j != i ==> end(edges[j]) != end(edges[i])
  {
    var last := |edges| - 1;
    if i < last {
      CountHas(edges[..last], end, i);
      assert edges[..last][i] == edges[i];
      if j :| 0 <= j < last && j != i && end(edges[..last][j]) == end(edges[i]) {
        assert end(edges[j]) == end(edges[i]);
      }
    } else {
      CountNone(edges[..last], end, end(edges[i]));
    }
  }

  lemma {:induction false} CountNone(edges: seq<Edge>, end: Edge -> string, name: string)
    ensures Count(edges, end, name) == 0 <==> forall j :: 0 <= j < |edges| ==> end(edges[j]) != name
  {
    if edges != [] {
      var last := |edges| - 1;
      CountNone(edges[..last], end, name);
      if j :| 0 <= j < last && end(edges[..last][j]) == name {
        assert end(edges[j]) == name;
      }
    }
  }

  /** The edges stdio carries: each the only one on its side of each process,
      its producer's stdout not taken, and nothing said against it. */
  method Wires(edges: seq<Edge>, taken: set<string>, watched: set<Edge>, apart: Edge -> bool) returns (chained: seq<bool>)
    ensures |chained| == |edges|
    ensures forall i :: 0 <= i < |edges| ==>
      (chained[i] <==> Alone(edges, i) && edges[i].source !in taken && edges[i] !in watched && !apart(edges[i]))
  {
    var incoming: map<string, nat>, outgoing: map<string, nat> := map[], map[];
    for i := 0 to |edges|
      invariant forall name ::
        Count(edges[..i], Target, name) == (if name in incoming then incoming[name] else 0) &&
        Count(edges[..i], Source, name) == (if name in outgoing then outgoing[name] else 0)
    {
      var e := edges[i];
      assert edges[..i + 1][..i] == edges[..i] && edges[..i + 1][i] == e;
      incoming := incoming[e.target := (if e.target in incoming then incoming[e.target] else 0) + 1];
      outgoing := outgoing[e.source := (if e.source in outgoing then outgoing[e.source] else 0) + 1];
    }
    assert edges[..|edges|] == edges;
    chained := [];
    for i := 0 to |edges|
      invariant |chained| == i
      invariant forall k :: 0 <= k < i ==>
        (chained[k] <==> Alone(edges, k) && edges[k].source !in taken && edges[k] !in watched && !apart(edges[k]))
    {
      var e := edges[i];
      CountHas(edges, Source, i);
      CountHas(edges, Target, i);
      assert Source(e) == e.source && Target(e) == e.target;
      var alone := incoming[e.target] <= 1 && outgoing[e.source] <= 1;
      AloneIs(edges, i);
      chained := chained + [alone && e.source !in taken && e !in watched && !apart(e)];
    }
  }

  lemma AloneIs(edges: seq<Edge>, i: nat)
    requires i < |edges|
    ensures Alone(edges, i) <==>
      Count(edges, Source, edges[i].source) <= 1 && Count(edges, Target, edges[i].target) <= 1
  {
    CountHas(edges, Source, i);
    CountHas(edges, Target, i);
    assert forall j :: 0 <= j < |edges| ==> Source(edges[j]) == edges[j].source && Target(edges[j]) == edges[j].target;
  }

  // Spawning

  /** A chained wire from one process of the stage to another, each by its
      place in the stage's list. */
  type Wire = (nat, nat)

  predicate Within(wires: seq<Wire>, n: nat)
  {
    forall w :: w in wires ==> w.0 < n && w.1 < n
  }

  function Placed(order: seq<nat>): set<nat>
  {
    set p | p in order
  }

  /** Every producer of `p` is placed, and `p` is not. */
  predicate Ready(wires: seq<Wire>, placed: set<nat>, p: nat)
  {
    p !in placed && forall w :: w in wires && w.1 == p ==> w.0 in placed
  }

  /** Each place goes to the least process ready by then. */
  predicate Greedy(wires: seq<Wire>, n: nat, order: seq<nat>)
  {
    forall k :: 0 <= k < |order| ==> Least(wires, n, Placed(order[..k]), order[k])
  }

  predicate Least(wires: seq<Wire>, n: nat, placed: set<nat>, p: nat)
  {
    p < n && Ready(wires, placed, p) && forall q: nat :: q < n && Ready(wires, placed, q) ==> p <= q
  }

  predicate Once(order: seq<nat>)
  {
    forall i, j :: 0 <= i < j < |order| ==> order[i] != order[j]
  }

  predicate Permutes(order: seq<nat>, n: nat)
  {
    |order| == n && Once(order) && forall p :: p in order ==> p < n
  }

  predicate ProducersFirst(wires: seq<Wire>, order: seq<nat>)
  {
    forall w, k :: w in wires && 0 <= k < |order| && order[k] == w.1 ==> w.0 in order[..k]
  }

  // The counts the loop keeps

  /** The wires into `p` whose producers are not placed. */
  function Waiting(wires: seq<Wire>, placed: set<nat>, p: nat): nat
  {
    if wires == [] then 0
    else
      var last := wires[|wires| - 1];
      Waiting(wires[..|wires| - 1], placed, p) + (if last.1 == p && last.0 !in placed then 1 else 0)
  }

  function Followers(wires: seq<Wire>, p: nat): (followers: seq<nat>)
    ensures forall f :: f in followers ==> (p, f) in wires
  {
    if wires == [] then []
    else
      var last := wires[|wires| - 1];
      Followers(wires[..|wires| - 1], p) + (if last.0 == p then [last.1] else [])
  }

  function Times(s: seq<nat>, p: nat): nat
  {
    if s == [] then 0 else (if s[0] == p then 1 else 0) + Times(s[1..], p)
  }

  lemma {:induction false} TimesMore(s: seq<nat>, x: nat, p: nat)
    ensures Times(s + [x], p) == Times(s, p) + (if x == p then 1 else 0)
  {
    if s != [] {
      TimesMore(s[1..], x, p);
      assert (s + [x])[1..] == s[1..] + [x];
    }
  }

  lemma {:induction false} NoneWaiting(wires: seq<Wire>, placed: set<nat>, p: nat)
    ensures Waiting(wires, placed, p) == 0 <==> forall w :: w in wires && w.1 == p ==> w.0 in placed
  {
    if wires != [] {
      var last := |wires| - 1;
      NoneWaiting(wires[..last], placed, p);
      assert wires == wires[..last] + [wires[last]];
    }
  }

  /** Placing a process takes one off the count of each wire it writes. */
  lemma {:induction false} PlacingOne(wires: seq<Wire>, placed: set<nat>, x: nat, p: nat)
    requires x !in placed
    ensures Waiting(wires, placed, p) == Waiting(wires, placed + {x}, p) + Times(Followers(wires, x), p)
  {
    if wires != [] {
      var last := |wires| - 1;
      PlacingOne(wires[..last], placed, x, p);
      TimesMore(Followers(wires[..last], x), wires[last].1, p);
      assert Followers(wires[..last], x) + [] == Followers(wires[..last], x);
    }
  }

  /** What the loop holds between two processes. */
  predicate Holds(wires: seq<Wire>, n: nat, order: seq<nat>, ready: set<nat>, pending: seq<nat>)
  {
    && Greedy(wires, n, order) && Once(order) && |pending| == n
    && (forall p: nat :: p < n ==> pending[p] == Waiting(wires, Placed(order), p))
    && (forall p :: p in ready ==> p < n && Ready(wires, Placed(order), p))
    && (forall p: nat :: p < n && Ready(wires, Placed(order), p) ==> p in ready)
  }

  /** Within a process's followers: `rest` are still to be counted down. */
  predicate HoldsWithin(wires: seq<Wire>, n: nat, placed: set<nat>, rest: seq<nat>, ready: set<nat>, pending: seq<nat>)
  {
    && |pending| == n
    && (forall p: nat :: p < n ==> pending[p] == Waiting(wires, placed, p) + Times(rest, p))
    && (forall p :: p in ready ==> p < n && p !in placed && pending[p] == 0)
    && (forall p: nat :: p < n && p !in placed && pending[p] == 0 ==> p in ready)
  }

  method Smallest(ready: set<nat>) returns (least: nat)
    requires ready != {}
    ensures least in ready && forall p :: p in ready ==> least <= p
  {
    least :| least in ready;
    var rest := ready - {least};
    while rest != {}
      invariant least in ready && forall p :: p in ready ==> p in rest || least <= p
      decreases rest
    {
      var p :| p in rest;
      if p < least {
        least := p;
      }
      rest := rest - {p};
    }
  }

  /** Each follower waits on one wire fewer, and is ready at none. */
  method CountDown(wires: seq<Wire>, n: nat, followers: seq<nat>, pending: seq<nat>, ready: set<nat>, ghost placed: set<nat>)
    returns (pending': seq<nat>, ready': set<nat>)
    requires forall f :: f in followers ==> f < n && f !in placed
    requires HoldsWithin(wires, n, placed, followers, ready, pending)
    ensures HoldsWithin(wires, n, placed, [], ready', pending')
  {
    pending', ready' := pending, ready;
    assert followers[0..] == followers;
    for j := 0 to |followers|
      invariant HoldsWithin(wires, n, placed, followers[j..], ready', pending')
    {
      var f := followers[j];
      assert f in followers;
      CountedOne(wires, n, placed, followers[j..], ready', pending');
      assert followers[j..][1..] == followers[j + 1..];
      pending' := pending'[f := pending'[f] - 1];
      if pending'[f] == 0 {
        ready' := ready' + {f};
      }
    }
    assert followers[|followers|..] == [];
  }

  lemma CountedOne(wires: seq<Wire>, n: nat, placed: set<nat>, rest: seq<nat>, ready: set<nat>, pending: seq<nat>)
    requires rest != [] && rest[0] < n && rest[0] !in placed && HoldsWithin(wires, n, placed, rest, ready, pending)
    ensures pending[rest[0]] > 0
    ensures var f := rest[0];
      var pending' := pending[f := pending[f] - 1];
      HoldsWithin(wires, n, placed, rest[1..], if pending'[f] == 0 then ready + {f} else ready, pending')
  {
    hide Waiting;
  }

  lemma NoWires(wires: seq<Wire>)
    ensures forall p: nat :: Waiting(wires[..0], {}, p) == 0 && Followers(wires[..0], p) == []
  {
  }

  lemma OneMoreWire(wires: seq<Wire>, n: nat, i: nat)
    requires Within(wires, n) && i < |wires|
    ensures wires[i].0 < n && wires[i].1 < n
    ensures forall p: nat :: Waiting(wires[..i + 1], {}, p) == Waiting(wires[..i], {}, p) + if wires[i].1 == p then 1 else 0
    ensures forall p: nat ::
      Followers(wires[..i + 1], p) == Followers(wires[..i], p) + if wires[i].0 == p then [wires[i].1] else []
  {
    assert wires[i] in wires && wires[..i + 1][..i] == wires[..i] && wires[..i + 1][i] == wires[i];
  }

  /** How many wires each process waits on, and who follows each. */
  method CountWires(n: nat, wires: seq<Wire>) returns (pending: seq<nat>, after: map<nat, seq<nat>>)
    requires Within(wires, n)
    ensures |pending| == n && forall p: nat :: p < n ==> pending[p] == Waiting(wires, {}, p)
    ensures forall p: nat :: Followers(wires, p) == if p in after then after[p] else []
  {
    pending := seq(n, i => 0);
    after := map[];
    NoWires(wires);
    hide *;
    for i := 0 to |wires|
      invariant |pending| == n && forall p: nat :: p < n ==> pending[p] == Waiting(wires[..i], {}, p)
      invariant forall p: nat :: Followers(wires[..i], p) == if p in after then after[p] else []
    {
      var w := wires[i];
      OneMoreWire(wires, n, i);
      pending := pending[w.1 := pending[w.1] + 1];
      after := after[w.0 := (if w.0 in after then after[w.0] else []) + [w.1]];
    }
    assert wires[..|wires|] == wires;
  }

  /** The order the stage is spawned in. `placed` of it are in producer order,
      and the rest, in a ring of wires, follow as they stand. */
  method SpawnOrder(n: nat, wires: seq<Wire>) returns (order: seq<nat>, ghost placed: nat)
    requires Within(wires, n)
    ensures Permutes(order, n) && placed <= n && Greedy(wires, n, order[..placed])
    ensures forall p: nat :: p < n ==> !Ready(wires, Placed(order[..placed]), p)
    ensures forall i, j :: placed <= i < j < n ==> order[i] < order[j]
  {
    hide Waiting, Followers, Ready, Least;
    var pending, after := CountWires(n, wires);
    var ready := set p: nat | p < n && pending[p] == 0;
    order := [];
    AtFirst(wires, n, ready, pending);
    hide *;
    while ready != {}
      invariant Holds(wires, n, order, ready, pending)
      invariant |order| <= n
      decreases n - |order|
    {
      var name := Smallest(ready);
      var followers := if name in after then after[name] else [];
      Placing(wires, n, order, ready, pending, name);
      ghost var was := order;
      order := order + [name];
      pending, ready := CountDown(wires, n, followers, pending, ready - {name}, Placed(order));
      AfterPlacing(wires, n, was, name, ready, pending);
    }
    placed := |order|;
    var first := order;
    NothingReady(wires, n, order, ready, pending);
    for p := 0 to n
      invariant |order| >= placed && order[..placed] == first
      invariant Tail(order, placed, p)
    {
      TailOn(order, placed, p);
      if p !in first {
        order := order + [p];
      }
    }
    TailAll(order, placed, n);
  }

  /** Past `placed`, the processes below `top` that are not before it. */
  predicate Tail(order: seq<nat>, placed: nat, top: nat)
    requires placed <= |order|
  {
    && Once(order[..placed])
    && (forall i, j :: placed <= i < j < |order| ==> order[i] < order[j])
    && (forall i :: placed <= i < |order| ==> order[i] < top && order[i] !in order[..placed])
    && (forall p: nat :: p < top ==> p in order)
  }

  lemma TailOn(order: seq<nat>, placed: nat, p: nat)
    requires placed <= |order| && Tail(order, placed, p)
    ensures p in order[..placed] ==> Tail(order, placed, p + 1)
    ensures (order + [p])[..placed] == order[..placed]
    ensures p !in order[..placed] ==> Tail(order + [p], placed, p + 1)
  {
    assert (order + [p])[..placed] == order[..placed];
  }

  lemma {:induction false} OnceCount(order: seq<nat>, n: nat)
    requires Once(order) && forall p :: p in order ==> p < n
    ensures |order| <= n
    ensures |order| == n || exists p: nat :: p < n && p !in order
  {
    SetCount(order);
    SubsetCount(Placed(order), Below(n));
    if |order| < n {
      assert Placed(order) != Below(n);
      var p :| p in Below(n) && p !in Placed(order);
    }
  }

  lemma {:induction false} SetCount(order: seq<nat>)
    requires Once(order)
    ensures |Placed(order)| == |order|
  {
    if order != [] {
      var last := |order| - 1;
      SetCount(order[..last]);
      assert order == order[..last] + [order[last]];
      assert Placed(order) == Placed(order[..last]) + {order[last]};
      assert order[last] !in Placed(order[..last]);
    }
  }

  function Below(n: nat): (below: set<nat>)
    ensures |below| == n && forall p: nat :: p in below <==> p < n
  {
    if n == 0 then {} else Below(n - 1) + {n - 1}
  }

  lemma {:induction false} SubsetCount(a: set<nat>, b: set<nat>)
    requires a <= b
    ensures |a| <= |b|
  {
    if a != {} {
      var x :| x in a;
      SubsetCount(a - {x}, b - {x});
    }
  }

  lemma TailAll(order: seq<nat>, placed: nat, n: nat)
    requires placed <= |order| && Tail(order, placed, n) && forall p :: p in order[..placed] ==> p < n
    ensures Permutes(order, n) && |order| == n
    ensures forall i, j :: placed <= i < j < n ==> order[i] < order[j]
  {
    forall i, j | 0 <= i < j < |order| ensures order[i] != order[j] {
      if j < placed {
        assert order[..placed][i] == order[i] && order[..placed][j] == order[j];
      } else if i < placed {
        assert order[..placed][i] == order[i];
      }
    }
    forall i | 0 <= i < |order| ensures order[i] < n {
      if i < placed {
        assert order[..placed][i] == order[i] && order[i] in order[..placed];
      }
    }
    OnceCount(order, n);
  }

  lemma AtFirst(wires: seq<Wire>, n: nat, ready: set<nat>, pending: seq<nat>)
    requires |pending| == n && forall p: nat :: p < n ==> pending[p] == Waiting(wires, {}, p)
    requires forall p: nat :: p in ready <==> p < n && pending[p] == 0
    ensures Holds(wires, n, [], ready, pending)
  {
    assert Placed([]) == {};
    forall p: nat | p < n ensures p in ready <==> Ready(wires, Placed([]), p) {
      NoneWaiting(wires, {}, p);
    }
  }

  /** A process is placed after its producers. */
  lemma GreedyOrdered(wires: seq<Wire>, n: nat, order: seq<nat>, w: Wire, k: nat)
    requires Greedy(wires, n, order) && w in wires && k < |order| && order[k] == w.1
    ensures w.0 in order[..k]
  {
    assert Least(wires, n, Placed(order[..k]), order[k]);
  }

  lemma FollowerLater(wires: seq<Wire>, n: nat, order: seq<nat>, name: nat, f: nat)
    requires Within(wires, n) && Greedy(wires, n, order) && Ready(wires, Placed(order), name) && (name, f) in wires
    ensures f < n && f !in order && f != name
  {
    forall k | 0 <= k < |order| ensures order[k] != f {
      assert Least(wires, n, Placed(order[..k]), order[k]);
      assert forall i :: 0 <= i < k ==> order[..k][i] in order;
    }
  }

  lemma Placing(wires: seq<Wire>, n: nat, order: seq<nat>, ready: set<nat>, pending: seq<nat>, name: nat)
    requires Within(wires, n) && Holds(wires, n, order, ready, pending) && name in ready
    requires forall p :: p in ready ==> name <= p
    ensures Greedy(wires, n, order) && Once(order) && Least(wires, n, Placed(order), name) && |order| < n
    ensures forall f :: f in Followers(wires, name) ==> f < n && f !in Placed(order + [name])
    ensures HoldsWithin(wires, n, Placed(order + [name]), Followers(wires, name), ready - {name}, pending)
  {
    var placed := Placed(order);
    assert Placed(order + [name]) == placed + {name};
    forall f | f in Followers(wires, name) ensures f < n && f !in placed + {name} {
      FollowerLater(wires, n, order, name, f);
    }
    hide Greedy, Waiting, Followers;
    forall p: nat | p < n
      ensures pending[p] == Waiting(wires, placed + {name}, p) + Times(Followers(wires, name), p)
      ensures p in ready - {name} <==> p !in placed + {name} && pending[p] == 0
    {
      PlacingOne(wires, placed, name, p);
      NoneWaiting(wires, placed, p);
    }
    PlacedBelow(wires, n, order);
    OnceCount(order, n);
    if |order| == n {
      OnceCount(order + [name], n);
    }
  }

  lemma PlacedBelow(wires: seq<Wire>, n: nat, order: seq<nat>)
    requires Greedy(wires, n, order)
    ensures forall p :: p in order ==> p < n
  {
    forall k | 0 <= k < |order| ensures order[k] < n {
      assert Least(wires, n, Placed(order[..k]), order[k]);
    }
  }

  lemma AfterPlacing(wires: seq<Wire>, n: nat, was: seq<nat>, name: nat, ready: set<nat>, pending: seq<nat>)
    requires Greedy(wires, n, was) && Once(was) && Least(wires, n, Placed(was), name)
    requires HoldsWithin(wires, n, Placed(was + [name]), [], ready, pending)
    ensures Holds(wires, n, was + [name], ready, pending)
  {
    var order := was + [name];
    assert name !in was by { assert name !in Placed(was); }
    forall k | 0 <= k < |order| ensures Least(wires, n, Placed(order[..k]), order[k]) {
      assert order[..k] == if k == |was| then was else was[..k];
    }
    forall p: nat | p < n ensures p in ready <==> Ready(wires, Placed(order), p) {
      NoneWaiting(wires, Placed(order), p);
    }
    hide Waiting, Least, Ready;
  }

  lemma NothingReady(wires: seq<Wire>, n: nat, order: seq<nat>, ready: set<nat>, pending: seq<nat>)
    requires Holds(wires, n, order, ready, pending) && ready == {}
    ensures Greedy(wires, n, order) && (forall p :: p in order ==> p < n)
    ensures forall p: nat :: p < n ==> !Ready(wires, Placed(order), p)
    ensures order[..|order|] == order && Tail(order, |order|, 0)
  {
    PlacedBelow(wires, n, order);
    assert order[..|order|] == order;
  }

  // What the order promises

  ghost predicate Acyclic(wires: seq<Wire>)
  {
    exists rank: nat -> nat :: Climbs(wires, rank)
  }

  ghost predicate Climbs(wires: seq<Wire>, rank: nat -> nat)
  {
    forall w :: w in wires ==> rank(w.0) < rank(w.1)
  }

  /** What is stuck has a producer that is stuck, all the way up. */
  lemma {:induction false} StuckAbove(wires: seq<Wire>, n: nat, placed: set<nat>, rank: nat -> nat, p: nat)
    requires Within(wires, n) && Climbs(wires, rank) && p < n && p !in placed
    requires forall q: nat :: q < n ==> !Ready(wires, placed, q)
    ensures false
    decreases rank(p)
  {
    assert !Ready(wires, placed, p);
    var w :| w in wires && w.1 == p && w.0 !in placed;
    StuckAbove(wires, n, placed, rank, w.0);
  }

  /** The whole order is in producer order exactly when no wires make a ring. */
  lemma AllPlaced(n: nat, wires: seq<Wire>, order: seq<nat>, placed: nat)
    requires Within(wires, n) && Permutes(order, n) && placed <= n && Greedy(wires, n, order[..placed])
    requires forall p: nat :: p < n ==> !Ready(wires, Placed(order[..placed]), p)
    ensures placed == n <==> Acyclic(wires)
  {
    if Acyclic(wires) && placed < n {
      var rank: nat -> nat :| Climbs(wires, rank);
      assert forall i :: 0 <= i < placed ==> order[..placed][i] != order[placed];
      assert order[placed] in order && order[placed] !in Placed(order[..placed]);
      StuckAbove(wires, n, Placed(order[..placed]), rank, order[placed]);
    }
    if placed == n {
      assert order[..n] == order;
      GreedyAcyclic(n, wires, order);
    }
  }

  function Where(order: seq<nat>, p: nat): (k: nat)
    ensures k <= |order| && (k < |order| ==> order[k] == p) && (p in order ==> k < |order|)
  {
    if order == [] || order[0] == p then 0 else 1 + Where(order[1..], p)
  }

  lemma HasAll(order: seq<nat>, n: nat, p: nat)
    requires Permutes(order, n) && p < n
    ensures p in order
  {
    SetCount(order);
    if p !in order {
      SubsetCount(Placed(order) + {p}, Below(n));
    }
  }

  lemma GreedyAcyclic(n: nat, wires: seq<Wire>, order: seq<nat>)
    requires Within(wires, n) && Permutes(order, n) && Greedy(wires, n, order)
    ensures Acyclic(wires)
  {
    var rank := (p: nat) => Where(order, p);
    forall w | w in wires ensures rank(w.0) < rank(w.1) {
      HasAll(order, n, w.0);
      HasAll(order, n, w.1);
      var k := Where(order, w.1);
      GreedyOrdered(wires, n, order, w, k);
      var i :| 0 <= i < k && order[..k][i] == w.0;
      assert order[Where(order, w.0)] == order[i];
    }
    assert Climbs(wires, rank);
  }

  /** Without a ring every producer is spawned before its consumer, and the
      order is the least such by stage position: any other that does so is
      larger where they first differ. */
  lemma LeastOrder(n: nat, wires: seq<Wire>, order: seq<nat>, placed: nat, other: seq<nat>) returns (k: nat)
    requires Within(wires, n) && Permutes(order, n) && placed <= n && Greedy(wires, n, order[..placed])
    requires forall p: nat :: p < n ==> !Ready(wires, Placed(order[..placed]), p)
    requires Acyclic(wires) && Permutes(other, n) && ProducersFirst(wires, other)
    ensures ProducersFirst(wires, order)
    ensures k <= n && other[..k] == order[..k] && (k < n ==> order[k] < other[k])
  {
    AllPlaced(n, wires, order, placed);
    assert order[..n] == order;
    forall w, i | w in wires && 0 <= i < |order| && order[i] == w.1 ensures w.0 in order[..i] {
      GreedyOrdered(wires, n, order, w, i);
    }
    k := 0;
    while k < n && order[k] == other[k]
      invariant k <= n && other[..k] == order[..k]
    {
      k := k + 1;
    }
    if k < n {
      NextIsReady(wires, n, other, k);
      assert Least(wires, n, Placed(order[..k]), order[k]);
    }
  }

  lemma NextIsReady(wires: seq<Wire>, n: nat, other: seq<nat>, k: nat)
    requires Permutes(other, n) && ProducersFirst(wires, other) && k < n
    ensures Ready(wires, Placed(other[..k]), other[k])
  {
    assert forall i :: 0 <= i < k ==> other[..k][i] != other[k];
  }
}
