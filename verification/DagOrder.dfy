/** The topological iterators of `zkml/src/graph/graph.rs` (`dag_order`). */
module DagOrder {
  import opened Wrappers
  import opened Collections
  import opened PortGraph

  // ---------------------------------------------------------------- paths and cycles

  ghost predicate HasEdge<N>(g: Graph<N>, a: NodeId, b: NodeId) {
    exists e :: e in g.edges && Connects(g.edges[e], a, b)
  }

  ghost predicate Path<N>(g: Graph<N>, p: seq<NodeId>) {
    |p| >= 1 && forall i :: 0 <= i < |p| - 1 ==> HasEdge(g, p[i], p[i + 1])
  }

  ghost predicate OnCycle<N>(g: Graph<N>, m: NodeId) {
    exists p :: Path(g, p) && |p| >= 2 && p[0] == m && p[|p| - 1] == m
  }

  /** `n` lies on a cycle or is reachable from one. */
  ghost predicate DownstreamOfCycle<N>(g: Graph<N>, n: NodeId) {
    exists p :: Path(g, p) && p[|p| - 1] == n && OnCycle(g, p[0])
  }

  /** Edges go up in rank. */
  ghost predicate Ranked<N>(g: Graph<N>, rank: map<NodeId, nat>) {
    && rank.Keys == g.nodes.Keys
    && forall e :: e in g.edges ==>
         g.edges[e].source in rank && g.edges[e].target in rank && rank[g.edges[e].source] < rank[g.edges[e].target]
  }

  ghost predicate IsDag<N>(g: Graph<N>) {
    exists rank :: Ranked(g, rank)
  }

  // ---------------------------------------------------------------- the greedy scan

  function Rest<N>(g: Graph<N>, emitted: seq<NodeId>): set<NodeId> {
    set n | n in g.nodes && n !in emitted
  }

  /** No edge holds `n` back: forward, all its predecessors are visited; backward, all its successors. */
  predicate Free<N>(g: Graph<N>, forward: bool, unvisited: set<NodeId>, n: NodeId) {
    forall e | e in g.edges ::
      if forward then g.edges[e].target == n ==> g.edges[e].source !in unvisited
      else g.edges[e].source == n ==> g.edges[e].target !in unvisited
  }

  predicate Preferred(forward: bool, a: NodeId, b: NodeId) {
    if forward then a <= b else b <= a
  }

  ghost predicate IsNext<N>(g: Graph<N>, forward: bool, unvisited: set<NodeId>, n: NodeId) {
    && n in unvisited && Free(g, forward, unvisited, n)
    && forall m :: m in unvisited && Free(g, forward, unvisited, m) ==> Preferred(forward, n, m)
  }

  ghost predicate Stuck<N>(g: Graph<N>, forward: bool, unvisited: set<NodeId>) {
    forall m :: m in unvisited ==> !Free(g, forward, unvisited, m)
  }

  /** The order `dag_order` produces: always the preferred free node, until none is free. */
  ghost predicate IsDagOrder<N>(g: Graph<N>, forward: bool, order: seq<NodeId>) {
    && (forall i :: 0 <= i < |order| ==> IsNext(g, forward, Rest(g, order[..i]), order[i]))
    && Stuck(g, forward, Rest(g, order))
  }

  ghost predicate IsExtreme(forward: bool, s: set<NodeId>, m: NodeId) {
    m in s && forall x :: x in s ==> Preferred(forward, m, x)
  }

  lemma {:induction false} ExtremeExists(forward: bool, s: set<NodeId>)
    requires s != {}
    ensures exists m :: IsExtreme(forward, s, m)
    decreases |s|
  {
    var x :| x in s;
    if s == {x} {
      assert IsExtreme(forward, s, x);
    } else {
      ExtremeExists(forward, s - {x});
      var m :| IsExtreme(forward, s - {x}, m);
      assert forall y :: y in s ==> y == x || y in s - {x};
      assert IsExtreme(forward, s, if Preferred(forward, m, x) then m else x);
    }
  }

  /** The first element of the ordered set, or the last. */
  function Extreme(forward: bool, s: set<NodeId>): (m: NodeId)
    requires s != {}
    ensures IsExtreme(forward, s, m)
  {
    ExtremeExists(forward, s);
    var m :| m in s && forall x | x in s :: Preferred(forward, m, x);
    m
  }

  /** The `find_map` over the ordered set. */
  method FindNext<N>(g: Graph<N>, forward: bool, unvisited: set<NodeId>) returns (r: Option<NodeId>)
    ensures r.None? ==> Stuck(g, forward, unvisited)
    ensures r.Some? ==> IsNext(g, forward, unvisited, r.value)
  {
    var rest := unvisited;
    while rest != {}
      invariant rest <= unvisited
      invariant forall m :: m in unvisited - rest ==> !Free(g, forward, unvisited, m)
      decreases |rest|
    {
      var m := Extreme(forward, rest);
      if Free(g, forward, unvisited, m) {
        return Some(m);
      }
      rest := rest - {m};
    }
    return None;
  }

  /** `dag_order`: repeatedly remove the next free node. No other order meets the specification. */
  method Scan<N>(g: Graph<N>, forward: bool) returns (order: seq<NodeId>)
    ensures IsDagOrder(g, forward, order)
    ensures forall other :: IsDagOrder(g, forward, other) ==> other == order
  {
    order := [];
    var unvisited := g.nodes.Keys;
    assert unvisited == Rest(g, order);
    while true
      invariant unvisited == Rest(g, order)
      invariant forall i :: 0 <= i < |order| ==> IsNext(g, forward, Rest(g, order[..i]), order[i])
      decreases |unvisited|
    {
      var next := FindNext(g, forward, unvisited);
      match next {
        case None =>
          OnlyOrder(g, forward, order);
          return;
        case Some(n) =>
          unvisited := unvisited - {n};
          ghost var was := order;
          order := order + [n];
          assert Rest(g, order) == Rest(g, was) - {n};
          assert forall i :: 0 <= i <= |was| ==> order[..i] == was[..i];
      }
    }
  }

  // ---------------------------------------------------------------- what the order is worth

  /** Every edge into an emitted node comes from an earlier one (forward); reversed for backward. */
  ghost predicate Topological<N>(g: Graph<N>, forward: bool, order: seq<NodeId>) {
    forall e, i :: e in g.edges && 0 <= i < |order| ==>
      if forward then g.edges[e].target == order[i] ==> g.edges[e].source in order[..i]
      else g.edges[e].source == order[i] ==> g.edges[e].target in order[..i]
  }

  lemma OrderIsTopological<N>(g: Graph<N>, forward: bool, order: seq<NodeId>)
    requires EndpointsExist(g) && IsDagOrder(g, forward, order)
    ensures NoRepeats(order) && Topological(g, forward, order)
    ensures forall i :: 0 <= i < |order| ==> order[i] in g.nodes
  {
    forall i | 0 <= i < |order|
      ensures order[i] in g.nodes && order[i] !in order[..i] && Free(g, forward, Rest(g, order[..i]), order[i])
    {
      assert IsNext(g, forward, Rest(g, order[..i]), order[i]);
    }
    forall i, j | 0 <= i < j < |order|
      ensures order[i] != order[j]
    {
      assert order[i] == order[..j][i];
    }
  }

  /** From a common prefix, the greedy order goes on exactly when the other does, and with no worse node. */
  lemma LexStep<N>(g: Graph<N>, forward: bool, order: seq<NodeId>, other: seq<NodeId>, k: nat)
    requires EndpointsExist(g) && IsDagOrder(g, forward, order)
    requires NoRepeats(other) && Topological(g, forward, other) && forall n :: n in other <==> n in g.nodes
    requires k <= |order| && k <= |other| && order[..k] == other[..k]
    ensures k < |other| ==> k < |order| && if forward then order[k] <= other[k] else order[k] >= other[k]
    ensures k < |order| ==> k < |other|
  {
    OrderIsTopological(g, forward, order);
    assert order[..|order|] == order && other[..|other|] == other;
    if k < |other| {
      assert other[k] !in other[..k];
      assert Free(g, forward, Rest(g, order[..k]), other[k]);
      assert other[k] in Rest(g, order[..k]);
    }
    assert k < |order| ==> order[k] in other && order[k] !in order[..k];
  }

  ghost predicate BetterAt(forward: bool, order: seq<NodeId>, other: seq<NodeId>, k: nat) {
    && k < |order| && k < |other| && order[..k] == other[..k]
    && if forward then order[k] < other[k] else order[k] > other[k]
  }

  lemma {:induction false} LexFrom<N>(g: Graph<N>, forward: bool, order: seq<NodeId>, other: seq<NodeId>, k: nat)
    requires EndpointsExist(g) && IsDagOrder(g, forward, order)
    requires NoRepeats(other) && Topological(g, forward, other) && forall n :: n in other <==> n in g.nodes
    requires k <= |order| && k <= |other| && order[..k] == other[..k]
    ensures order == other || exists i :: BetterAt(forward, order, other, i)
    decreases |order| - k
  {
    LexStep(g, forward, order, other, k);
    if k == |order| {
      assert order == order[..k] && other == other[..k];
    } else if order[k] == other[k] {
      assert order[..k + 1] == other[..k + 1];
      LexFrom(g, forward, order, other, k + 1);
    } else {
      assert BetterAt(forward, order, other, k);
    }
  }

  /** Of all topological orders of the graph, the forward iterator produces the lexicographically least; the backward one, of
      all reverse orders, the greatest. */
  lemma LexicographicallyLeast<N>(g: Graph<N>, forward: bool, order: seq<NodeId>, other: seq<NodeId>)
    requires EndpointsExist(g) && IsDagOrder(g, forward, order)
    requires NoRepeats(other) && Topological(g, forward, other) && forall n :: n in other <==> n in g.nodes
    ensures order == other || exists k :: BetterAt(forward, order, other, k)
  {
    LexFrom(g, forward, order, other, 0);
  }

  lemma {:induction false} SamePrefix<N>(g: Graph<N>, forward: bool, a: seq<NodeId>, b: seq<NodeId>, k: nat)
    requires IsDagOrder(g, forward, a) && IsDagOrder(g, forward, b) && k <= |a|
    ensures k <= |b| && a[..k] == b[..k]
  {
    if k > 0 {
      SamePrefix(g, forward, a, b, k - 1);
      assert b[..|b|] == b;
      assert IsNext(g, forward, Rest(g, a[..k - 1]), a[k - 1]);
      assert a[..k] == a[..k - 1] + [a[k - 1]];
    }
  }

  /** Two runs of the iterator agree. */
  lemma OrderUnique<N>(g: Graph<N>, forward: bool, a: seq<NodeId>, b: seq<NodeId>)
    requires IsDagOrder(g, forward, a) && IsDagOrder(g, forward, b)
    ensures a == b
  {
    SamePrefix(g, forward, a, b, |a|);
    SamePrefix(g, forward, b, a, |b|);
  }

  lemma OnlyOrder<N>(g: Graph<N>, forward: bool, order: seq<NodeId>)
    requires IsDagOrder(g, forward, order)
    ensures forall other :: IsDagOrder(g, forward, other) ==> other == order
  {
    forall other | IsDagOrder(g, forward, other)
      ensures other == order
    {
      OrderUnique(g, forward, other, order);
    }
  }

  // ---------------------------------------------------------------- cyclic graphs

  lemma {:induction false} Pigeonhole(p: seq<NodeId>, s: set<NodeId>) returns (i: nat, j: nat)
    requires forall k :: 0 <= k < |p| ==> p[k] in s
    requires |p| > |s|
    ensures i < j < |p| && p[i] == p[j]
    decreases |p|
  {
    var last := |p| - 1;
    if k :| 0 <= k < last && p[k] == p[last] {
      i, j := k, last;
    } else {
      i, j := Pigeonhole(p[..last], s - {p[last]});
    }
  }

  /** Every unemitted node has an unemitted predecessor, so one can walk backwards for ever. */
  lemma {:induction false} BackWalk<N>(g: Graph<N>, order: seq<NodeId>, n: NodeId, k: nat) returns (p: seq<NodeId>)
    requires EndpointsExist(g) && IsDagOrder(g, true, order) && n in Rest(g, order)
    ensures Path(g, p) && |p| == k + 1 && p[k] == n
    ensures forall i :: 0 <= i < |p| ==> p[i] in Rest(g, order)
    decreases k
  {
    if k == 0 {
      p := [n];
    } else {
      hide IsDagOrder, Rest, Free, EndpointsExist, Path;
      var e := UnemittedPredecessor(g, order, n);
      var q := BackWalk(g, order, g.edges[e].source, k - 1);
      p := q + [n];
      assert Connects(g.edges[e], g.edges[e].source, n);
      PathSnoc(g, q, n);
    }
  }

  lemma UnemittedPredecessor<N>(g: Graph<N>, order: seq<NodeId>, n: NodeId) returns (e: EdgeId)
    requires IsDagOrder(g, true, order) && n in Rest(g, order)
    ensures e in g.edges && g.edges[e].target == n && g.edges[e].source in Rest(g, order)
  {
    assert !Free(g, true, Rest(g, order), n);
    hide Rest;
    e :| e in g.edges && g.edges[e].target == n && g.edges[e].source in Rest(g, order);
  }

  lemma PathSnoc<N>(g: Graph<N>, q: seq<NodeId>, n: NodeId)
    requires Path(g, q) && HasEdge(g, q[|q| - 1], n)
    ensures Path(g, q + [n])
  {
    hide HasEdge;
  }

  lemma SubPath<N>(g: Graph<N>, p: seq<NodeId>, i: nat, j: nat)
    requires Path(g, p) && i < j <= |p|
    ensures Path(g, p[i..j])
  {
    hide HasEdge;
    var q := p[i..j];
    forall k | 0 <= k < |q| - 1
      ensures HasEdge(g, q[k], q[k + 1])
    {
      assert HasEdge(g, p[i + k], p[i + k + 1]);
    }
  }

  lemma Unemitted<N>(g: Graph<N>, order: seq<NodeId>, n: NodeId)
    requires EndpointsExist(g) && IsDagOrder(g, true, order) && n in Rest(g, order)
    ensures DownstreamOfCycle(g, n)
  {
    hide Path, IsDagOrder, Rest, EndpointsExist;
    var p := BackWalk(g, order, n, |Rest(g, order)|);
    var i, j := Pigeonhole(p, Rest(g, order));
    var cycle, tail := p[i..j + 1], p[i..|p|];
    SubPath(g, p, i, j + 1);
    SubPath(g, p, i, |p|);
    assert cycle[0] == p[i] && cycle[|cycle| - 1] == p[j];
    assert OnCycle(g, p[i]);
    assert tail[0] == p[i] && tail[|tail| - 1] == n;
  }

  /** Along a path that ends in an emitted node, positions strictly increase. */
  lemma {:induction false} PathClimbs<N>(g: Graph<N>, order: seq<NodeId>, p: seq<NodeId>, at: nat) returns (start: nat)
    requires EndpointsExist(g) && IsDagOrder(g, true, order)
    requires Path(g, p) && at < |order| && order[at] == p[|p| - 1]
    ensures start <= at && order[start] == p[0] && (|p| >= 2 ==> start < at)
    decreases |p|
  {
    if |p| == 1 {
      start := at;
    } else {
      OrderIsTopological(g, true, order);
      var q := p[..|p| - 1];
      assert HasEdge(g, p[|p| - 2], p[|p| - 1]);
      assert p[|p| - 2] in order[..at];
      var k :| 0 <= k < at && order[k] == q[|q| - 1];
      SubPath(g, p, 0, |p| - 1);
      assert p[0..|p| - 1] == q;
      start := PathClimbs(g, order, q, k);
    }
  }

  /** On any graph the forward iterator emits exactly the nodes that no cycle leads to. */
  lemma EmittedExactly<N>(g: Graph<N>, order: seq<NodeId>, n: NodeId)
    requires EndpointsExist(g) && IsDagOrder(g, true, order) && n in g.nodes
    ensures n in order <==> !DownstreamOfCycle(g, n)
  {
    if n !in order {
      Unemitted(g, order, n);
    } else if DownstreamOfCycle(g, n) {
      OrderIsTopological(g, true, order);
      var p :| Path(g, p) && p[|p| - 1] == n && OnCycle(g, p[0]);
      var at :| 0 <= at < |order| && order[at] == n;
      var start := PathClimbs(g, order, p, at);
      var c :| Path(g, c) && |c| >= 2 && c[0] == p[0] && c[|c| - 1] == p[0];
      var again := PathClimbs(g, order, c, start);
      assert false;
    }
  }

  // ---------------------------------------------------------------- directed acyclic graphs

  function Position(order: seq<NodeId>, n: NodeId): (i: nat)
    requires n in order
    ensures i < |order| && order[i] == n
  {
    if order[0] == n then 0 else 1 + Position(order[1..], n)
  }

  /** Either iterator covers the graph exactly when the graph is acyclic. */
  lemma CoversIffDag<N>(g: Graph<N>, forward: bool, order: seq<NodeId>)
    requires EndpointsExist(g) && IsDagOrder(g, forward, order)
    ensures IsDag(g) <==> Rest(g, order) == {}
  {
    OrderIsTopological(g, forward, order);
    if Rest(g, order) == {} {
      forall n | n in g.nodes
        ensures n in order
      {
        assert n !in Rest(g, order);
      }
      var rank := map n | n in g.nodes :: if forward then Position(order, n) else |order| - Position(order, n);
      forall e | e in g.edges
        ensures g.edges[e].source in rank && g.edges[e].target in rank && rank[g.edges[e].source] < rank[g.edges[e].target]
      {
        var a, b := g.edges[e].source, g.edges[e].target;
        assert a in g.nodes && b in g.nodes;
        assert a !in Rest(g, order) && b !in Rest(g, order);
        var i := if forward then Position(order, b) else Position(order, a);
        var o := if forward then a else b;
        assert o in order[..i];
        var k :| 0 <= k < i && order[k] == o;
        assert Position(order, o) == k;
      }
      assert Ranked(g, rank);
    } else if IsDag(g) {
      var rank :| Ranked(g, rank);
      var m := ExtremeRank(rank, forward, Rest(g, order));
      assert Free(g, forward, Rest(g, order), m);
    }
  }

  lemma {:induction false} ExtremeRank(rank: map<NodeId, nat>, forward: bool, s: set<NodeId>) returns (m: NodeId)
    requires s != {} && s <= rank.Keys
    ensures m in s && forall x :: x in s ==> if forward then rank[m] <= rank[x] else rank[x] <= rank[m]
    decreases |s|
  {
    var x :| x in s;
    if s == {x} {
      m := x;
    } else {
      m := ExtremeRank(rank, forward, s - {x});
      if (forward && rank[x] < rank[m]) || (!forward && rank[m] < rank[x]) {
        m := x;
      }
      assert forall y :: y in s ==> y == x || y in s - {x};
    }
  }
}
