/** The search of `ExecGraph::partition_by` (`zkml/src/graph/partition.rs`) for the connected
    components of the subgraph that keeps only edges between nodes of one color. */
module Components {
  import opened Collections
  import opened PortGraph
  import opened DagOrder
  import opened Denotation

  // ---------------------------------------------------------------- same-color connection

  predicate LinksTo(g: ExecGraph, e: EdgeId, a: NodeId, b: NodeId) {
    && e in g.edges && a in g.nodes && b in g.nodes && g.nodes[a].color == g.nodes[b].color
    && ((g.edges[e].source == a && g.edges[e].target == b) || (g.edges[e].source == b && g.edges[e].target == a))
  }

  /** An edge, in either direction, joins two nodes of one color. */
  predicate Linked(g: ExecGraph, a: NodeId, b: NodeId) {
    exists e | e in g.edges :: LinksTo(g, e, a, b)
  }

  ghost predicate Walk(g: ExecGraph, w: seq<NodeId>) {
    |w| >= 1 && w[0] in g.nodes && forall i :: 0 <= i < |w| - 1 ==> Linked(g, w[i], w[i + 1])
  }

  ghost predicate WalkBetween(g: ExecGraph, w: seq<NodeId>, a: NodeId, b: NodeId) {
    Walk(g, w) && w[0] == a && w[|w| - 1] == b
  }

  /** a and b are connected in the same-color subgraph. */
  ghost predicate Joined(g: ExecGraph, a: NodeId, b: NodeId) {
    exists w :: WalkBetween(g, w, a, b)
  }

  lemma LinkedSymmetric(g: ExecGraph, a: NodeId, b: NodeId)
    requires Linked(g, a, b)
    ensures Linked(g, b, a) && a in g.nodes && b in g.nodes
  {
    var e :| e in g.edges && LinksTo(g, e, a, b);
    assert LinksTo(g, e, b, a);
  }

  lemma JoinedReflexive(g: ExecGraph, a: NodeId)
    requires a in g.nodes
    ensures Joined(g, a, a)
  {
    assert WalkBetween(g, [a], a, a);
  }

  lemma JoinedStep(g: ExecGraph, a: NodeId, b: NodeId, c: NodeId)
    requires Joined(g, a, b) && Linked(g, b, c)
    ensures Joined(g, a, c)
  {
    hide Linked;
    var w :| WalkBetween(g, w, a, b);
    assert WalkBetween(g, w + [c], a, c);
  }

  lemma JoinedTransitive(g: ExecGraph, a: NodeId, b: NodeId, c: NodeId)
    requires Joined(g, a, b) && Joined(g, b, c)
    ensures Joined(g, a, c)
  {
    hide Linked;
    var u :| WalkBetween(g, u, a, b);
    var v :| WalkBetween(g, v, b, c);
    var w := u + v[1..];
    forall i | 0 <= i < |w| - 1
      ensures Linked(g, w[i], w[i + 1])
    {
      if i < |u| - 1 {
        assert Linked(g, u[i], u[i + 1]);
      } else {
        assert Linked(g, v[i - |u| + 1], v[i - |u| + 2]);
      }
    }
    assert WalkBetween(g, w, a, c);
  }

  lemma JoinedSymmetric(g: ExecGraph, a: NodeId, b: NodeId)
    requires Joined(g, a, b)
    ensures Joined(g, b, a)
  {
    var w :| WalkBetween(g, w, a, b);
    WalkBack(g, w);
  }

  lemma {:induction false} WalkBack(g: ExecGraph, w: seq<NodeId>)
    requires Walk(g, w)
    ensures w[|w| - 1] in g.nodes && Joined(g, w[|w| - 1], w[0])
    decreases |w|
  {
    hide Linked, Joined;
    if |w| == 1 {
      JoinedReflexive(g, w[0]);
    } else {
      var init, last, before := w[..|w| - 1], w[|w| - 1], w[|w| - 2];
      WalkBack(g, init);
      assert Linked(g, before, last);
      LinkedSymmetric(g, before, last);
      JoinedReflexive(g, last);
      JoinedStep(g, last, last, before);
      JoinedTransitive(g, last, before, w[0]);
    }
  }

  ghost predicate Closed(g: ExecGraph, s: set<NodeId>) {
    forall a, b :: a in s && Linked(g, a, b) ==> b in s
  }

  lemma {:induction false} WalkStays(g: ExecGraph, s: set<NodeId>, w: seq<NodeId>)
    requires Closed(g, s) && Walk(g, w) && w[0] in s
    ensures w[|w| - 1] in s
    decreases |w|
  {
    hide Linked;
    if |w| > 1 {
      WalkStays(g, s, w[..|w| - 1]);
      assert Linked(g, w[|w| - 2], w[|w| - 1]);
    }
  }

  lemma JoinedStays(g: ExecGraph, s: set<NodeId>, a: NodeId, b: NodeId)
    requires Closed(g, s) && a in s && Joined(g, a, b)
    ensures b in s
  {
    hide Linked;
    var w :| WalkBetween(g, w, a, b);
    WalkStays(g, s, w);
  }

  lemma {:induction false} WalkColor(g: ExecGraph, w: seq<NodeId>)
    requires Walk(g, w)
    ensures w[|w| - 1] in g.nodes && g.nodes[w[0]].color == g.nodes[w[|w| - 1]].color
    decreases |w|
  {
    if |w| > 1 {
      WalkColor(g, w[..|w| - 1]);
      assert Linked(g, w[|w| - 2], w[|w| - 1]);
    }
  }

  lemma JoinedColor(g: ExecGraph, a: NodeId, b: NodeId)
    requires Joined(g, a, b)
    ensures a in g.nodes && b in g.nodes && g.nodes[a].color == g.nodes[b].color
  {
    var w :| WalkBetween(g, w, a, b);
    WalkColor(g, w);
  }

  // ---------------------------------------------------------------- one component

  /** `found` lists, without repetition, exactly the nodes connected to its first. */
  ghost predicate IsComponent(g: ExecGraph, found: seq<NodeId>) {
    && found != [] && NoRepeats(found) && found[0] in g.nodes
    && forall n :: n in found <==> Joined(g, found[0], n)
  }

  /** The neighbors of n that share its color, pushed on the stack. */
  method PushNeighbors(g: ExecGraph, n: NodeId, stack: seq<NodeId>) returns (pushed: seq<NodeId>)
    requires n in g.nodes && EndpointsExist(g)
    ensures |pushed| >= |stack| && pushed[..|stack|] == stack
    ensures forall k :: |stack| <= k < |pushed| ==> Linked(g, n, pushed[k])
    ensures forall b :: Linked(g, n, b) ==> b in pushed
  {
    pushed := stack;
    var rest := set e | e in g.edges && (g.edges[e].source == n || g.edges[e].target == n);
    ghost var touching := rest;
    while rest != {}
      invariant rest <= touching
      invariant |pushed| >= |stack| && pushed[..|stack|] == stack
      invariant forall k :: |stack| <= k < |pushed| ==> Linked(g, n, pushed[k])
      invariant forall e, b :: e in touching - rest && LinksTo(g, e, n, b) ==> b in pushed
      decreases |rest|
    {
      var e := Extreme(true, rest);
      var other := if g.edges[e].source == n then g.edges[e].target else g.edges[e].source;
      if g.nodes[other].color == g.nodes[n].color {
        assert LinksTo(g, e, n, other);
        pushed := pushed + [other];
      }
      rest := rest - {e};
    }
    forall b | Linked(g, n, b)
      ensures b in pushed
    {
      var e :| e in g.edges && LinksTo(g, e, n, b);
      assert e in touching - rest;
    }
  }

  /** The state of the search from `start`: everything met is connected to it, and whatever a found
      node is linked to has been found or waits on the stack. */
  ghost predicate Searching(g: ExecGraph, start: NodeId, seen: set<NodeId>, found: seq<NodeId>, stack: seq<NodeId>) {
    && NoRepeats(found) && (found == [] ==> stack == [start]) && (found != [] ==> found[0] == start)
    && (forall n :: n in found || n in stack ==> Joined(g, start, n))
    && (forall n :: n in found ==> n !in seen)
    && forall n, b :: n in found && Linked(g, n, b) ==> b in found || b in stack
  }

  lemma SearchDrops(g: ExecGraph, start: NodeId, seen: set<NodeId>, found: seq<NodeId>, stack: seq<NodeId>)
    requires Searching(g, start, seen, found, stack) && stack != []
    requires found != [] && stack[|stack| - 1] in found
    ensures Searching(g, start, seen, found, stack[..|stack| - 1])
  {
    hide Linked, Joined;
    var n, left := stack[|stack| - 1], stack[..|stack| - 1];
    assert stack == left + [n];
  }

  lemma SearchFinds(g: ExecGraph, start: NodeId, seen: set<NodeId>, found: seq<NodeId>, stack: seq<NodeId>, pushed: seq<NodeId>)
    requires Searching(g, start, seen, found, stack) && stack != []
    requires var n, left := stack[|stack| - 1], stack[..|stack| - 1];
             && n !in found && n !in seen && |pushed| >= |left| && pushed[..|left|] == left
             && (forall k :: |left| <= k < |pushed| ==> Linked(g, n, pushed[k]))
             && forall b :: Linked(g, n, b) ==> b in pushed
    ensures Searching(g, start, seen, found + [stack[|stack| - 1]], pushed)
  {
    hide Linked, Joined;
    var n, left := stack[|stack| - 1], stack[..|stack| - 1];
    assert stack == left + [n];
    forall b | b in pushed
      ensures Joined(g, start, b)
    {
      var k :| 0 <= k < |pushed| && pushed[k] == b;
      if k < |left| {
        assert left[k] in stack;
      } else {
        JoinedStep(g, start, n, b);
      }
    }
  }

  lemma SearchEnds(g: ExecGraph, start: NodeId, seen: set<NodeId>, found: seq<NodeId>)
    requires Searching(g, start, seen, found, []) && start in g.nodes
    ensures IsComponent(g, found) && found[0] == start && Closed(g, SetOf(found))
  {
    hide Linked, Joined;
    assert Closed(g, SetOf(found));
    forall n | Joined(g, start, n)
      ensures n in found
    {
      JoinedStays(g, SetOf(found), start, n);
    }
  }

  /** The depth-first search: the component of a node not seen before. */
  method Search(g: ExecGraph, start: NodeId, seen: set<NodeId>) returns (found: seq<NodeId>)
    requires EndpointsExist(g) && Closed(g, seen) && start in g.nodes && start !in seen
    ensures IsComponent(g, found) && found[0] == start
    ensures Closed(g, seen + SetOf(found)) && SetOf(found) !! seen
  {
    found := [];
    var stack := [start];
    JoinedReflexive(g, start);
    hide Linked, Joined, Searching, Closed, IsComponent, EndpointsExist;
    SearchBegins(g, start, seen);
    var visited := seen;
    while stack != []
      invariant Searching(g, start, seen, found, stack)
      invariant visited == seen + SetOf(found)
      decreases g.nodes.Keys - visited, |stack|
    {
      var n, left := stack[|stack| - 1], stack[..|stack| - 1];
      SearchTop(g, start, seen, found, stack);
      if n in visited {
        SearchDrops(g, start, seen, found, stack);
        stack := left;
      } else {
        var pushed := PushNeighbors(g, n, left);
        SearchFinds(g, start, seen, found, stack, pushed);
        visited := visited + {n};
        found := found + [n];
        stack := pushed;
      }
    }
    SearchEnds(g, start, seen, found);
    SearchApart(g, start, seen, found);
    ClosedUnion(g, seen, SetOf(found));
  }

  lemma SearchBegins(g: ExecGraph, start: NodeId, seen: set<NodeId>)
    requires Joined(g, start, start)
    ensures Searching(g, start, seen, [], [start])
  {
    hide Linked, Joined;
  }

  lemma SearchApart(g: ExecGraph, start: NodeId, seen: set<NodeId>, found: seq<NodeId>)
    requires Searching(g, start, seen, found, [])
    ensures SetOf(found) !! seen
  {
    hide Linked, Joined;
  }

  /** A node connected to an unseen node is unseen. */
  lemma SearchTop(g: ExecGraph, start: NodeId, seen: set<NodeId>, found: seq<NodeId>, stack: seq<NodeId>)
    requires Searching(g, start, seen, found, stack) && stack != []
    requires Closed(g, seen) && start !in seen
    ensures stack[|stack| - 1] in g.nodes && stack[|stack| - 1] !in seen
    ensures stack[|stack| - 1] in found ==> found != []
  {
    hide Linked, Joined;
    var n := stack[|stack| - 1];
    JoinedColor(g, start, n);
    if n in seen {
      JoinedSymmetric(g, start, n);
      JoinedStays(g, seen, n, start);
    }
  }

  lemma ClosedUnion(g: ExecGraph, a: set<NodeId>, b: set<NodeId>)
    requires Closed(g, a) && Closed(g, b)
    ensures Closed(g, a + b)
  {
    hide Linked;
  }

  // ---------------------------------------------------------------- all components

  function AllMembers(comps: seq<seq<NodeId>>): (s: set<NodeId>)
    ensures forall n :: n in s <==> exists i :: 0 <= i < |comps| && n in comps[i]
  {
    set i, n | 0 <= i < |comps| && n in comps[i] :: n
  }

  /** Components come in the order of their first node, which is the first of all nodes from there on. */
  ghost predicate Ordered(order: seq<NodeId>, comps: seq<seq<NodeId>>) {
    forall i, j, n :: 0 <= i <= j < |comps| && n in comps[j] && n in order ==> LeadsBefore(order, comps[i], n)
  }

  ghost predicate LeadsBefore(order: seq<NodeId>, comp: seq<NodeId>, n: NodeId)
    requires n in order
  {
    comp != [] && comp[0] in order && Position(order, comp[0]) <= Position(order, n)
  }

  ghost predicate Separate(comps: seq<seq<NodeId>>) {
    forall i, j, n :: 0 <= i < |comps| && 0 <= j < |comps| && n in comps[i] && n in comps[j] ==> i == j
  }

  ghost predicate AllComponents(g: ExecGraph, comps: seq<seq<NodeId>>) {
    forall i :: 0 <= i < |comps| ==> IsComponent(g, comps[i])
  }

  /** `comps` cuts the graph into the connected components of its same-color subgraph. */
  ghost predicate Partitioned(g: ExecGraph, comps: seq<seq<NodeId>>) {
    AllComponents(g, comps) && Separate(comps) && AllMembers(comps) == g.nodes.Keys
  }

  lemma {:induction false} PositionOf(order: seq<NodeId>, k: nat)
    requires NoRepeats(order) && k < |order|
    ensures Position(order, order[k]) == k
  {
    var i := Position(order, order[k]);
    assert order[i] == order[k];
  }

  ghost predicate LeadsFrom(order: seq<NodeId>, k: nat, comps: seq<seq<NodeId>>)
    requires k <= |order|
  {
    forall i :: 0 <= i < |comps| ==> comps[i] != [] && comps[i][0] in order[..k]
  }

  /** The search after the first k nodes of the order. */
  ghost predicate Found(g: ExecGraph, order: seq<NodeId>, k: nat, comps: seq<seq<NodeId>>) {
    && k <= |order| && AllComponents(g, comps) && Separate(comps) && Ordered(order, comps) && LeadsFrom(order, k, comps)
    && forall m :: 0 <= m < k ==> order[m] in AllMembers(comps)
  }

  lemma FoundNext(g: ExecGraph, order: seq<NodeId>, comps: seq<seq<NodeId>>, k: nat, found: seq<NodeId>)
    requires k < |order| && NoRepeats(order) && Found(g, order, k, comps)
    requires IsComponent(g, found) && found[0] == order[k] && SetOf(found) !! AllMembers(comps)
    ensures Found(g, order, k + 1, comps + [found])
    ensures AllMembers(comps + [found]) == AllMembers(comps) + SetOf(found)
  {
    assert found[0] in SetOf(found) by { assert found != []; }
    hide IsComponent, SetOf, Separate, AllComponents, Ordered, NoRepeats, LeadsFrom;
    FoundSeparate(comps, found);
    AllSnoc(g, comps, found);
    MembersSnoc(comps, found);
    LeadsSnoc(g, order, k, comps, found);
    FoundOrdered(g, order, comps, k, found);
  }

  lemma AllSnoc(g: ExecGraph, comps: seq<seq<NodeId>>, found: seq<NodeId>)
    requires AllComponents(g, comps) && IsComponent(g, found)
    ensures AllComponents(g, comps + [found])
  {
    hide IsComponent;
  }

  lemma LeadsSnoc(g: ExecGraph, order: seq<NodeId>, k: nat, comps: seq<seq<NodeId>>, found: seq<NodeId>)
    requires k < |order| && LeadsFrom(order, k, comps) && IsComponent(g, found) && found[0] == order[k]
    ensures LeadsFrom(order, k + 1, comps + [found])
  {
    assert found != [];
    hide IsComponent;
    assert order[..k + 1] == order[..k] + [order[k]];
  }

  lemma FoundSkip(g: ExecGraph, order: seq<NodeId>, comps: seq<seq<NodeId>>, k: nat)
    requires k < |order| && Found(g, order, k, comps) && order[k] in AllMembers(comps)
    ensures Found(g, order, k + 1, comps)
  {
    hide AllComponents, Separate, Ordered, LeadsFrom, AllMembers;
    LeadsMore(order, k, comps);
  }

  lemma LeadsMore(order: seq<NodeId>, k: nat, comps: seq<seq<NodeId>>)
    requires k < |order| && LeadsFrom(order, k, comps)
    ensures LeadsFrom(order, k + 1, comps)
  {
    assert order[..k + 1] == order[..k] + [order[k]];
  }

  lemma FoundOrdered(g: ExecGraph, order: seq<NodeId>, comps: seq<seq<NodeId>>, k: nat, found: seq<NodeId>)
    requires k < |order| && NoRepeats(order) && Found(g, order, k, comps)
    requires IsComponent(g, found) && found[0] == order[k] && SetOf(found) !! AllMembers(comps)
    ensures Ordered(order, comps + [found])
  {
    AllSnoc(g, comps, found);
    LeadsSnoc(g, order, k, comps, found);
    var all := comps + [found];
    hide IsComponent, SetOf, LeadsBefore, NoRepeats, Separate;
    forall i, j, n | 0 <= i <= j < |all| && n in all[j] && n in order
      ensures LeadsBefore(order, all[i], n)
    {
      if j < |comps| {
        assert LeadsBefore(order, comps[i], n);
      } else {
        FoundLater(g, order, comps, k, found, all[i], n);
      }
    }
  }

  lemma FoundLater(g: ExecGraph, order: seq<NodeId>, comps: seq<seq<NodeId>>, k: nat, found: seq<NodeId>, lead: seq<NodeId>, n: NodeId)
    requires k < |order| && NoRepeats(order) && IsComponent(g, lead) && lead[0] in order[..k + 1]
    requires forall m :: 0 <= m < k ==> order[m] in AllMembers(comps)
    requires SetOf(found) !! AllMembers(comps) && n in found && n in order
    ensures LeadsBefore(order, lead, n)
  {
    var p := Position(order, n);
    assert n !in AllMembers(comps);
    var i :| 0 <= i < k + 1 && order[i] == lead[0];
    PositionOf(order, i);
  }

  lemma FoundSeparate(comps: seq<seq<NodeId>>, found: seq<NodeId>)
    requires Separate(comps) && SetOf(found) !! AllMembers(comps)
    ensures Separate(comps + [found])
  {
    var all := comps + [found];
    forall i, j, n | 0 <= i < |all| && 0 <= j < |all| && n in all[i] && n in all[j]
      ensures i == j
    {
      assert i < |comps| ==> all[i] == comps[i] && n in AllMembers(comps);
      assert j < |comps| ==> all[j] == comps[j] && n in AllMembers(comps);
      assert n in found ==> n in SetOf(found);
    }
  }

  lemma MembersSnoc(comps: seq<seq<NodeId>>, found: seq<NodeId>)
    ensures AllMembers(comps + [found]) == AllMembers(comps) + SetOf(found)
  {
    var all := comps + [found];
    assert forall i :: 0 <= i < |comps| ==> all[i] == comps[i];
    assert all[|comps|] == found;
  }

  /** The first loop of `partition_by`, without the graphs it builds. */
  method FindComponents(g: ExecGraph) returns (comps: seq<seq<NodeId>>, ghost order: seq<NodeId>)
    requires EndpointsExist(g)
    ensures IsDagOrder(g, true, order)
    ensures AllComponents(g, comps) && Separate(comps) && Ordered(order, comps)
    ensures forall n :: n in order ==> n in AllMembers(comps)
    ensures IsDag(g) ==> Partitioned(g, comps)
  {
    var nodes := Scan(g, true);
    order := nodes;
    OrderIsTopological(g, true, order);
    comps := [];
    var visited := {};
    hide IsDagOrder, Joined, Linked, IsComponent, Found, NoRepeats, Topological, EndpointsExist, Closed, Partitioned;
    NothingFound(g, order);
    for k := 0 to |nodes|
      invariant Found(g, order, k, comps) && visited == AllMembers(comps) && Closed(g, visited)
    {
      if nodes[k] !in visited {
        var found := Search(g, nodes[k], visited);
        FoundNext(g, order, comps, k, found);
        comps := comps + [found];
        visited := visited + SetOf(found);
      } else {
        FoundSkip(g, order, comps, k);
      }
    }
    FoundAll(g, order, comps);
    CoversDag(g, order, comps);
  }

  lemma FoundAll(g: ExecGraph, order: seq<NodeId>, comps: seq<seq<NodeId>>)
    requires Found(g, order, |order|, comps)
    ensures AllComponents(g, comps) && Separate(comps) && Ordered(order, comps)
    ensures forall n :: n in order ==> n in AllMembers(comps)
  {
    hide AllComponents, Separate, Ordered, LeadsFrom;
  }

  lemma NothingFound(g: ExecGraph, order: seq<NodeId>)
    ensures Found(g, order, 0, []) && Closed(g, {}) && AllMembers([]) == {}
  {}

  lemma CoversDag(g: ExecGraph, order: seq<NodeId>, comps: seq<seq<NodeId>>)
    requires EndpointsExist(g) && IsDagOrder(g, true, order) && AllComponents(g, comps) && Separate(comps)
    requires forall n :: n in order ==> n in AllMembers(comps)
    ensures IsDag(g) ==> Partitioned(g, comps)
  {
    hide IsDagOrder, EndpointsExist, Separate, Joined, IsComponent, IsDag;
    CoversIffDag(g, true, order);
    if IsDag(g) {
      forall n | n in g.nodes
        ensures n in AllMembers(comps)
      {
        assert n !in Rest(g, order);
      }
      MembersAreNodes(g, comps);
    }
  }

  lemma MembersAreNodes(g: ExecGraph, comps: seq<seq<NodeId>>)
    requires AllComponents(g, comps)
    ensures AllMembers(comps) <= g.nodes.Keys
  {
    hide Joined;
    forall n | n in AllMembers(comps)
      ensures n in g.nodes
    {
      var i :| 0 <= i < |comps| && n in comps[i];
      assert IsComponent(g, comps[i]);
      JoinedColor(g, comps[i][0], n);
    }
  }

  /** The pieces are exactly the connected components: two nodes are in one piece if and only if
      a walk over same-color edges connects them. */
  lemma ComponentsExact(g: ExecGraph, comps: seq<seq<NodeId>>, a: NodeId, b: NodeId)
    requires Partitioned(g, comps) && a in g.nodes && b in g.nodes
    ensures Joined(g, a, b) <==> exists i :: 0 <= i < |comps| && a in comps[i] && b in comps[i]
  {
    hide Joined, IsComponent, Separate;
    assert a in AllMembers(comps);
    var i :| 0 <= i < |comps| && a in comps[i];
    InOneComponent(g, comps, i, a, b);
    if j :| 0 <= j < |comps| && a in comps[j] && b in comps[j] {
      InOneComponent(g, comps, j, a, b);
    }
  }

  lemma InOneComponent(g: ExecGraph, comps: seq<seq<NodeId>>, i: nat, a: NodeId, b: NodeId)
    requires AllComponents(g, comps) && i < |comps| && a in comps[i]
    ensures Joined(g, a, b) <==> b in comps[i]
  {
    assert IsComponent(g, comps[i]);
    hide Joined, AllComponents;
    var lead := comps[i][0];
    if Joined(g, a, b) {
      JoinedTransitive(g, lead, a, b);
    }
    if b in comps[i] {
      JoinedSymmetric(g, lead, a);
      JoinedTransitive(g, a, lead, b);
    }
  }

  /** No edge between nodes of one color is cut, and every piece has one color. */
  lemma OneColorEach(g: ExecGraph, comps: seq<seq<NodeId>>, i: nat, n: NodeId)
    requires AllComponents(g, comps) && i < |comps| && n in comps[i]
    ensures comps[i] != [] && n in g.nodes && comps[i][0] in g.nodes && g.nodes[n].color == g.nodes[comps[i][0]].color
  {
    assert IsComponent(g, comps[i]);
    JoinedColor(g, comps[i][0], n);
  }

  lemma CutEdgesChangeColor(g: ExecGraph, comps: seq<seq<NodeId>>, e: EdgeId, i: nat)
    requires EndpointsExist(g) && AllComponents(g, comps) && e in g.edges && i < |comps|
    requires (g.edges[e].source in comps[i]) != (g.edges[e].target in comps[i])
    ensures g.nodes[g.edges[e].source].color != g.nodes[g.edges[e].target].color
  {
    var a, b := g.edges[e].source, g.edges[e].target;
    assert IsComponent(g, comps[i]);
    hide Joined;
    if g.nodes[a].color == g.nodes[b].color {
      assert LinksTo(g, e, a, b) && LinksTo(g, e, b, a);
      assert Linked(g, a, b) && Linked(g, b, a);
      if a in comps[i] {
        JoinedStep(g, comps[i][0], a, b);
      } else {
        JoinedStep(g, comps[i][0], b, a);
      }
    }
  }
}
