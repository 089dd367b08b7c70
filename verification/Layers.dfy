/** Layering of the stage graph by Kahn's algorithm (api/pkg/engine/dag.go, TopologicalSort). */
module Layers {
  import opened Sequences
  import opened Digraphs
  import opened Dags
  import opened Cycles
  import opened Rotations

  datatype SortResult =
    | Layered(layers: seq<seq<NodeID>>)
    | CycleFound(path: seq<NodeID>)
    | Incomplete(layers: seq<seq<NodeID>>, leftover: set<NodeID>)

  /** The nodes whose longest chain of needs has exactly `k` edges, in Order order. */
  ghost function LayerOf(d: Dag, k: nat): seq<NodeID>
    requires WellFormed(d) && Acyclic(d.Needs())
  {
    Select(d.order, set id | id in d.nodes && Depth(d.Needs(), id) == k)
  }

  ghost predicate Layering(d: Dag, layers: seq<seq<NodeID>>)
    requires WellFormed(d) && Acyclic(d.Needs())
  {
    forall k :: 0 <= k < |layers| ==> layers[k] == LayerOf(d, k) && layers[k] != []
  }

  /** The nodes of depth less than `k`. */
  ghost function Shallow(d: Dag, k: nat): set<NodeID>
    requires WellFormed(d) && Acyclic(d.Needs())
  {
    set id | id in d.nodes && Depth(d.Needs(), id) < k
  }

  /** An unvisited node has no unvisited need exactly when it belongs to the next layer. */
  lemma NextLayer(d: Dag, k: nat, id: NodeID)
    requires WellFormed(d) && Acyclic(d.Needs()) && id in d.nodes
    ensures CountLeft(d.nodes[id].ins, Shallow(d, k)) == 0 <==> Depth(d.Needs(), id) <= k
  {
    var g := d.Needs();
    DepthEdges(g, id);
    assert g[id] == d.nodes[id].ins;
    if Depth(g, id) > k {
      var b :| b in g[id] && b in g && Depth(g, b) == Depth(g, id) - 1;
      assert b !in Shallow(d, k);
    } else {
      forall b | b in d.nodes[id].ins ensures b in Shallow(d, k) {
        assert Depth(g, b) < Depth(g, id);
      }
    }
  }

  /** When a layer is empty there is nothing deeper. */
  lemma {:induction false} EmptyLayer(d: Dag, k: nat, id: NodeID)
    requires WellFormed(d) && Acyclic(d.Needs()) && LayerOf(d, k) == [] && id in d.nodes
    ensures Depth(d.Needs(), id) < k
    decreases Depth(d.Needs(), id)
  {
    var g := d.Needs();
    assert id in LayerOf(d, k) <==> Depth(g, id) == k;
    if Depth(g, id) > k {
      DepthEdges(g, id);
      var b :| b in g[id] && b in g && Depth(g, b) == Depth(g, id) - 1;
      EmptyLayer(d, k, b);
    }
  }

  /** In-degrees count the needs that are not visited yet. */
  ghost predicate Degrees(d: Dag, inDeg: map<NodeID, int>, visited: set<NodeID>) {
    && inDeg.Keys == d.nodes.Keys
    && forall id :: id in d.nodes ==> inDeg[id] == CountLeft(d.nodes[id].ins, visited)
  }

  method PickReady(d: Dag, inDeg: map<NodeID, int>) returns (ready: seq<NodeID>)
    requires forall id :: id in d.order ==> id in inDeg
    ensures ready == Select(d.order, set id | id in inDeg && inDeg[id] == 0)
  {
    ready := [];
    ghost var zero := set id | id in inDeg && inDeg[id] == 0;
    for i := 0 to |d.order|
      invariant ready == Select(d.order[..i], zero)
    {
      SelectSnoc(d.order[..i], d.order[i], zero);
      assert d.order[..i + 1] == d.order[..i] + [d.order[i]];
      if inDeg[d.order[i]] == 0 {
        ready := ready + [d.order[i]];
      }
    }
    assert d.order[..|d.order|] == d.order;
  }

  /** Drop the ready nodes that were taken in an earlier round. */
  method Unvisited(ready: seq<NodeID>, visited: set<NodeID>) returns (left: seq<NodeID>)
    ensures left == Select(ready, (set id | id in ready) - visited)
  {
    left := [];
    ghost var unseen := (set id | id in ready) - visited;
    for i := 0 to |ready|
      invariant left == Select(ready[..i], unseen)
    {
      SelectSnoc(ready[..i], ready[i], unseen);
      assert ready[..i + 1] == ready[..i] + [ready[i]];
      if ready[i] !in visited {
        left := left + [ready[i]];
      }
    }
    assert ready[..|ready|] == ready;
  }

  /** Every listed node loses one degree for each time it is listed. */
  method Decrement(outs: seq<NodeID>, degrees: map<NodeID, int>) returns (inDeg: map<NodeID, int>)
    requires forall y :: y in outs ==> y in degrees
    ensures inDeg.Keys == degrees.Keys
    ensures forall x :: x in degrees ==> inDeg[x] == degrees[x] - multiset(outs)[x]
  {
    inDeg := degrees;
    for m := 0 to |outs|
      invariant inDeg.Keys == degrees.Keys
      invariant forall x :: x in degrees ==> inDeg[x] == degrees[x] - multiset(outs[..m])[x]
    {
      assert outs[..m + 1] == outs[..m] + [outs[m]];
      inDeg := inDeg[outs[m] := inDeg[outs[m]] - 1];
    }
    assert outs[..|outs|] == outs;
  }

  /** Visit one node: what it feeds has that many unvisited needs less. */
  method EatOne(d: Dag, u: NodeID, degrees: map<NodeID, int>, ghost visited: set<NodeID>)
    returns (inDeg: map<NodeID, int>)
    requires WellFormed(d) && u in d.nodes && u !in visited && Degrees(d, degrees, visited)
    ensures Degrees(d, inDeg, visited + {u})
  {
    Neighbours(d, u);
    inDeg := Decrement(d.nodes[u].outs, degrees);
    forall x | x in d.nodes ensures inDeg[x] == CountLeft(d.nodes[x].ins, visited + {u}) {
      CountLeftStep(d.nodes[x].ins, visited, u);
      assert multiset(d.nodes[u].outs)[x] == multiset(d.nodes[x].ins)[u];
    }
  }

  method Eat(d: Dag, layer: seq<NodeID>, degrees: map<NodeID, int>, seen: set<NodeID>)
    returns (inDeg: map<NodeID, int>, visited: set<NodeID>)
    requires WellFormed(d) && Degrees(d, degrees, seen) && Distinct(layer)
    requires forall id :: id in layer ==> id in d.nodes && id !in seen
    ensures visited == seen + set id | id in layer
    ensures Degrees(d, inDeg, visited)
  {
    hide WellFormed, Degrees;
    inDeg, visited := degrees, seen;
    for i := 0 to |layer|
      invariant forall x :: x in visited <==> x in seen || x in layer[..i]
      invariant Degrees(d, inDeg, visited)
    {
      assert layer[i] !in layer[..i];
      inDeg := EatOne(d, layer[i], inDeg, visited);
      visited := visited + {layer[i]};
      assert layer[..i + 1] == layer[..i] + [layer[i]];
    }
    assert layer[..|layer|] == layer;
  }

  method InDegrees(d: Dag) returns (inDeg: map<NodeID, int>)
    ensures Degrees(d, inDeg, {})
  {
    inDeg := map id | id in d.nodes :: |d.nodes[id].ins|;
    forall id | id in d.nodes ensures inDeg[id] == CountLeft(d.nodes[id].ins, {}) {
      NoneGone(d.nodes[id].ins);
    }
  }

  /** Take layer after layer until none is left. */
  method Peel(d: Dag) returns (layers: seq<seq<NodeID>>, visited: set<NodeID>)
    requires WellFormed(d) && Acyclic(d.Needs())
    ensures Layering(d, layers) && LayerOf(d, |layers|) == [] && visited == Shallow(d, |layers|)
  {
    var inDeg := InDegrees(d);
    visited, layers := {}, [];
    while true
      invariant visited == Shallow(d, |layers|)
      invariant Degrees(d, inDeg, visited)
      invariant Layering(d, layers)
      decreases d.nodes.Keys - visited
    {
      var layer := NextRound(d, |layers|, inDeg, visited);
      if |layer| == 0 {
        break;
      }
      inDeg, visited := EatLayer(d, |layers|, layer, inDeg, visited);
      LayeringSnoc(d, layers, layer);
      layers := layers + [layer];
    }
  }

  lemma LayeringSnoc(d: Dag, layers: seq<seq<NodeID>>, layer: seq<NodeID>)
    requires WellFormed(d) && Acyclic(d.Needs())
    requires Layering(d, layers) && layer == LayerOf(d, |layers|) && layer != []
    ensures Layering(d, layers + [layer])
  {
  }

  method EatLayer(d: Dag, ghost k: nat, layer: seq<NodeID>, degrees: map<NodeID, int>, seen: set<NodeID>)
    returns (inDeg: map<NodeID, int>, visited: set<NodeID>)
    requires WellFormed(d) && Acyclic(d.Needs())
    requires layer == LayerOf(d, k) && layer != []
    requires seen == Shallow(d, k) && Degrees(d, degrees, seen)
    ensures visited == Shallow(d, k + 1) && Degrees(d, inDeg, visited)
    ensures d.nodes.Keys - visited < d.nodes.Keys - seen
  {
    LayerMembers(d, k);
    inDeg, visited := Eat(d, layer, degrees, seen);
    assert layer[0] in d.nodes.Keys - seen;
  }

  method NextRound(d: Dag, ghost k: nat, inDeg: map<NodeID, int>, visited: set<NodeID>)
    returns (layer: seq<NodeID>)
    requires WellFormed(d) && Acyclic(d.Needs())
    requires visited == Shallow(d, k) && Degrees(d, inDeg, visited)
    ensures layer == LayerOf(d, k)
  {
    var ready := PickReady(d, inDeg);
    layer := Unvisited(ready, visited);
    LayerFound(d, k, inDeg, visited, ready);
  }

  lemma LayerMembers(d: Dag, k: nat)
    requires WellFormed(d) && Acyclic(d.Needs())
    ensures Distinct(LayerOf(d, k))
    ensures forall id :: id in LayerOf(d, k) <==> id in d.nodes && Depth(d.Needs(), id) == k
    ensures Shallow(d, k + 1) == Shallow(d, k) + set id | id in LayerOf(d, k)
  {
    SelectDistinct(d.order, set id | id in d.nodes && Depth(d.Needs(), id) == k);
  }

  /** On an acyclic graph layer `k` is exactly the nodes of depth `k` in Order order, no layer is empty
      and no node is missing; the "incomplete" result never happens. Otherwise a real cycle is returned. */
  method TopologicalSort(d: Dag) returns (r: SortResult)
    requires WellFormed(d)
    ensures !r.Incomplete?
    ensures r.CycleFound? <==> !Acyclic(d.Needs())
    ensures r.CycleFound? ==> SimpleCycle(d.Feeds(), r.path)
    ensures r.Layered? ==> Layering(d, r.layers)
    ensures r.Layered? ==> forall id :: id in d.nodes ==> Depth(d.Needs(), id) < |r.layers|
  {
    FeedsReverseNeeds(d);
    hide EachCovered;
    var cycles := DetectCycles(d);
    if |cycles| > 0 {
      return CycleFound(cycles[0]);
    }
    var layers, visited := Peel(d);
    forall id | id in d.nodes ensures id in visited {
      EmptyLayer(d, |layers|, id);
    }
    assert visited == d.nodes.Keys;
    if |visited| != |d.nodes| {
      return Incomplete(layers, d.nodes.Keys - visited);
    }
    return Layered(layers);
  }

  lemma {:induction false} NoneGone<T(!new)>(s: seq<T>)
    ensures CountLeft(s, {}) == |s|
  {
    if s != [] {
      NoneGone(s[..|s| - 1]);
    }
  }

  /** A round of Kahn's algorithm picks exactly the next layer. */
  lemma LayerFound(d: Dag, k: nat, inDeg: map<NodeID, int>, visited: set<NodeID>, ready: seq<NodeID>)
    requires WellFormed(d) && Acyclic(d.Needs())
    requires visited == Shallow(d, k) && Degrees(d, inDeg, visited)
    requires ready == Select(d.order, set id | id in inDeg && inDeg[id] == 0)
    ensures Select(ready, (set id | id in ready) - visited) == LayerOf(d, k)
  {
    var zero := set id | id in inDeg && inDeg[id] == 0;
    var unseen := (set id | id in ready) - visited;
    SelectTwice(d.order, zero, unseen);
    var deep := set id | id in d.nodes && Depth(d.Needs(), id) == k;
    forall id | id in d.order ensures id in zero * unseen <==> id in deep {
      NextLayer(d, k, id);
    }
    SelectAgree(d.order, zero * unseen, deep);
  }
}
