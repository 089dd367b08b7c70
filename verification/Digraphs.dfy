/** Directed graphs given by successor lists (a successor may be listed twice): walks, cycles,
    longest walks, and the certificates that show a graph acyclic.

    `Depth` is the length of a longest walk from a node of an acyclic graph. A graph is acyclic if its nodes
    can be listed so that every successor comes before its predecessor, which is what a depth-first search
    leaves behind, and reversing all edges keeps it so. */
module Digraphs {
  type NodeID = string
  type Digraph = map<NodeID, seq<NodeID>>

  ghost predicate Closed(g: Digraph) {
    forall a, b :: a in g && b in g[a] ==> b in g
  }

  ghost predicate Edge(g: Digraph, a: NodeID, b: NodeID) {
    a in g && b in g[a]
  }

  /** Neighbours in the list `p` are joined by edges. */
  ghost predicate Linked(g: Digraph, p: seq<NodeID>) {
    forall i, j :: 0 <= i < |p| && j == i + 1 && j < |p| ==> Edge(g, p[i], p[j])
  }

  /** A walk along the edges of `g`; a single node is a walk. */
  ghost predicate Walk(g: Digraph, p: seq<NodeID>) {
    && |p| > 0
    && p[0] in g
    && Linked(g, p)
  }

  /** A closed walk with at least one edge. */
  ghost predicate Cycle(g: Digraph, p: seq<NodeID>) {
    |p| >= 2 && Walk(g, p) && p[0] == p[|p| - 1]
  }

  ghost predicate Acyclic(g: Digraph) {
    forall p :: !Cycle(g, p)
  }

  ghost predicate Reaches(g: Digraph, a: NodeID, b: NodeID) {
    exists p :: |p| >= 2 && Walk(g, p) && p[0] == a && p[|p| - 1] == b
  }

  /** Everything reachable from `a` by at least one edge. */
  ghost function Below(g: Digraph, a: NodeID): set<NodeID> {
    set b | b in g && Reaches(g, a, b)
  }

  lemma WalkCons(g: Digraph, a: NodeID, p: seq<NodeID>)
    requires Walk(g, p) && Edge(g, a, p[0])
    ensures Walk(g, [a] + p)
  {
    var q := [a] + p;
  }

  /** An edge reaches its end, and what that reaches. */
  lemma EdgeReaches(g: Digraph, a: NodeID, b: NodeID, c: NodeID)
    requires Edge(g, a, b) && b in g && (c == b || Reaches(g, b, c))
    ensures Reaches(g, a, c)
  {
    if c == b {
      WalkCons(g, a, [b]);
      var p := [a] + [b];
      assert p[0] == a && p[|p| - 1] == c;
    } else {
      var p :| |p| >= 2 && Walk(g, p) && p[0] == b && p[|p| - 1] == c;
      WalkCons(g, a, p);
      var q := [a] + p;
      assert q[0] == a && q[|q| - 1] == c;
    }
  }

  /** In an acyclic graph the nodes below a successor are strictly fewer: the recursion measure. */
  lemma BelowShrinks(g: Digraph, a: NodeID, b: NodeID)
    requires Closed(g) && Acyclic(g) && Edge(g, a, b)
    ensures Below(g, b) < Below(g, a)
  {
    forall c | c in Below(g, b) ensures c in Below(g, a) {
      var p :| |p| >= 2 && Walk(g, p) && p[0] == b && p[|p| - 1] == c;
      WalkCons(g, a, p);
      var q := [a] + p;
      assert q[0] == a && q[|q| - 1] == c;
    }
    var e := [a, b];
    assert Walk(g, e) && e[|e| - 1] == b;
    assert b in Below(g, a);
    if b in Below(g, b) {
      var p :| |p| >= 2 && Walk(g, p) && p[0] == b && p[|p| - 1] == b;
      assert Cycle(g, p);
      assert false;
    }
  }

  /** The number of edges of a longest walk from `a` (see LongestWalk). */
  ghost function Depth(g: Digraph, a: NodeID): nat
    requires Closed(g) && Acyclic(g) && a in g
    decreases Below(g, a), |g[a]| + 1
  {
    DepthOver(g, a, |g[a]|)
  }

  /** One more than the greatest depth among the first `k` successors of `a`; 0 when there are none. */
  ghost function DepthOver(g: Digraph, a: NodeID, k: nat): nat
    requires Closed(g) && Acyclic(g) && a in g && k <= |g[a]|
    decreases Below(g, a), k
  {
    if k == 0 then 0
    else
      var b := g[a][k - 1];
      BelowShrinks(g, a, b);
      var d := 1 + Depth(g, b);
      var rest := DepthOver(g, a, k - 1);
      if rest < d then d else rest
  }

  lemma {:induction false} DepthOverBounds(g: Digraph, a: NodeID, k: nat)
    requires Closed(g) && Acyclic(g) && a in g && k <= |g[a]|
    ensures forall i :: 0 <= i < k ==> g[a][i] in g && Depth(g, g[a][i]) < DepthOver(g, a, k)
    ensures DepthOver(g, a, k) > 0 ==>
              exists i :: 0 <= i < k && g[a][i] in g && Depth(g, g[a][i]) == DepthOver(g, a, k) - 1
  {
    if k > 0 {
      DepthOverBounds(g, a, k - 1);
      assert Edge(g, a, g[a][k - 1]);
      BelowShrinks(g, a, g[a][k - 1]);
    }
  }

  /** Depth is zero exactly at sinks, falls along every edge, and falls by one along some edge. */
  lemma DepthEdges(g: Digraph, a: NodeID)
    requires Closed(g) && Acyclic(g) && a in g
    ensures Depth(g, a) == 0 <==> g[a] == []
    ensures forall b :: b in g[a] ==> b in g && Depth(g, b) < Depth(g, a)
    ensures Depth(g, a) > 0 ==> exists b :: b in g[a] && b in g && Depth(g, b) == Depth(g, a) - 1
  {
    DepthOverBounds(g, a, |g[a]|);
    if g[a] != [] {
      assert Depth(g, g[a][0]) < Depth(g, a);
    }
    forall b | b in g[a] ensures b in g && Depth(g, b) < Depth(g, a) {
      var i :| 0 <= i < |g[a]| && g[a][i] == b;
    }
  }

  /** What Depth means: no walk from `a` has more edges, and some walk has exactly that many. */
  lemma LongestWalk(g: Digraph, a: NodeID)
    requires Closed(g) && Acyclic(g) && a in g
    ensures forall p :: Walk(g, p) && p[0] == a ==> |p| - 1 <= Depth(g, a)
    ensures exists p :: Walk(g, p) && p[0] == a && |p| - 1 == Depth(g, a)
  {
    forall p | Walk(g, p) && p[0] == a ensures |p| - 1 <= Depth(g, a) {
      WalkBounded(g, p);
    }
    var p := DeepWalk(g, a);
  }

  lemma {:induction false} WalkBounded(g: Digraph, p: seq<NodeID>)
    requires Closed(g) && Acyclic(g) && Walk(g, p)
    ensures |p| - 1 <= Depth(g, p[0])
  {
    if |p| > 1 {
      assert Edge(g, p[0], p[1]);
      var q := p[1..];
      WalkBounded(g, q);
      DepthEdges(g, p[0]);
    }
  }

  lemma {:induction false} DeepWalk(g: Digraph, a: NodeID) returns (p: seq<NodeID>)
    requires Closed(g) && Acyclic(g) && a in g
    ensures Walk(g, p) && p[0] == a && |p| - 1 == Depth(g, a)
    decreases Depth(g, a)
  {
    DepthEdges(g, a);
    if g[a] == [] {
      p := [a];
    } else {
      var b :| b in g[a] && b in g && Depth(g, b) == Depth(g, a) - 1;
      var q := DeepWalk(g, b);
      WalkCons(g, a, q);
      p := [a] + q;
    }
  }

  /** Certificate: in `fin` every node is listed once and all its successors are listed before it. */
  ghost predicate FinishOrder(g: Digraph, fin: seq<NodeID>) {
    forall i, b :: 0 <= i < |fin| && Edge(g, fin[i], b) ==> b in fin[..i]
  }

  lemma FinishOrderAcyclic(g: Digraph, fin: seq<NodeID>)
    requires Closed(g) && FinishOrder(g, fin)
    requires forall a :: a in g ==> a in fin
    ensures Acyclic(g)
  {
    forall p | Cycle(g, p) ensures false {
      var i :| 0 <= i < |fin| && fin[i] == p[0] && p[0] !in fin[..i] by {
        FirstOccurrence(fin, p[0]);
      }
      WalkDescends(g, fin, p, |p| - 1, i);
    }
  }

  lemma {:induction false} FirstOccurrence(s: seq<NodeID>, x: NodeID)
    requires x in s
    ensures exists i :: 0 <= i < |s| && s[i] == x && x !in s[..i]
  {
    if s[0] == x {
      assert s[0] == x && x !in s[..0];
    } else {
      var t := s[1..];
      FirstOccurrence(t, x);
      var i :| 0 <= i < |t| && t[i] == x && x !in t[..i];
      assert s[..i + 1] == [s[0]] + t[..i];
      assert s[i + 1] == x && x !in s[..i + 1];
    }
  }

  lemma {:induction false} WalkDescends(g: Digraph, fin: seq<NodeID>, p: seq<NodeID>, k: nat, i: nat)
    requires FinishOrder(g, fin) && Walk(g, p) && 0 < k < |p|
    requires i < |fin| && fin[i] == p[0]
    ensures p[k] in fin[..i]
  {
    if k == 1 {
      assert Edge(g, p[0], p[1]);
    } else {
      WalkDescends(g, fin, p, k - 1, i);
      var j :| 0 <= j < i && fin[j] == p[k - 1];
      assert Edge(g, p[k - 1], p[k]);
      assert p[k] in fin[..j];
    }
  }

  ghost predicate Reversed(g: Digraph, h: Digraph) {
    g.Keys == h.Keys && forall a, b :: Edge(g, a, b) <==> Edge(h, b, a)
  }

  function Backwards<T>(s: seq<T>): (r: seq<T>)
    ensures |r| == |s| && forall i :: 0 <= i < |s| ==> r[i] == s[|s| - 1 - i]
  {
    if s == [] then [] else Backwards(s[1..]) + [s[0]]
  }

  lemma ReversedCycle(g: Digraph, h: Digraph, p: seq<NodeID>)
    requires Reversed(g, h) && Cycle(g, p)
    ensures Cycle(h, Backwards(p))
  {
    var q := Backwards(p);
    forall i, j | 0 <= i < |q| && j == i + 1 && j < |q| ensures Edge(h, q[i], q[j]) {
      assert Edge(g, p[|p| - 1 - j], p[|p| - 1 - i]);
    }
  }

  /** Searching forwards or backwards finds cycles in the same graphs. */
  lemma ReversedAcyclic(g: Digraph, h: Digraph)
    requires Reversed(g, h)
    ensures Acyclic(g) <==> Acyclic(h)
  {
    if !Acyclic(g) {
      var p :| Cycle(g, p);
      ReversedCycle(g, h, p);
    }
    if !Acyclic(h) {
      var p :| Cycle(h, p);
      ReversedCycle(h, g, p);
    }
  }
}
