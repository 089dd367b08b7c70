/** Cycle detection by coloured depth-first search (api/pkg/engine/dag.go, DetectCycles). White nodes are not
    in `color`. The order in which the search discovers the nodes decides which edge of a cycle closes it, and
    so which cycles are reported. */
module Cycles {
  import opened Pipelines
  import opened Sequences
  import opened Strings
  import opened Digraphs
  import opened Dags
  import opened Rotations

  datatype Color = White | Gray | Black

  /** A cycle whose nodes, but for the repeated end point, are distinct. */
  ghost predicate SimpleCycle(g: Digraph, c: seq<NodeID>) {
    Cycle(g, c) && Distinct(Inner(c))
  }

  /** An edge from the top of the stack to the node at `idx` closes a simple cycle. */
  lemma SuffixCycle(g: Digraph, stack: seq<NodeID>, idx: nat)
    requires Closed(g) && Linked(g, stack) && Distinct(stack) && idx < |stack|
    requires Edge(g, stack[|stack| - 1], stack[idx])
    ensures Inner(stack[idx..] + [stack[idx]]) == stack[idx..]
    ensures SimpleCycle(g, stack[idx..] + [stack[idx]])
  {
    assert Edge(g, stack[|stack| - 1], stack[idx]);
  }

  // ---- The order of discovery ----

  /** Depth-first search from each of `todo` in turn, after `seen`: the nodes in the order of discovery. */
  ghost function Discover(g: Digraph, seen: seq<NodeID>, todo: seq<NodeID>): (r: seq<NodeID>)
    requires Closed(g) && forall x :: x in todo ==> x in g
    ensures seen <= r
    decreases |g.Keys - Elements(seen)|, |todo|
  {
    if todo == [] then seen
    else
      var x := todo[0];
      if x in seen then Discover(g, seen, todo[1..])
      else
        Fewer(g, seen, x, seen + [x]);
        SortMembers(g[x]);
        var next := Discover(g, seen + [x], Sort(g[x]));
        Fewer(g, seen, x, next);
        Discover(g, next, todo[1..])
  }

  lemma Fewer(g: Digraph, seen: seq<NodeID>, x: NodeID, next: seq<NodeID>)
    requires x in g && x !in seen && seen + [x] <= next
    ensures |g.Keys - Elements(next)| < |g.Keys - Elements(seen)|
  {
    var a, b := g.Keys - Elements(seen), g.Keys - Elements(next);
    assert x == next[|seen|];
    forall y | y in seen ensures y in next {
      var i :| 0 <= i < |seen| && seen[i] == y;
      assert next[i] == (seen + [x])[i] == y;
    }
    assert b <= a - {x};
    SubsetSize(b, a - {x});
  }

  /** The search starts from the nodes in the order of their names. */
  ghost function Preorder(g: Digraph): seq<NodeID>
    requires Closed(g)
  {
    Discover(g, [], Listed(g.Keys))
  }

  /** `x` stands before `y` in `s`. */
  ghost predicate Before(s: seq<NodeID>, x: NodeID, y: NodeID) {
    exists i, j :: 0 <= i < j < |s| && s[i] == x && s[j] == y
  }

  /** In the order of discovery, `y` is the first node of the cycle and `x` the node before it on the cycle:
      the edge from `x` to `y` is the one that the search finds closing the cycle. */
  ghost predicate Closes(found: seq<NodeID>, c: seq<NodeID>, x: NodeID, y: NodeID) {
    && Joined(Inner(c), x, y) && y in found
    && forall z :: z in Inner(c) && z != y ==> Before(found, y, z)
  }

  // ---- The state of a search ----

  /** The colours, the stack, the cycles and their keys; the nodes in the order of discovery and in the order of
      completion; and for every edge that led back into the stack the path that it closed. */
  datatype Search = Search(
    color: map<NodeID, Color>,
    stack: seq<NodeID>,
    cycles: seq<seq<NodeID>>,
    reported: set<string>,
    found: seq<NodeID>,
    finished: seq<NodeID>,
    backs: Backs)

  ghost predicate Colored(g: Digraph, s: Search) {
    && Distinct(s.found) && Distinct(s.finished) && Distinct(s.stack)
    && Shades(g, s.color, s.found, s.finished, s.stack)
    && Linked(g, s.stack) && Ordered(s.found, s.stack)
  }

  ghost predicate Shades(g: Digraph, color: map<NodeID, Color>, found: seq<NodeID>, finished: seq<NodeID>,
                         stack: seq<NodeID>)
  {
    && (forall x :: x in found <==> x in color)
    && (forall x :: x in finished <==> x in color && color[x] == Black)
    && (forall x :: x in stack <==> x in color && color[x] == Gray)
    && (forall x :: x in color ==> x in g && color[x] != White)
  }

  /** The stack is in the order of discovery. */
  ghost predicate Ordered(found: seq<NodeID>, stack: seq<NodeID>) {
    forall i, j :: 0 <= i < j < |stack| ==> Before(found, stack[i], stack[j])
  }

  /** The path of the back edge from `x` to `y`, which begins at `y`. */
  ghost predicate BackPath(g: Digraph, found: seq<NodeID>, p: seq<NodeID>, x: NodeID, y: NodeID) {
    SimpleCycle(g, p) && Closes(found, p, x, y) && p[0] == y
  }

  /** The cycle through `x` on the stack, cut where `y` is. */
  ghost predicate OnStack(stack: seq<NodeID>, p: seq<NodeID>, x: NodeID, y: NodeID) {
    exists a, k :: 0 <= a <= k < |stack| && stack[k] == x && stack[a] == y && p == stack[a..k + 1] + [y]
  }

  type Backs = map<(NodeID, NodeID), seq<NodeID>>

  /** Every back edge has its path, and its key is known. */
  ghost predicate BackPaths(g: Digraph, found: seq<NodeID>, backs: Backs, reported: set<string>) {
    forall e :: e in backs ==> BackPath(g, found, backs[e], e.0, e.1) && Key(backs[e]) in reported
  }

  ghost predicate OnStacks(stack: seq<NodeID>, backs: Backs) {
    forall e :: e in backs && e.0 in stack ==> OnStack(stack, backs[e], e.0, e.1)
  }

  /** For every known key one path of a back edge is reported. */
  ghost predicate Reports(cycles: seq<seq<NodeID>>, reported: set<string>, backs: Backs) {
    && (forall i :: 0 <= i < |cycles| ==> Key(cycles[i]) in reported && cycles[i] in backs.Values)
    && (forall k :: k in reported ==> exists i :: 0 <= i < |cycles| && Key(cycles[i]) == k)
    && (forall i, j :: 0 <= i < j < |cycles| ==> Key(cycles[i]) != Key(cycles[j]))
  }

  ghost predicate Recorded(g: Digraph, s: Search) {
    BackPaths(g, s.found, s.backs, s.reported) && OnStacks(s.stack, s.backs) && Reports(s.cycles, s.reported, s.backs)
  }

  /** Successors of finished nodes have been found; an edge of a finished node leads to a node finished earlier or
      back into the stack; and what was found from a node was finished before it. */
  ghost predicate Traced(g: Digraph, s: Search) {
    && (forall x, y :: x in s.finished && Edge(g, x, y) ==> y in s.found)
    && Backed(g, s.finished, s.backs.Keys)
    && forall j, x, y :: 0 <= j < |s.finished| && x in s.finished[..j + 1] && Edge(g, x, y) ==>
         Nested(s.found, s.finished, j, x, y)
  }

  ghost predicate Backed(g: Digraph, finished: seq<NodeID>, backs: set<(NodeID, NodeID)>) {
    forall i, y :: 0 <= i < |finished| && Edge(g, finished[i], y) ==> y in finished[..i] || (finished[i], y) in backs
  }

  ghost predicate Nested(found: seq<NodeID>, finished: seq<NodeID>, j: nat, x: NodeID, y: NodeID)
    requires j < |finished|
  {
    Before(found, x, finished[j]) || Before(found, y, finished[j]) || y in finished[..j + 1]
  }

  ghost predicate Searching(g: Digraph, s: Search) {
    Colored(g, s) && Recorded(g, s) && Traced(g, s)
  }

  // ---- Standing before ----

  lemma BeforeGrows(s: seq<NodeID>, t: seq<NodeID>, x: NodeID, y: NodeID)
    requires Before(s, x, y) && s <= t
    ensures Before(t, x, y)
  {
    var i, j :| 0 <= i < j < |s| && s[i] == x && s[j] == y;
    assert t[i] == x && t[j] == y;
  }

  lemma BeforeOrder(s: seq<NodeID>, x: NodeID, y: NodeID)
    requires Distinct(s) && x in s && y in s
    ensures x == y || Before(s, x, y) || Before(s, y, x)
    ensures !(Before(s, x, y) && Before(s, y, x)) && !Before(s, x, x)
  {
    var i :| 0 <= i < |s| && s[i] == x;
    var j :| 0 <= j < |s| && s[j] == y;
  }

  lemma ClosesGrows(found: seq<NodeID>, more: seq<NodeID>, c: seq<NodeID>, x: NodeID, y: NodeID)
    requires Closes(found, c, x, y) && found <= more
    ensures Closes(more, c, x, y)
  {
    forall z | z in Inner(c) && z != y ensures Before(more, y, z) {
      BeforeGrows(found, more, y, z);
    }
  }

  // ---- A node is discovered ----

  ghost function Entered(s: Search, id: NodeID): Search {
    s.(color := s.color[id := Gray], stack := s.stack + [id], found := s.found + [id])
  }

  lemma DistinctSnoc(s: seq<NodeID>, x: NodeID)
    requires Distinct(s) && x !in s
    ensures Distinct(s + [x])
  {
    forall i, j | 0 <= i < j < |s + [x]| ensures (s + [x])[i] != (s + [x])[j] {
      assert i < |s| && s[i] in s;
    }
  }

  lemma EnterColored(g: Digraph, s: Search, id: NodeID)
    requires Colored(g, s) && id in g && id !in s.color && (s.stack != [] ==> Edge(g, s.stack[|s.stack| - 1], id))
    ensures Colored(g, Entered(s, id))
  {
    EnterShades(g, s, id);
    hide Shades;
    DistinctSnoc(s.found, id);
    DistinctSnoc(s.stack, id);
    EnterOrdered(s, id);
    LinkedSnoc(g, s.stack, id);
  }

  lemma EnterShades(g: Digraph, s: Search, id: NodeID)
    requires Shades(g, s.color, s.found, s.finished, s.stack) && id in g && id !in s.color
    ensures var t := Entered(s, id); Shades(g, t.color, t.found, t.finished, t.stack)
    ensures id !in s.found && id !in s.stack && id !in s.finished
    ensures forall x :: x in s.stack ==> x in s.found
  {
  }

  lemma LinkedSnoc(g: Digraph, p: seq<NodeID>, x: NodeID)
    requires Linked(g, p) && (p != [] ==> Edge(g, p[|p| - 1], x))
    ensures Linked(g, p + [x])
  {
  }

  lemma EnterOrdered(s: Search, id: NodeID)
    requires Ordered(s.found, s.stack) && forall x :: x in s.stack ==> x in s.found
    ensures Ordered(s.found + [id], s.stack + [id])
  {
    var found, stack := s.found + [id], s.stack + [id];
    forall i, j | 0 <= i < j < |stack| ensures Before(found, stack[i], stack[j]) {
      if j < |s.stack| {
        BeforeGrows(s.found, found, s.stack[i], s.stack[j]);
      } else {
        assert s.stack[i] in s.stack;
        var k :| 0 <= k < |s.found| && s.found[k] == stack[i];
        assert found[k] == stack[i] && found[|s.found|] == id;
      }
    }
  }

  lemma EnterRecorded(g: Digraph, s: Search, id: NodeID)
    requires Recorded(g, s) && Colored(g, s) && id !in s.color
    ensures Recorded(g, Entered(s, id))
  {
    var t := Entered(s, id);
    forall e | e in s.backs ensures BackPath(g, t.found, t.backs[e], e.0, e.1) {
      ClosesGrows(s.found, t.found, s.backs[e], e.0, e.1);
    }
    forall e | e in t.backs && e.0 in t.stack ensures OnStack(t.stack, t.backs[e], e.0, e.1) {
      BackSource(g, s, e);
      assert id !in s.found;
      StackGrows(s.stack, id, s.backs[e], e.0, e.1);
    }
  }

  /** The source of a back edge has been found. */
  lemma BackSource(g: Digraph, s: Search, e: (NodeID, NodeID))
    requires BackPaths(g, s.found, s.backs, s.reported) && e in s.backs
    ensures e.0 in s.found
  {
    var p := Inner(s.backs[e]);
    assert Closes(s.found, s.backs[e], e.0, e.1);
    if e.0 != e.1 {
      assert Before(s.found, e.1, e.0);
    }
  }

  lemma StackGrows(stack: seq<NodeID>, id: NodeID, p: seq<NodeID>, x: NodeID, y: NodeID)
    requires OnStack(stack, p, x, y)
    ensures OnStack(stack + [id], p, x, y)
  {
    var a, k :| 0 <= a <= k < |stack| && stack[k] == x && stack[a] == y && p == stack[a..k + 1] + [y];
    var more := stack + [id];
    assert more[a..k + 1] == stack[a..k + 1] && more[k] == x && more[a] == y;
  }

  lemma EnterTraced(g: Digraph, s: Search, id: NodeID)
    requires Traced(g, s)
    ensures Traced(g, Entered(s, id))
  {
    var t := Entered(s, id);
    forall j, x, y | 0 <= j < |s.finished| && x in s.finished[..j + 1] && Edge(g, x, y)
      ensures Nested(t.found, t.finished, j, x, y)
    {
      assert Nested(s.found, s.finished, j, x, y);
      NestedGrows(s.found, t.found, s.finished, j, x, y);
    }
  }

  lemma NestedGrows(found: seq<NodeID>, more: seq<NodeID>, finished: seq<NodeID>, j: nat, x: NodeID, y: NodeID)
    requires j < |finished| && Nested(found, finished, j, x, y) && found <= more
    ensures Nested(more, finished, j, x, y)
  {
    if Before(found, x, finished[j]) {
      BeforeGrows(found, more, x, finished[j]);
    } else if Before(found, y, finished[j]) {
      BeforeGrows(found, more, y, finished[j]);
    }
  }

  // ---- A node is finished ----

  ghost function Left(s: Search): Search
    requires s.stack != []
  {
    var n := |s.stack| - 1;
    s.(color := s.color[s.stack[n] := Black], stack := s.stack[..n], finished := s.finished + [s.stack[n]])
  }

  lemma LeaveColored(g: Digraph, s: Search)
    requires Colored(g, s) && s.stack != []
    ensures Colored(g, Left(s))
  {
    var n := |s.stack| - 1;
    LeaveShades(g, s);
    hide Shades;
    DistinctSnoc(s.finished, s.stack[n]);
    StackBelow(g, s.found, s.stack);
  }

  lemma StackBelow(g: Digraph, found: seq<NodeID>, stack: seq<NodeID>)
    requires Distinct(stack) && Linked(g, stack) && Ordered(found, stack) && stack != []
    ensures var below := stack[..|stack| - 1]; Distinct(below) && Linked(g, below) && Ordered(found, below)
  {
  }

  lemma LeaveShades(g: Digraph, s: Search)
    requires Shades(g, s.color, s.found, s.finished, s.stack) && s.stack != [] && Distinct(s.stack)
    ensures var t := Left(s); Shades(g, t.color, t.found, t.finished, t.stack)
    ensures s.stack[|s.stack| - 1] !in s.finished
  {
    var below, id := s.stack[..|s.stack| - 1], s.stack[|s.stack| - 1];
    assert s.stack == below + [id];
    assert id in s.stack && id !in below;
    assert forall x :: x in below <==> x in s.stack && x != id;
  }

  lemma LeaveRecorded(g: Digraph, s: Search)
    requires Recorded(g, s) && Distinct(s.stack) && s.stack != []
    ensures Recorded(g, Left(s))
  {
    hide Reports, BackPaths, OnStacks, Distinct;
    OnStacksBelow(s.stack, s.backs);
  }

  lemma OnStacksBelow(stack: seq<NodeID>, backs: Backs)
    requires OnStacks(stack, backs) && Distinct(stack) && stack != []
    ensures OnStacks(stack[..|stack| - 1], backs)
  {
    var below := stack[..|stack| - 1];
    hide OnStack, Distinct;
    forall e | e in backs && e.0 in below ensures OnStack(below, backs[e], e.0, e.1) {
      assert stack == below + [stack[|stack| - 1]];
      StackShrinks(stack, backs[e], e.0, e.1);
    }
  }

  lemma StackShrinks(stack: seq<NodeID>, p: seq<NodeID>, x: NodeID, y: NodeID)
    requires Distinct(stack) && stack != [] && OnStack(stack, p, x, y) && x in stack[..|stack| - 1]
    ensures OnStack(stack[..|stack| - 1], p, x, y)
  {
    var below := stack[..|stack| - 1];
    var a, k: nat :| 0 <= a <= k < |stack| && stack[k] == x && stack[a] == y && p == stack[a..k + 1] + [y];
    var m :| 0 <= m < |below| && below[m] == x;
    hide OnStack, Distinct;
    SamePlace(stack, k, m);
    assert below[a..k + 1] == stack[a..k + 1];
    OnStackAt(below, p, x, y, a, k);
  }

  lemma OnStackAt(stack: seq<NodeID>, p: seq<NodeID>, x: NodeID, y: NodeID, a: nat, k: nat)
    requires a <= k < |stack| && stack[k] == x && stack[a] == y && p == stack[a..k + 1] + [y]
    ensures OnStack(stack, p, x, y)
  {
  }

  lemma SamePlace(s: seq<NodeID>, i: nat, j: nat)
    requires Distinct(s) && i < |s| && j < |s| && s[i] == s[j]
    ensures i == j
  {
  }

  /** Where the edges of the node on top of the stack lead when it is left. */
  ghost predicate Exhausted(g: Digraph, s: Search) {
    && s.stack != []
    && var id := s.stack[|s.stack| - 1];
       forall y :: Edge(g, id, y) ==> (y in s.color && s.color[y] == Black) || (id, y) in s.backs
  }

  lemma LeaveTraced(g: Digraph, s: Search)
    requires Searching(g, s) && Exhausted(g, s)
    ensures Traced(g, Left(s))
  {
    var t := Left(s);
    assert t.found == s.found && t.backs == s.backs && t.finished == s.finished + [s.stack[|s.stack| - 1]];
    LeaveBacked(g, s);
    forall x, y | x in t.finished && Edge(g, x, y) ensures y in t.found {
      LeaveFound(g, s, x, y);
    }
    hide Searching, Colored, Recorded, Exhausted, Left, Nested, Backed, Edge;
    forall j, x, y | 0 <= j < |t.finished| && x in t.finished[..j + 1] && Edge(g, x, y)
      ensures Nested(t.found, t.finished, j, x, y)
    {
      LeaveNested(g, s, j, x, y);
    }
  }

  /** What the edges of the node on top of the stack, and of finished nodes, lead to has been found. */
  lemma LeaveFound(g: Digraph, s: Search, x: NodeID, y: NodeID)
    requires Searching(g, s) && Exhausted(g, s) && x in Left(s).finished && Edge(g, x, y)
    ensures y in s.found
  {
    hide Ordered, Backed, OnStacks, Reports, Nested, Linked;
    if x == s.stack[|s.stack| - 1] && (x, y) in s.backs {
      assert BackPath(g, s.found, s.backs[(x, y)], x, y);
    }
  }

  lemma LeaveNested(g: Digraph, s: Search, j: nat, x: NodeID, y: NodeID)
    requires Searching(g, s) && Exhausted(g, s) && j < |Left(s).finished|
    requires x in Left(s).finished[..j + 1] && Edge(g, x, y)
    ensures Nested(s.found, Left(s).finished, j, x, y)
  {
    hide *;
    LeftParts(g, s);
    var id := s.stack[|s.stack| - 1];
    LeaveFound(g, s, x, y);
    if j < |s.finished| {
      assert (s.finished + [id])[..j + 1] == s.finished[..j + 1];
      NestedNow(g, s, j, x, y);
      NestedMore(s.found, s.finished, id, j, x, y);
    } else {
      assert (s.finished + [id])[..j + 1] == s.finished + [id];
      AfterTop(g, s, y);
      NestedLast(s.found, s.finished, id, x, y);
    }
  }

  lemma LeftParts(g: Digraph, s: Search)
    requires Searching(g, s) && Exhausted(g, s)
    ensures s.stack != [] && Left(s).finished == s.finished + [s.stack[|s.stack| - 1]]
    ensures Colored(g, s) && Traced(g, s)
  {
    hide Colored, Traced, Recorded;
  }

  lemma NestedNow(g: Digraph, s: Search, j: nat, x: NodeID, y: NodeID)
    requires Traced(g, s) && j < |s.finished| && x in s.finished[..j + 1] && Edge(g, x, y)
    ensures Nested(s.found, s.finished, j, x, y)
  {
    hide Nested, Backed, Edge;
  }

  lemma NestedMore(found: seq<NodeID>, finished: seq<NodeID>, id: NodeID, j: nat, x: NodeID, y: NodeID)
    requires j < |finished| && Nested(found, finished, j, x, y)
    ensures Nested(found, finished + [id], j, x, y)
  {
    hide Before;
    assert (finished + [id])[..j + 1] == finished[..j + 1];
  }

  lemma NestedLast(found: seq<NodeID>, finished: seq<NodeID>, id: NodeID, x: NodeID, y: NodeID)
    requires y == id || y in finished || Before(found, y, id)
    ensures Nested(found, finished + [id], |finished|, x, y)
  {
    hide Before;
    assert (finished + [id])[..|finished| + 1] == finished + [id];
  }

  lemma LeaveBacked(g: Digraph, s: Search)
    requires Colored(g, s) && Exhausted(g, s) && Backed(g, s.finished, s.backs.Keys)
    ensures Backed(g, Left(s).finished, s.backs.Keys)
  {
    var t, n := Left(s), |s.finished|;
    forall i, y | 0 <= i < |t.finished| && Edge(g, t.finished[i], y)
      ensures y in t.finished[..i] || (t.finished[i], y) in s.backs
    {
      if i < n {
        assert t.finished[..i] == s.finished[..i];
      } else {
        assert t.finished[..i] == s.finished;
      }
    }
  }

  /** What was found after the top of the stack is finished. */
  lemma AfterTop(g: Digraph, s: Search, y: NodeID)
    requires Colored(g, s) && s.stack != [] && y in s.found
    ensures var id := s.stack[|s.stack| - 1]; y == id || y in s.finished || Before(s.found, y, id)
  {
    var n := |s.stack| - 1;
    assert s.stack[n] in s.stack;
    if y in s.stack {
      var i :| 0 <= i < |s.stack| && s.stack[i] == y;
    } else {
      assert y in s.color;
    }
  }

  // ---- An edge leads back into the stack ----

  ghost function Noted(s: Search, idx: nat): Search
    requires idx < |s.stack|
  {
    var path := s.stack[idx..] + [s.stack[idx]];
    var t := s.(backs := s.backs[(s.stack[|s.stack| - 1], s.stack[idx]) := path]);
    if Key(path) in s.reported then t
    else t.(reported := s.reported + {Key(path)}, cycles := s.cycles + [path])
  }

  lemma NoteTraced(g: Digraph, s: Search, idx: nat)
    requires Traced(g, s) && idx < |s.stack|
    ensures Traced(g, Noted(s, idx))
  {
    assert forall e :: e in s.backs ==> e in Noted(s, idx).backs;
  }

  lemma StackFacts(g: Digraph, s: Search)
    requires Colored(g, s)
    ensures Distinct(s.stack) && Linked(g, s.stack) && Ordered(s.found, s.stack)
    ensures forall x :: x in s.stack ==> x in s.found
  {
    hide Distinct, Linked, Ordered;
  }

  lemma NotePath(g: Digraph, s: Search, idx: nat)
    requires Closed(g) && Colored(g, s) && idx < |s.stack| && Edge(g, s.stack[|s.stack| - 1], s.stack[idx])
    ensures var path := s.stack[idx..] + [s.stack[idx]];
            && BackPath(g, s.found, path, s.stack[|s.stack| - 1], s.stack[idx])
            && OnStack(s.stack, path, s.stack[|s.stack| - 1], s.stack[idx])
  {
    hide Colored, Linked, Distinct, Ordered, SimpleCycle, Closes, OnStack, Edge, Closed;
    StackFacts(g, s);
    assert s.stack[idx] in s.stack;
    SuffixCycle(g, s.stack, idx);
    SuffixCloses(s.found, s.stack, idx);
    assert s.stack[idx..|s.stack| - 1 + 1] == s.stack[idx..];
    OnStackAt(s.stack, s.stack[idx..] + [s.stack[idx]], s.stack[|s.stack| - 1], s.stack[idx], idx, |s.stack| - 1);
  }

  lemma SuffixCloses(found: seq<NodeID>, stack: seq<NodeID>, idx: nat)
    requires idx < |stack| && Ordered(found, stack) && stack[idx] in found
    ensures Closes(found, stack[idx..] + [stack[idx]], stack[|stack| - 1], stack[idx])
  {
    var p := stack[idx..];
    var path := p + [stack[idx]];
    assert Inner(path) == p && p[|p| - 1] == stack[|stack| - 1] && p[0] == stack[idx] && Following(p, |p| - 1) == 0;
    forall z | z in p && z != stack[idx] ensures Before(found, stack[idx], z) {
      var i :| 0 <= i < |p| && p[i] == z;
      assert stack[idx + i] == z;
    }
  }

  /** Meeting the same edge again closes the same path. */
  lemma NoteAgain(stack: seq<NodeID>, p: seq<NodeID>, idx: nat)
    requires Distinct(stack) && idx < |stack| && OnStack(stack, p, stack[|stack| - 1], stack[idx])
    ensures p == stack[idx..] + [stack[idx]]
  {
    var n := |stack| - 1;
    var a, k :| 0 <= a <= k < |stack| && stack[k] == stack[n] && stack[a] == stack[idx]
                && p == stack[a..k + 1] + [stack[idx]];
    assert k == n && a == idx;
    assert stack[idx..n + 1] == stack[idx..];
  }

  lemma NoteKnown(g: Digraph, s: Search, idx: nat)
    requires Colored(g, s) && OnStacks(s.stack, s.backs) && idx < |s.stack|
    ensures var e := (s.stack[|s.stack| - 1], s.stack[idx]);
            e in s.backs ==> s.backs[e] == s.stack[idx..] + [s.stack[idx]]
  {
    hide Colored, OnStack, Distinct;
    StackFacts(g, s);
    var e := (s.stack[|s.stack| - 1], s.stack[idx]);
    if e in s.backs {
      assert e.0 in s.stack;
      NoteAgain(s.stack, s.backs[e], idx);
    }
  }

  lemma NoteRecorded(g: Digraph, s: Search, idx: nat)
    requires Closed(g) && Colored(g, s) && Recorded(g, s)
    requires idx < |s.stack| && Edge(g, s.stack[|s.stack| - 1], s.stack[idx])
    ensures Recorded(g, Noted(s, idx))
  {
    hide BackPath, OnStack, Colored, Key, Reports, BackPaths, OnStacks, Edge, Closed;
    NotePath(g, s, idx);
    NoteKnown(g, s, idx);
    var e, path := (s.stack[|s.stack| - 1], s.stack[idx]), s.stack[idx..] + [s.stack[idx]];
    NoteReports(s.cycles, s.reported, s.backs, e, path);
    NoteBack(g, s.found, s.stack, s.backs, s.reported, e, path);
  }

  lemma NoteBack(g: Digraph, found: seq<NodeID>, stack: seq<NodeID>, backs: Backs, reported: set<string>,
                 e: (NodeID, NodeID), path: seq<NodeID>)
    requires BackPaths(g, found, backs, reported) && OnStacks(stack, backs)
    requires BackPath(g, found, path, e.0, e.1) && OnStack(stack, path, e.0, e.1)
    ensures BackPaths(g, found, backs[e := path], reported + {Key(path)}) && OnStacks(stack, backs[e := path])
  {
    hide BackPath, OnStack, Key;
  }

  lemma NoteReports(cycles: seq<seq<NodeID>>, reported: set<string>, backs: Backs, e: (NodeID, NodeID),
                    path: seq<NodeID>)
    requires Reports(cycles, reported, backs) && (e in backs ==> backs[e] == path)
    ensures Reports(if Key(path) in reported then cycles else cycles + [path], reported + {Key(path)}, backs[e := path])
    ensures Key(path) in reported ==> reported + {Key(path)} == reported
  {
    hide Key;
    var more := if Key(path) in reported then cycles else cycles + [path];
    assert e in backs[e := path].Keys && path in backs[e := path].Values;
    forall c | c in backs.Values ensures c in backs[e := path].Values {
      var f :| f in backs && backs[f] == c;
      assert backs[e := path][f] == c;
    }
    forall k | k in reported + {Key(path)} ensures exists i :: 0 <= i < |more| && Key(more[i]) == k {
      if k in reported {
        var i :| 0 <= i < |cycles| && Key(cycles[i]) == k;
        assert Key(more[i]) == k;
      } else {
        assert Key(more[|cycles|]) == k;
      }
    }
  }

  // ---- The search ----

  ghost function Visited(g: Digraph, seen: seq<NodeID>, x: NodeID): seq<NodeID>
    requires Closed(g) && x in g
  {
    SortMembers(g[x]);
    Discover(g, seen + [x], Sort(g[x]))
  }

  lemma Successors(g: Digraph, seen: seq<NodeID>, id: NodeID)
    requires Closed(g) && id in g
    ensures forall x :: x in Sort(g[id]) <==> Edge(g, id, x)
    ensures forall x :: x in Sort(g[id]) ==> x in g
    ensures Visited(g, seen, id) == Discover(g, seen + [id], Sort(g[id]))
  {
    SortMembers(g[id]);
  }

  lemma DiscoverStep(g: Digraph, seen: seq<NodeID>, todo: seq<NodeID>, i: nat)
    requires Closed(g) && (forall x :: x in todo ==> x in g) && i < |todo|
    ensures Discover(g, seen, todo[i..])
         == Discover(g, if todo[i] in seen then seen else Visited(g, seen, todo[i]), todo[i + 1..])
  {
    assert todo[i..][1..] == todo[i + 1..] && todo[i..][0] == todo[i];
  }

  // ---- What a visit leaves alone ----

  /** Earlier colours and back edges are kept. */
  ghost predicate Kept(color: map<NodeID, Color>, backs: Backs, color': map<NodeID, Color>, backs': Backs) {
    && (forall x :: x in color ==> x in color' && color'[x] == color[x])
    && forall e :: e in backs ==> e in backs'
  }

  lemma KeptOn(c: map<NodeID, Color>, b: Backs, c': map<NodeID, Color>, b': Backs, c'': map<NodeID, Color>, b'': Backs)
    requires Kept(c, b, c', b') && Kept(c', b', c'', b'')
    ensures Kept(c, b, c'', b'')
  {
  }

  lemma KeptKeys(c: map<NodeID, Color>, b: Backs, c': map<NodeID, Color>, b': Backs)
    requires Kept(c, b, c', b')
    ensures c.Keys <= c'.Keys
    ensures forall x :: x in c ==> x in c' && c'[x] == c[x]
  {
  }

  lemma LessToVisit(g: Digraph, c: map<NodeID, Color>, id: NodeID, c': map<NodeID, Color>)
    requires id in g && id !in c && id in c' && c.Keys <= c'.Keys
    ensures g.Keys - c'.Keys < g.Keys - c.Keys
  {
    assert id in g.Keys - c.Keys;
  }

  lemma NoMoreToVisit(g: Digraph, c: map<NodeID, Color>, b: Backs, c': map<NodeID, Color>, b': Backs)
    requires Kept(c, b, c', b')
    ensures g.Keys - c'.Keys == g.Keys - c.Keys || g.Keys - c'.Keys < g.Keys - c.Keys
  {
    assert c.Keys <= c'.Keys;
  }

  lemma KeptEntering(c: map<NodeID, Color>, b: Backs, id: NodeID, color: Color)
    requires id !in c
    ensures Kept(c, b, c[id := color], b)
  {
  }

  lemma KeptLeaving(c: map<NodeID, Color>, b: Backs, id: NodeID, c': map<NodeID, Color>, b': Backs, color: Color)
    requires Kept(c, b, c', b') && id !in c
    ensures Kept(c, b, c'[id := color], b')
  {
  }

  lemma KeptReporting(c: map<NodeID, Color>, b: Backs, b': Backs)
    requires forall e :: e in b ==> e in b'
    ensures Kept(c, b, c, b')
  {
  }

  /** The first `n` edges from `id` to `nexts` have been followed. */
  ghost predicate Followed(color: map<NodeID, Color>, backs: Backs, id: NodeID, nexts: seq<NodeID>, n: nat)
    requires n <= |nexts|
  {
    forall j :: 0 <= j < n ==> (nexts[j] in color && color[nexts[j]] == Black) || (id, nexts[j]) in backs
  }

  lemma FollowedNone(color: map<NodeID, Color>, backs: Backs, id: NodeID, nexts: seq<NodeID>)
    ensures Followed(color, backs, id, nexts, 0)
  {
  }

  lemma FollowedMore(c: map<NodeID, Color>, b: Backs, c': map<NodeID, Color>, b': Backs, id: NodeID,
                     nexts: seq<NodeID>, n: nat)
    requires n < |nexts| && Followed(c, b, id, nexts, n) && Kept(c, b, c', b')
    requires (nexts[n] in c' && c'[nexts[n]] == Black) || (id, nexts[n]) in b'
    ensures Followed(c', b', id, nexts, n + 1)
  {
  }

  class CycleSearch {
    const graph: Digraph
    var color: map<NodeID, Color>
    var stack: seq<NodeID>
    var cycles: seq<seq<NodeID>>
    var reported: set<string>
    ghost var found: seq<NodeID>
    ghost var finished: seq<NodeID>
    ghost var backs: Backs

    function ColorOf(id: NodeID): Color
      reads this
    {
      if id in color then color[id] else White
    }

    ghost function Current(): Search
      reads this
    {
      Search(color, stack, cycles, reported, found, finished, backs)
    }

    ghost predicate Valid()
      reads this
    {
      Closed(graph) && Searching(graph, Current())
    }

    constructor (g: Digraph)
      requires Closed(g)
      ensures Valid() && graph == g && color == map[] && stack == [] && found == []
    {
      graph := g;
      color, stack, cycles, reported, found, finished, backs := map[], [], [], {}, [], [], map[];
    }

    /** Search from every root in turn. */
    method SearchAll(roots: seq<NodeID>)
      requires Valid() && stack == [] && found == []
      requires forall id :: id in roots <==> id in graph
      modifies this
      ensures Valid() && stack == [] && (forall id :: id in graph ==> id in color)
      ensures found == Discover(graph, [], roots)
    {
      hide Searching, Discover, Visited, Kept, Closed, Edge;
      assert roots[0..] == roots;
      for i := 0 to |roots|
        invariant Valid() && stack == [] && Discover(graph, [], roots) == Discover(graph, found, roots[i..])
        invariant forall j :: 0 <= j < i ==> roots[j] in color
      {
        FoundColored(graph, Current(), roots[i]);
        DiscoverStep(graph, found, roots, i);
        if ColorOf(roots[i]) == White {
          ghost var c, b := color, backs;
          Dfs(roots[i]);
          KeptKeys(c, b, color, backs);
        }
      }
      DiscoverNothing(graph, found, roots);
    }

    /** Visit a white node: on return it is black, the stack is as before, and what was found in between is what
        depth-first search finds from it. */
    method Dfs(id: NodeID)
      requires Valid() && id in graph && ColorOf(id) == White
      requires stack != [] ==> Edge(graph, stack[|stack| - 1], id)
      modifies this
      ensures Valid() && stack == old(stack) && ColorOf(id) == Black
      ensures Kept(old(color), old(backs), color, backs)
      ensures found == Visited(graph, old(found), id)
      decreases graph.Keys - color.Keys, 0
    {
      hide Searching, Discover, Exhausted, Visited, Closed, Edge, Sort, Left, Kept, Followed;
      Successors(graph, found, id);
      FoundColored(graph, Current(), id);
      KeptEntering(color, backs, id, Gray);
      Enter(id);
      ghost var entered := color;
      LessToVisit(graph, old(color), id, entered);
      var nexts := Sort(graph[id]);
      FollowAll(nexts);
      AllFollowed(graph, Current(), id, nexts);
      KeptOn(old(color), old(backs), entered, old(backs), color, backs);
      KeptLeaving(old(color), old(backs), id, color, backs, Black);
      Leave();
    }

    /** All edges from the node on top of the stack, in turn. */
    method FollowAll(nexts: seq<NodeID>)
      requires Valid() && stack != []
      requires forall x :: x in nexts ==> x in graph && Edge(graph, stack[|stack| - 1], x)
      modifies this
      ensures Valid() && stack == old(stack) && Kept(old(color), old(backs), color, backs)
      ensures Followed(color, backs, stack[|stack| - 1], nexts, |nexts|)
      ensures found == Discover(graph, old(found), nexts)
      decreases graph.Keys - color.Keys, 2
    {
      hide Searching, Discover, Visited, Closed, Edge, Kept, Followed;
      ghost var id := stack[|stack| - 1];
      assert nexts[0..] == nexts;
      FollowedNone(color, backs, id, nexts);
      KeptReporting(color, backs, backs);
      for i := 0 to |nexts|
        invariant Valid() && stack == old(stack)
        invariant Kept(old(color), old(backs), color, backs)
        invariant Discover(graph, old(found), nexts) == Discover(graph, found, nexts[i..])
        invariant Followed(color, backs, id, nexts, i)
      {
        ghost var c, b := color, backs;
        DiscoverStep(graph, found, nexts, i);
        NoMoreToVisit(graph, old(color), old(backs), c, b);
        Follow(nexts[i]);
        KeptOn(old(color), old(backs), c, b, color, backs);
        FollowedMore(c, b, color, backs, id, nexts, i);
      }
      DiscoverNothing(graph, found, nexts);
    }

    /** The edge from the node on top of the stack to `nxt`. */
    method Follow(nxt: NodeID)
      requires Valid() && stack != [] && nxt in graph && Edge(graph, stack[|stack| - 1], nxt)
      modifies this
      ensures Valid() && stack == old(stack) && Kept(old(color), old(backs), color, backs)
      ensures ColorOf(nxt) == Black || (stack[|stack| - 1], nxt) in backs
      ensures found == if nxt in old(found) then old(found) else Visited(graph, old(found), nxt)
      decreases graph.Keys - color.Keys, 1
    {
      hide Searching, Discover, Exhausted, Visited, Closed, Edge, Sort, Left, Kept;
      FoundColored(graph, Current(), nxt);
      match ColorOf(nxt) {
        case Gray =>
          Report(nxt);
          KeptReporting(color, old(backs), backs);
        case White =>
          Dfs(nxt);
        case Black =>
          KeptReporting(color, backs, backs);
      }
    }

    method Enter(id: NodeID)
      requires Valid() && id in graph && ColorOf(id) == White
      requires stack != [] ==> Edge(graph, stack[|stack| - 1], id)
      modifies `color, `stack, `found
      ensures Valid() && stack == old(stack) + [id] && color == old(color)[id := Gray] && found == old(found) + [id]
    {
      hide Searching;
      FoundColored(graph, Current(), id);
      EnterKeeps(graph, Current(), id);
      color := color[id := Gray];
      stack := stack + [id];
      found := found + [id];
    }

    /** Every edge of the node on top of the stack has been followed: blacken it and pop it. */
    method Leave()
      requires Valid() && Exhausted(graph, Current())
      modifies `color, `stack, `finished
      ensures Valid() && stack == old(stack)[..|old(stack)| - 1]
      ensures color == old(color)[old(stack)[|old(stack)| - 1] := Black]
    {
      hide Searching;
      LeaveKeeps(graph, Current());
      var id := stack[|stack| - 1];
      color := color[id := Black];
      stack := stack[..|stack| - 1];
      finished := finished + [id];
    }

    method FindOnStack(nxt: NodeID) returns (idx: nat)
      requires nxt in stack
      ensures idx < |stack| && stack[idx] == nxt
    {
      idx := 0;
      while stack[idx] != nxt
        invariant 0 <= idx < |stack|
        invariant nxt in stack[idx..]
        decreases |stack| - idx
      {
        idx := idx + 1;
      }
    }

    /** A gray successor closes a cycle: report the part of the stack from it, unless a cycle with the same key
        was reported before. */
    method Report(nxt: NodeID)
      requires Valid() && ColorOf(nxt) == Gray && stack != [] && Edge(graph, stack[|stack| - 1], nxt)
      modifies `cycles, `reported, `backs
      ensures Valid() && (stack[|stack| - 1], nxt) in backs && forall e :: e in old(backs) ==> e in backs
    {
      hide Searching, Key, Canonical, Closed, Edge;
      GrayOnStack(graph, Current(), nxt);
      var idx := FindOnStack(nxt);
      ghost var before := Current();
      NoteKeeps(graph, before, idx);
      NoteEffect(before, idx);
      var path := stack[idx..] + [nxt];
      var canonical := CanonicalCycle(path[..|path| - 1]);
      var key := Join(canonical, ">");
      KeyOfPath(path);
      backs := backs[(stack[|stack| - 1], nxt) := path];
      if key !in reported {
        reported := reported + {key};
        cycles := cycles + [path];
      }
      assert Current() == Noted(before, idx);
      hide Noted;
    }
  }

  lemma NoteEffect(s: Search, idx: nat)
    requires idx < |s.stack|
    ensures var t := Noted(s, idx);
            (s.stack[|s.stack| - 1], s.stack[idx]) in t.backs && forall e :: e in s.backs ==> e in t.backs
  {
  }

  lemma KeyOfPath(path: seq<NodeID>)
    requires path != []
    ensures Key(path) == Join(Canonical(path[..|path| - 1]), ">")
  {
  }

  lemma EnterKeeps(g: Digraph, s: Search, id: NodeID)
    requires Closed(g) && Searching(g, s) && id in g && id !in s.color
    requires s.stack != [] ==> Edge(g, s.stack[|s.stack| - 1], id)
    ensures Searching(g, Entered(s, id))
  {
    hide Colored, Recorded, Traced, Entered;
    EnterColored(g, s, id);
    EnterRecorded(g, s, id);
    EnterTraced(g, s, id);
  }

  lemma LeaveKeeps(g: Digraph, s: Search)
    requires Closed(g) && Searching(g, s) && Exhausted(g, s)
    ensures Searching(g, Left(s))
  {
    LeaveColored(g, s);
    assert Distinct(s.stack);
    hide Colored, Recorded, Traced, Left;
    LeaveRecorded(g, s);
    LeaveTraced(g, s);
  }

  lemma NoteKeeps(g: Digraph, s: Search, idx: nat)
    requires Closed(g) && Searching(g, s) && idx < |s.stack| && Edge(g, s.stack[|s.stack| - 1], s.stack[idx])
    ensures Searching(g, Noted(s, idx))
  {
    assert Colored(g, Noted(s, idx));
    hide Colored, Recorded, Traced, Noted;
    NoteRecorded(g, s, idx);
    NoteTraced(g, s, idx);
  }

  lemma FoundColored(g: Digraph, s: Search, x: NodeID)
    requires Searching(g, s)
    ensures x in s.found <==> x in s.color
    ensures x in s.color ==> s.color[x] != White
    ensures forall y :: y in s.color ==> y in g
  {
  }

  lemma AllFollowed(g: Digraph, s: Search, id: NodeID, nexts: seq<NodeID>)
    requires s.stack != [] && s.stack[|s.stack| - 1] == id && (forall y :: Edge(g, id, y) ==> y in nexts)
    requires Followed(s.color, s.backs, id, nexts, |nexts|)
    ensures Exhausted(g, s)
  {
  }

  lemma GrayOnStack(g: Digraph, s: Search, x: NodeID)
    requires Searching(g, s) && x in s.color && s.color[x] == Gray
    ensures x in s.stack
  {
  }

  lemma DiscoverNothing(g: Digraph, seen: seq<NodeID>, todo: seq<NodeID>)
    requires Closed(g)
    ensures Discover(g, seen, todo[|todo|..]) == seen
  {
  }

  // ---- What is reported in the end ----

  /** The search is over: nothing is on the stack, and every node has been found. */
  ghost predicate Over(g: Digraph, s: Search) {
    Closed(g) && Searching(g, s) && s.stack == [] && forall x :: x in g ==> x in s.color
  }

  lemma OverFinished(g: Digraph, s: Search)
    requires Over(g, s)
    ensures forall x :: x in g ==> x in s.found && x in s.finished
    ensures Distinct(s.found) && Distinct(s.finished)
  {
  }

  lemma CycleEdges(g: Digraph, c: seq<NodeID>)
    requires Closed(g) && SimpleCycle(g, c)
    ensures Inner(c) != []
    ensures forall k :: 0 <= k < |Inner(c)| ==>
              Inner(c)[k] in g && Edge(g, Inner(c)[k], Inner(c)[Following(Inner(c), k)])
  {
    var p := Inner(c);
    forall k | 0 <= k < |p| ensures p[k] in g && Edge(g, p[k], p[Following(p, k)]) {
      assert Edge(g, c[k], c[k + 1]);
    }
  }

  lemma BeforeOn(s: seq<NodeID>, x: NodeID, y: NodeID, z: NodeID)
    requires Distinct(s) && Before(s, x, y) && Before(s, y, z)
    ensures Before(s, x, z)
  {
    var i, j :| 0 <= i < j < |s| && s[i] == x && s[j] == y;
    var k, l :| 0 <= k < l < |s| && s[k] == y && s[l] == z;
    assert j == k;
  }

  lemma {:induction false} FirstFound(found: seq<NodeID>, p: seq<NodeID>) returns (y: NodeID)
    requires Distinct(found) && p != [] && forall z :: z in p ==> z in found
    ensures y in p && forall z :: z in p && z != y ==> Before(found, y, z)
  {
    var n := |p| - 1;
    assert p == p[..n] + [p[n]];
    if n == 0 {
      y := p[0];
    } else {
      y := FirstFound(found, p[..n]);
      BeforeOrder(found, y, p[n]);
      if Before(found, p[n], y) {
        forall z | z in p[..n] && z != y ensures Before(found, p[n], z) {
          BeforeOn(found, p[n], y, z);
        }
        y := p[n];
      }
    }
  }

  /** Every cycle has a closing edge. */
  lemma ClosingEdge(g: Digraph, s: Search, c: seq<NodeID>) returns (x: NodeID, y: NodeID)
    requires Over(g, s) && SimpleCycle(g, c)
    ensures Closes(s.found, c, x, y)
  {
    var p := Inner(c);
    CycleEdges(g, c);
    OverFinished(g, s);
    y := FirstFound(s.found, p);
    var k: nat :| k < |p| && p[k] == y;
    var before := if k == 0 then |p| - 1 else k - 1;
    x := p[before];
    assert Following(p, before) == k;
  }

  lemma ClosesOnce(found: seq<NodeID>, c: seq<NodeID>, x: NodeID, y: NodeID, x': NodeID, y': NodeID)
    requires Distinct(found) && Distinct(Inner(c)) && Closes(found, c, x, y) && Closes(found, c, x', y')
    ensures x == x' && y == y'
  {
    if y != y' {
      BeforeOrder(found, y, y');
    } else {
      JoinedOnce(Inner(c), x, x', y);
    }
  }

  lemma ClosesRotated(found: seq<NodeID>, c: seq<NodeID>, d: seq<NodeID>, x: NodeID, y: NodeID)
    requires SameCycle(c, d) && Closes(found, c, x, y)
    ensures Closes(found, d, x, y)
  {
    JoinedRotated(Inner(c), Inner(d), x, y);
    RotatedMembers(Inner(c), Inner(d));
  }

  lemma OverNested(g: Digraph, s: Search, j: nat, x: NodeID, y: NodeID)
    requires Over(g, s) && j < |s.finished| && x in s.finished[..j + 1] && Edge(g, x, y)
    ensures Nested(s.found, s.finished, j, x, y)
  {
    hide Colored, Recorded, Nested, Backed;
  }

  lemma OverBacked(g: Digraph, s: Search, i: nat, y: NodeID)
    requires Over(g, s) && i < |s.finished| && Edge(g, s.finished[i], y)
    ensures y in s.finished[..i] || (s.finished[i], y) in s.backs
  {
    hide Colored, Recorded, Nested;
  }

  lemma ClosesFirst(found: seq<NodeID>, c: seq<NodeID>, x: NodeID, y: NodeID, z: NodeID)
    requires Closes(found, c, x, y) && z in Inner(c)
    ensures z == y || Before(found, y, z)
  {
    hide Before, Joined;
  }

  /** What comes after the first node of a cycle does not come before it. */
  lemma NestedFinished(found: seq<NodeID>, finished: seq<NodeID>, j: nat, u: NodeID, v: NodeID)
    requires Distinct(found) && j < |finished| && u in found && v in found && finished[j] in found
    requires u == finished[j] || Before(found, finished[j], u)
    requires v == finished[j] || Before(found, finished[j], v)
    requires Nested(found, finished, j, u, v)
    ensures v in finished[..j + 1]
  {
    hide Before;
    BeforeOrder(found, finished[j], u);
    BeforeOrder(found, finished[j], v);
  }

  /** The position `n` places after `k`, going round `p`. */
  function Around<T>(p: seq<T>, k: nat, n: nat): (m: nat)
    requires k < |p| && n < |p|
    ensures m < |p|
  {
    if k + n < |p| then k + n else k + n - |p|
  }

  /** Everything on a cycle is finished by the time its first node is. */
  lemma {:induction false} AroundFinished(g: Digraph, s: Search, c: seq<NodeID>, x: NodeID, y: NodeID, j: nat, k: nat,
                                          n: nat)
    requires Over(g, s) && SimpleCycle(g, c) && Closes(s.found, c, x, y)
    requires j < |s.finished| && s.finished[j] == y && k < |Inner(c)| && Inner(c)[k] == y && n < |Inner(c)|
    ensures Inner(c)[Around(Inner(c), k, n)] in s.finished[..j + 1]
    decreases n
  {
    hide Over, SimpleCycle, Closes, Before, Nested, Inner;
    var p := Inner(c);
    if n == 0 {
      assert p[k] == s.finished[..j + 1][j];
    } else {
      AroundFinished(g, s, c, x, y, j, k, n - 1);
      var m := Around(p, k, n - 1);
      CycleNode(g, s, c, m);
      CycleNode(g, s, c, Following(p, m));
      CycleNode(g, s, c, k);
      OverNested(g, s, j, p[m], p[Following(p, m)]);
      ClosesFirst(s.found, c, x, y, p[m]);
      ClosesFirst(s.found, c, x, y, p[Following(p, m)]);
      NestedFinished(s.found, s.finished, j, p[m], p[Following(p, m)]);
    }
  }

  lemma CycleNode(g: Digraph, s: Search, c: seq<NodeID>, m: nat)
    requires Over(g, s) && SimpleCycle(g, c) && m < |Inner(c)|
    ensures Inner(c)[m] in s.found && Inner(c)[m] in s.finished && Distinct(s.found) && Distinct(s.finished)
    ensures Edge(g, Inner(c)[m], Inner(c)[Following(Inner(c), m)])
  {
    OverFinished(g, s);
    assert Closed(g);
    hide Over, SimpleCycle;
    CycleEdges(g, c);
  }

  /** Every closing edge has been met as an edge back into the stack. */
  lemma ClosingIsBack(g: Digraph, s: Search, c: seq<NodeID>, x: NodeID, y: NodeID)
    requires Over(g, s) && SimpleCycle(g, c) && Closes(s.found, c, x, y)
    ensures (x, y) in s.backs
  {
    var p := Inner(c);
    var m: nat :| m < |p| && p[m] == x && p[Following(p, m)] == y;
    hide Over, SimpleCycle, Closes, Before, Nested, Inner, Joined;
    var k := Following(p, m);
    CycleNode(g, s, c, m);
    CycleNode(g, s, c, k);
    var j: nat :| j < |s.finished| && s.finished[j] == y;
    AroundFinished(g, s, c, x, y, j, k, |p| - 1);
    assert Around(p, k, |p| - 1) == m;
    var i :| 0 <= i < j + 1 && s.finished[i] == x;
    OverBacked(g, s, i, y);
  }

  /** The cycle `c` is reported, entered at any of its nodes. */
  ghost predicate IsReported(cycles: seq<seq<NodeID>>, c: seq<NodeID>) {
    exists i :: 0 <= i < |cycles| && SameCycle(cycles[i], c)
  }

  ghost predicate AllReported(g: Digraph, cycles: seq<seq<NodeID>>) {
    forall c :: SimpleCycle(g, c) ==> IsReported(cycles, c)
  }

  /** The search can confuse two cycles: they have the same key or, in the order of discovery, the same closing edge. */
  ghost predicate Confused(found: seq<NodeID>, c: seq<NodeID>, d: seq<NodeID>) {
    Key(c) == Key(d) || exists x, y :: Closes(found, c, x, y) && Closes(found, d, x, y)
  }

  ghost predicate Separate(g: Digraph, found: seq<NodeID>) {
    forall c, d :: SimpleCycle(g, c) && SimpleCycle(g, d) && Confused(found, c, d) ==> SameCycle(c, d)
  }

  lemma SeparateReported(g: Digraph, s: Search, c: seq<NodeID>)
    requires Over(g, s) && Separate(g, s.found) && SimpleCycle(g, c)
    ensures IsReported(s.cycles, c)
  {
    var x, y := ClosingEdge(g, s, c);
    hide SimpleCycle, SameCycle, Closes, Key, Confused;
    ClosingIsBack(g, s, c, x, y);
    var i := BackReported(g, s, x, y);
    var r := s.backs[(x, y)];
    OverReports(g, s, i);
    BackPathCloses(g, s.found, r, x, y);
    ConfusedBy(s.found, r, c, x, y);
    ConfusedKeys(s.found, s.cycles[i], r);
    SameCycleOn(s.cycles[i], r, c);
  }

  lemma ConfusedBy(found: seq<NodeID>, c: seq<NodeID>, d: seq<NodeID>, x: NodeID, y: NodeID)
    requires Closes(found, c, x, y) && Closes(found, d, x, y)
    ensures Confused(found, c, d)
  {
  }

  lemma ConfusedKeys(found: seq<NodeID>, c: seq<NodeID>, d: seq<NodeID>)
    requires Key(c) == Key(d)
    ensures Confused(found, c, d)
  {
  }

  lemma BackPathCloses(g: Digraph, found: seq<NodeID>, p: seq<NodeID>, x: NodeID, y: NodeID)
    requires BackPath(g, found, p, x, y)
    ensures SimpleCycle(g, p) && Closes(found, p, x, y)
  {
  }

  /** Every edge back into the stack has a path, and a cycle with its key is reported. */
  lemma BackReported(g: Digraph, s: Search, x: NodeID, y: NodeID) returns (i: nat)
    requires Over(g, s) && (x, y) in s.backs
    ensures BackPath(g, s.found, s.backs[(x, y)], x, y)
    ensures i < |s.cycles| && Key(s.cycles[i]) == Key(s.backs[(x, y)])
  {
    hide Colored, Traced, BackPath, OnStacks, Key;
    assert (x, y) in s.backs;
    i :| 0 <= i < |s.cycles| && Key(s.cycles[i]) == Key(s.backs[(x, y)]);
  }

  /** A report is the path of the edge that closes it. */
  lemma ReportIsPath(g: Digraph, s: Search, i: nat)
    requires Recorded(g, s) && i < |s.cycles|
    ensures SimpleCycle(g, s.cycles[i])
    ensures exists e :: e in s.backs && s.backs[e] == s.cycles[i] && Closes(s.found, s.cycles[i], e.0, e.1)
    ensures BeginsFirst(s.found, s.cycles[i])
  {
    assert s.cycles[i] in s.backs.Values;
    var e :| e in s.backs && s.backs[e] == s.cycles[i];
    assert BackPath(g, s.found, s.backs[e], e.0, e.1);
  }

  /** The path begins at the node that the search finds first. */
  ghost predicate BeginsFirst(found: seq<NodeID>, c: seq<NodeID>) {
    c != [] && c[0] in found && forall z :: z in c ==> z == c[0] || Before(found, c[0], z)
  }

  lemma SameKey(g: Digraph, c: seq<NodeID>, d: seq<NodeID>)
    requires Closed(g) && SimpleCycle(g, c) && SimpleCycle(g, d) && SameCycle(c, d)
    ensures Key(c) == Key(d)
  {
    CycleEdges(g, c);
    CycleEdges(g, d);
    CanonicalExactly(Inner(c), Inner(d));
  }

  lemma ReportsApart(g: Digraph, s: Search, i: nat, j: nat)
    requires Over(g, s) && i < |s.cycles| && j < |s.cycles| && Key(s.cycles[i]) == Key(s.cycles[j])
    ensures i == j
  {
    hide Colored, Traced, BackPaths, OnStacks, Key;
  }

  /** A closing edge has one path. */
  lemma PathOf(g: Digraph, s: Search, i: nat, x: NodeID, y: NodeID)
    requires Over(g, s) && i < |s.cycles| && Closes(s.found, s.cycles[i], x, y)
    ensures (x, y) in s.backs && s.cycles[i] == s.backs[(x, y)]
  {
    ReportIsPath(g, s, i);
    OverFinished(g, s);
    hide Over, Searching, Closes;
    var e :| e in s.backs && s.backs[e] == s.cycles[i] && Closes(s.found, s.cycles[i], e.0, e.1);
    ClosesOnce(s.found, s.cycles[i], x, y, e.0, e.1);
    assert e == (x, y);
  }

  /** Reports with the same closing edge or key are the same report. */
  lemma ReportsDiffer(g: Digraph, s: Search, i: nat, j: nat)
    requires Over(g, s) && i < |s.cycles| && j < |s.cycles| && Confused(s.found, s.cycles[i], s.cycles[j])
    ensures i == j
  {
    hide Over, Closes, Key;
    if x, y :| Closes(s.found, s.cycles[i], x, y) && Closes(s.found, s.cycles[j], x, y) {
      PathOf(g, s, i, x, y);
      PathOf(g, s, j, x, y);
    }
    ReportsApart(g, s, i, j);
  }

  /** What the search confuses it also confuses when the cycles are entered elsewhere. */
  lemma ConfusedRotated(g: Digraph, found: seq<NodeID>, c: seq<NodeID>, d: seq<NodeID>,
                        c': seq<NodeID>, d': seq<NodeID>)
    requires Closed(g) && SimpleCycle(g, c) && SimpleCycle(g, d) && SimpleCycle(g, c') && SimpleCycle(g, d')
    requires SameCycle(c, c') && SameCycle(d, d') && Confused(found, c, d)
    ensures Confused(found, c', d')
  {
    hide SimpleCycle, SameCycle, Key, Closes;
    SameKey(g, c, c');
    SameKey(g, d, d');
    if x, y :| Closes(found, c, x, y) && Closes(found, d, x, y) {
      ClosesRotated(found, c, c', x, y);
      ClosesRotated(found, d, d', x, y);
    }
  }

  lemma SameCycleBack(c: seq<NodeID>, d: seq<NodeID>)
    requires SameCycle(c, d)
    ensures SameCycle(d, c)
  {
    RotatedBack(Inner(c), Inner(d));
  }

  lemma ReportOf(g: Digraph, s: Search, c: seq<NodeID>) returns (i: nat)
    requires Over(g, s) && AllReported(g, s.cycles) && SimpleCycle(g, c)
    ensures i < |s.cycles| && SimpleCycle(g, s.cycles[i])
    ensures SameCycle(s.cycles[i], c) && SameCycle(c, s.cycles[i])
  {
    hide Over, SimpleCycle, SameCycle;
    assert IsReported(s.cycles, c);
    i :| i < |s.cycles| && SameCycle(s.cycles[i], c);
    OverReports(g, s, i);
    SameCycleBack(s.cycles[i], c);
  }

  lemma ReportedSeparate(g: Digraph, s: Search, c: seq<NodeID>, d: seq<NodeID>)
    requires Over(g, s) && AllReported(g, s.cycles)
    requires SimpleCycle(g, c) && SimpleCycle(g, d) && Confused(s.found, c, d)
    ensures SameCycle(c, d)
  {
    assert Closed(g);
    hide Over, AllReported, SimpleCycle, Confused, SameCycle;
    var i := ReportOf(g, s, c);
    var j := ReportOf(g, s, d);
    ConfusedRotated(g, s.found, c, d, s.cycles[i], s.cycles[j]);
    ReportsDiffer(g, s, i, j);
    SameCycleOn(c, s.cycles[i], d);
  }

  lemma SameCycleOn(c: seq<NodeID>, d: seq<NodeID>, e: seq<NodeID>)
    requires SameCycle(c, d) && SameCycle(d, e)
    ensures SameCycle(c, e)
  {
    RotatedOn(Inner(c), Inner(d), Inner(e));
  }

  /** Every simple cycle is reported exactly when no two different ones can be confused. */
  lemma ReportsExactly(g: Digraph, s: Search)
    requires Over(g, s)
    ensures AllReported(g, s.cycles) <==> Separate(g, s.found)
  {
    hide Over, Confused, IsReported, SimpleCycle, SameCycle;
    if Separate(g, s.found) {
      forall c | SimpleCycle(g, c) ensures IsReported(s.cycles, c) {
        SeparateReported(g, s, c);
      }
    }
    if AllReported(g, s.cycles) {
      forall c, d | SimpleCycle(g, c) && SimpleCycle(g, d) && Confused(s.found, c, d) ensures SameCycle(c, d) {
        ReportedSeparate(g, s, c, d);
      }
    }
  }

  lemma NotAcyclic(g: Digraph, c: seq<NodeID>)
    requires SimpleCycle(g, c)
    ensures !Acyclic(g)
  {
  }

  /** Without a report every edge leads to a node finished earlier. */
  lemma SilentFinished(g: Digraph, s: Search)
    requires Over(g, s) && s.cycles == []
    ensures FinishOrder(g, s.finished)
  {
  }

  /** Nothing is reported exactly when there is no cycle. */
  lemma SilentExactly(g: Digraph, s: Search)
    requires Over(g, s)
    ensures s.cycles == [] <==> Acyclic(g)
  {
    OverFinished(g, s);
    assert Closed(g);
    hide Over, SimpleCycle;
    if s.cycles == [] {
      SilentFinished(g, s);
      FinishOrderAcyclic(g, s.finished);
    } else {
      OverReports(g, s, 0);
      NotAcyclic(g, s.cycles[0]);
    }
  }

  /** The keys of a Go map in the order of sort.Strings. */
  method SortedKeys(keys: set<NodeID>) returns (roots: seq<NodeID>)
    ensures forall id :: id in roots <==> id in keys
    ensures Distinct(roots) && Ascending(roots)
  {
    roots := [];
    var todo := keys;
    while todo != {}
      invariant todo <= keys && Distinct(roots)
      invariant forall id :: id in roots <==> id in keys - todo
      decreases todo
    {
      var id :| id in todo;
      assert id !in roots;
      roots := roots + [id];
      todo := todo - {id};
    }
    SortMembers(roots);
    roots := Sort(roots);
  }

  /** Every reported path is a closed path along the Out edges without repeated inner node, which begins where the
      search enters it; no two are rotations of each other; nothing is reported exactly when the graph is acyclic;
      every simple cycle has its closing edge in one whose key is reported; and every simple cycle is itself reported
      exactly when no two different ones have the same key or, in the order of discovery, the same closing edge. */
  method DetectCycles(d: Dag) returns (cycles: seq<seq<NodeID>>)
    requires WellFormed(d)
    ensures cycles == [] <==> Acyclic(d.Feeds())
    ensures forall i :: 0 <= i < |cycles| ==> SimpleCycle(d.Feeds(), cycles[i])
    ensures forall i, j :: 0 <= i < |cycles| && 0 <= j < |cycles| && i != j ==> !SameCycle(cycles[i], cycles[j])
    ensures EachCovered(d.Feeds(), Preorder(d.Feeds()), cycles)
    ensures AllReported(d.Feeds(), cycles) <==> Separate(d.Feeds(), Preorder(d.Feeds()))
  {
    var g := d.Feeds();
    assert Closed(g);
    hide WellFormed;
    var search := new CycleSearch(g);
    var roots := SortedKeys(g.Keys);
    ListedOnly(roots, g.Keys);
    search.SearchAll(roots);
    cycles := search.cycles;
    ghost var s := search.Current();
    SearchOver(g, s);
    hide Over, Searching, Separate, SameCycle, SimpleCycle, Preorder, EachCovered;
    SilentExactly(g, s);
    ReportsExactly(g, s);
    EveryReport(g, s);
  }

  /** A cycle with the closing edge of `c` has a key that is reported. */
  ghost predicate Covered(g: Digraph, found: seq<NodeID>, cycles: seq<seq<NodeID>>, c: seq<NodeID>) {
    exists i, r, x, y ::
      && 0 <= i < |cycles| && Key(cycles[i]) == Key(r) && SimpleCycle(g, r)
      && Closes(found, c, x, y) && Closes(found, r, x, y)
  }

  /** Every report begins where the search enters the cycle, and every cycle is covered. */
  ghost predicate EachCovered(g: Digraph, found: seq<NodeID>, cycles: seq<seq<NodeID>>) {
    && (forall i :: 0 <= i < |cycles| ==> BeginsFirst(found, cycles[i]))
    && (forall c :: SimpleCycle(g, c) ==> Covered(g, found, cycles, c))
  }

  lemma CycleCovered(g: Digraph, s: Search, c: seq<NodeID>)
    requires Over(g, s) && SimpleCycle(g, c)
    ensures Covered(g, s.found, s.cycles, c)
  {
    var x, y := ClosingEdge(g, s, c);
    hide SimpleCycle, Closes, Key;
    ClosingIsBack(g, s, c, x, y);
    var i := BackReported(g, s, x, y);
    BackPathCloses(g, s.found, s.backs[(x, y)], x, y);
  }

  lemma EveryReport(g: Digraph, s: Search)
    requires Over(g, s)
    ensures forall i :: 0 <= i < |s.cycles| ==> SimpleCycle(g, s.cycles[i])
    ensures forall i, j :: 0 <= i < |s.cycles| && 0 <= j < |s.cycles| && i != j ==>
              !SameCycle(s.cycles[i], s.cycles[j])
    ensures EachCovered(g, s.found, s.cycles)
  {
    hide Over, SameCycle, SimpleCycle, BeginsFirst, Covered;
    forall i | 0 <= i < |s.cycles| ensures SimpleCycle(g, s.cycles[i]) && BeginsFirst(s.found, s.cycles[i]) {
      OverReports(g, s, i);
    }
    forall i, j | 0 <= i < |s.cycles| && 0 <= j < |s.cycles| && i != j ensures !SameCycle(s.cycles[i], s.cycles[j]) {
      NotReportedTwice(g, s, i, j);
    }
    forall c | SimpleCycle(g, c) ensures Covered(g, s.found, s.cycles, c) {
      CycleCovered(g, s, c);
    }
  }

  lemma SearchOver(g: Digraph, s: Search)
    requires Closed(g) && Searching(g, s) && s.stack == [] && forall x :: x in g ==> x in s.color
    ensures Over(g, s)
  {
  }

  lemma OverReports(g: Digraph, s: Search, i: nat)
    requires Over(g, s) && i < |s.cycles|
    ensures SimpleCycle(g, s.cycles[i]) && BeginsFirst(s.found, s.cycles[i])
  {
    ReportIsPath(g, s, i);
  }

  lemma NotReportedTwice(g: Digraph, s: Search, i: nat, j: nat)
    requires Over(g, s) && i < |s.cycles| && j < |s.cycles| && i != j
    ensures !SameCycle(s.cycles[i], s.cycles[j])
  {
    OverReports(g, s, i);
    OverReports(g, s, j);
    if SameCycle(s.cycles[i], s.cycles[j]) {
      SameKey(g, s.cycles[i], s.cycles[j]);
    }
  }

  // ---- When that is the case, and a graph where it is not ----

  ghost predicate OnCycle(c: seq<NodeID>, x: NodeID, y: NodeID) {
    Joined(Inner(c), x, y)
  }

  /** If no edge lies on two different cycles, and no id has the separator of the keys, every cycle is reported. */
  lemma DisjointCyclesReported(g: Digraph, found: seq<NodeID>)
    requires Closed(g) && forall x :: x in g ==> '>' !in x
    requires forall c, d, x, y :: SimpleCycle(g, c) && SimpleCycle(g, d) && OnCycle(c, x, y) && OnCycle(d, x, y) ==>
               SameCycle(c, d)
    ensures Separate(g, found)
  {
    forall c, d | SimpleCycle(g, c) && SimpleCycle(g, d) && Confused(found, c, d) ensures SameCycle(c, d) {
      if Key(c) == Key(d) {
        CycleEdges(g, c);
        CycleEdges(g, d);
        CycleMembers(g, c);
        CycleMembers(g, d);
        KeyTells(c, d);
      } else {
        var x, y :| Closes(found, c, x, y) && Closes(found, d, x, y);
        assert OnCycle(c, x, y) && OnCycle(d, x, y);
      }
    }
  }

  lemma CycleMembers(g: Digraph, c: seq<NodeID>)
    requires Closed(g) && SimpleCycle(g, c)
    ensures forall x :: x in c ==> x in g
  {
    CycleEdges(g, c);
    forall x | x in c ensures x in g {
      var k :| 0 <= k < |c| && c[k] == x;
      assert k < |c| - 1 ==> Inner(c)[k] == x;
      assert Inner(c)[0] == c[0];
    }
  }

  /** The search starts from the least name. */
  lemma LeastFirst(g: Digraph, x: NodeID, z: NodeID)
    requires Closed(g) && x in g && z in g && z != x && forall y :: y in g ==> !Less(y, x)
    requires z in Preorder(g)
    ensures Before(Preorder(g), x, z)
  {
    var roots, found := Listed(g.Keys), Preorder(g);
    assert x in roots;
    var k :| 0 <= k < |roots| && roots[k] == x;
    assert roots[0] in g;
    LessTotal(roots[0], x);
    assert k == 0;
    SortMembers(g[x]);
    assert [x] <= Discover(g, [] + [x], Sort(g[x]));
    assert found[0] == x;
    var j :| 0 <= j < |found| && found[j] == z;
  }

  lemma {:induction false} DiscoverFinds(g: Digraph, seen: seq<NodeID>, todo: seq<NodeID>, x: NodeID)
    requires Closed(g) && x in todo && forall y :: y in todo ==> y in g
    ensures x in Discover(g, seen, todo)
    decreases |todo|
  {
    var r, y := Discover(g, seen, todo), todo[0];
    SortMembers(g[y]);
    var next := if y in seen then seen else Discover(g, seen + [y], Sort(g[y]));
    assert y in next by {
      if y !in seen {
        assert (seen + [y])[|seen|] == next[|seen|] == y;
      }
    }
    if x == y {
      var i :| 0 <= i < |next| && next[i] == x;
      assert next <= r && r[i] == x;
    } else {
      DiscoverFinds(g, next, todo[1..], x);
    }
  }

  lemma PreorderFinds(g: Digraph, x: NodeID)
    requires Closed(g) && x in g
    ensures x in Preorder(g)
  {
    DiscoverFinds(g, [], Listed(g.Keys), x);
  }

  /** Two simple cycles that leave the least node together and come back to it by the same edge are confused. */
  lemma LeastCloses(g: Digraph, c: seq<NodeID>, x: NodeID, y: NodeID)
    requires Closed(g) && SimpleCycle(g, c) && Joined(Inner(c), x, y) && forall z :: z in g ==> !Less(z, y)
    ensures Closes(Preorder(g), c, x, y)
  {
    hide SimpleCycle, Preorder, Joined, Before;
    CycleInside(g, c, x, y);
    PreorderFinds(g, y);
    forall z | z in Inner(c) && z != y ensures Before(Preorder(g), y, z) {
      CycleInside(g, c, x, y);
      PreorderFinds(g, z);
      LeastFirst(g, y, z);
    }
  }

  lemma CycleInside(g: Digraph, c: seq<NodeID>, x: NodeID, y: NodeID)
    requires Closed(g) && SimpleCycle(g, c) && Joined(Inner(c), x, y)
    ensures y in g && forall z :: z in Inner(c) ==> z in g
  {
    CycleEdges(g, c);
  }

  predicate FourEdges(x: NodeID, y: NodeID) {
    (x, y) in {("a", "b"), ("b", "d"), ("a", "c"), ("c", "d"), ("d", "a")}
  }

  /** Four stages with two cycles, neither with a shortcut: a to b to d to a, and a to c to d to a. */
  ghost predicate FourStages(g: Digraph) {
    && g.Keys == {"a", "b", "c", "d"}
    && forall x, y :: Edge(g, x, y) <==> FourEdges(x, y)
  }

  /** The search reports one of the two only: both go back to `a`, found first, by the edge from `d`. */
  lemma CycleMissed(g: Digraph)
    requires FourStages(g)
    ensures Closed(g) && !Separate(g, Preorder(g))
  {
    FourClosed(g);
    var c, d := ["a", "b", "d", "a"], ["a", "c", "d", "a"];
    FourCycles(g, c, d);
    FourLeast(g);
    hide FourStages, SimpleCycle, Preorder;
    LeastCloses(g, c, "d", "a");
    LeastCloses(g, d, "d", "a");
    ConfusedBy(Preorder(g), c, d, "d", "a");
  }

  lemma FourClosed(g: Digraph)
    requires FourStages(g)
    ensures Closed(g)
  {
    forall x, y | x in g && y in g[x] ensures y in g {
      assert Edge(g, x, y);
    }
  }

  lemma FourLeast(g: Digraph)
    requires FourStages(g)
    ensures forall z :: z in g ==> !Less(z, "a")
  {
    forall z | z in g ensures !Less(z, "a") {
      assert z[0] >= 'a';
    }
  }

  lemma FourCycles(g: Digraph, c: seq<NodeID>, d: seq<NodeID>)
    requires FourStages(g) && c == ["a", "b", "d", "a"] && d == ["a", "c", "d", "a"]
    ensures SimpleCycle(g, c) && SimpleCycle(g, d) && !SameCycle(c, d)
    ensures Joined(Inner(c), "d", "a") && Joined(Inner(d), "d", "a")
  {
    assert Edge(g, "a", "b") && Edge(g, "b", "d") && Edge(g, "a", "c") && Edge(g, "c", "d") && Edge(g, "d", "a");
    FourNames();
    assert Inner(c) == ["a", "b", "d"] && Inner(d) == ["a", "c", "d"];
    assert Following(Inner(c), 2) == 0 && Following(Inner(d), 2) == 0;
    assert Inner(c)[2] == "d" && Inner(d)[2] == "d" && Inner(c)[1] == "b";
    assert "b" in Inner(c) && "b" !in Inner(d);
    if SameCycle(c, d) {
      RotatedMembers(Inner(c), Inner(d));
    }
  }

  ghost predicate FourNeeds(stages: seq<Stage>) {
    && |stages| == 4
    && stages[0].id == "a" && stages[0].needs == ["d"]
    && stages[1].id == "b" && stages[1].needs == ["a"]
    && stages[2].id == "c" && stages[2].needs == ["a"]
    && stages[3].id == "d" && stages[3].needs == ["b", "c"]
  }

  lemma FourFirst(stages: seq<Stage>)
    requires FourNeeds(stages)
    ensures FirstStages(stages) == map["a" := stages[0], "b" := stages[1], "c" := stages[2], "d" := stages[3]]
  {
    FourNames();
    assert stages[..4][..3] == stages[..3] && stages[..3][..2] == stages[..2] && stages[..2][..1] == stages[..1];
    assert stages[..1][..0] == [] && stages == stages[..4];
    assert FirstStages(stages[..1]) == map["a" := stages[0]];
    assert FirstStages(stages[..2]) == map["a" := stages[0], "b" := stages[1]];
    assert FirstStages(stages[..3]) == map["a" := stages[0], "b" := stages[1], "c" := stages[2]];
  }

  lemma FourNames()
    ensures "a" != "b" && "a" != "c" && "a" != "d" && "b" != "c" && "b" != "d" && "c" != "d"
  {
    assert "a"[0] != "b"[0] && "a"[0] != "c"[0] && "a"[0] != "d"[0] && "b"[0] != "c"[0] && "b"[0] != "d"[0];
    assert "c"[0] != "d"[0];
  }

  lemma FourLinks(stages: seq<Stage>, x: NodeID, y: NodeID)
    requires FourNeeds(stages)
    ensures var first := FirstStages(stages);
            x in first && y in first && x != y && x in first[y].needs <==> FourEdges(x, y)
  {
    FourFirst(stages);
    FourNames();
  }

  lemma BuiltNodes(stages: seq<Stage>)
    ensures DagOf(stages).Feeds().Keys == FirstStages(stages).Keys
  {
  }

  lemma FourBuilt(stages: seq<Stage>)
    requires FourNeeds(stages)
    ensures WellFormed(DagOf(stages)) && FourStages(DagOf(stages).Feeds())
  {
    hide WellFormed, DagOf, FirstStages, FourNeeds, FourEdges, Edge, Acyclic;
    FourFirst(stages);
    DagWellFormed(stages);
    BuiltNodes(stages);
    FeedsReverseNeeds(DagOf(stages));
    forall x, y ensures Edge(DagOf(stages).Feeds(), x, y) <==> FourEdges(x, y) {
      DagEdges(stages, x, y);
      FourLinks(stages, x, y);
    }
  }

  /** The search misses a cycle of these four stages. */
  lemma FourStagesMiss(stages: seq<Stage>)
    requires FourNeeds(stages)
    ensures WellFormed(DagOf(stages))
    ensures var g := DagOf(stages).Feeds(); !Separate(g, Preorder(g))
  {
    FourBuilt(stages);
    CycleMissed(DagOf(stages).Feeds());
  }
}
