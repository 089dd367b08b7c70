/** In which order the cycle search finds the nodes (api/pkg/engine/dag.go, DetectCycles): from the latest node found
    that has a successor not found yet, its least such successor is next; when there is none, the least node not found
    yet. This fixes the order without saying how the search goes about it. */
module Discovery {
  import opened Sequences
  import opened Strings
  import opened Digraphs
  import opened Dags
  import opened Cycles

  /** `x` is the least of `from` that is not in `seen`. */
  ghost predicate LeastNew(from: set<NodeID>, seen: seq<NodeID>, x: NodeID) {
    x in from && x !in seen && forall z :: z in from ==> z in seen || !Less(z, x)
  }

  /** When the node at `i` is found the one at `j` has a successor that has not been found. */
  ghost predicate Open(g: Digraph, r: seq<NodeID>, i: nat, j: nat) {
    j < i <= |r| && exists z :: Edge(g, r[j], z) && z !in r[..i]
  }

  /** The node at `i` comes from the latest open node at `base` or later. */
  ghost predicate FromLatest(g: Digraph, r: seq<NodeID>, base: nat, i: nat) {
    i < |r| && forall j: nat ::
      base <= j && Open(g, r, i, j) && (forall m: nat :: j < m ==> !Open(g, r, i, m)) ==>
        r[j] in g && LeastNew(Elements(g[r[j]]), r[..i], r[i])
  }

  /** If none is open it comes from `from`. */
  ghost predicate FromRoots(g: Digraph, r: seq<NodeID>, base: nat, i: nat, from: set<NodeID>) {
    i < |r| && ((forall j: nat :: base <= j ==> !Open(g, r, i, j)) ==> LeastNew(from, r[..i], r[i]))
  }

  lemma OpenPrefix(g: Digraph, r: seq<NodeID>, next: seq<NodeID>, i: nat, j: nat)
    requires next <= r && i <= |next|
    ensures Open(g, r, i, j) <==> Open(g, next, i, j)
    ensures r[..i] == next[..i]
  {
    assert r[..i] == next[..i];
    if j < i {
      assert r[j] == next[j];
    }
  }

  /** The steps of the search on `todo`, the first of them if it is new. */
  lemma DiscoverParts(g: Digraph, seen: seq<NodeID>, todo: seq<NodeID>) returns (next: seq<NodeID>)
    requires Closed(g) && todo != [] && forall x :: x in todo ==> x in g
    ensures todo[0] in seen ==> next == seen
    ensures todo[0] !in seen ==>
              && (forall x :: x in Sort(g[todo[0]]) <==> x in g[todo[0]]) && Ascending(Sort(g[todo[0]]))
              && (forall x :: x in g[todo[0]] ==> x in g)
              && seen + [todo[0]] <= next && next == Discover(g, seen + [todo[0]], Sort(g[todo[0]]))
              && |g.Keys - Elements(seen + [todo[0]])| < |g.Keys - Elements(seen)|
              && |g.Keys - Elements(next)| < |g.Keys - Elements(seen)|
    ensures seen <= next && next <= Discover(g, seen, todo) && Discover(g, seen, todo) == Discover(g, next, todo[1..])
  {
    var x := todo[0];
    if x in seen {
      next := seen;
    } else {
      SortMembers(g[x]);
      next := Discover(g, seen + [x], Sort(g[x]));
      Fewer(g, seen, x, seen + [x]);
      Fewer(g, seen, x, next);
    }
  }

  lemma InPrefix(s: seq<NodeID>, t: seq<NodeID>, x: NodeID)
    requires s <= t && x in s
    ensures x in t
  {
    var i :| 0 <= i < |s| && s[i] == x;
    assert t[i] == x;
  }

  /** Whatever the search finds from `todo` has no successors that it does not find. */
  lemma {:induction false} DiscoverCloses(g: Digraph, seen: seq<NodeID>, todo: seq<NodeID>, j: nat, z: NodeID)
    requires Closed(g) && forall x :: x in todo ==> x in g
    requires |seen| <= j < |Discover(g, seen, todo)| && Edge(g, Discover(g, seen, todo)[j], z)
    ensures z in Discover(g, seen, todo)
    decreases |g.Keys - Elements(seen)|, |todo|
  {
    if todo != [] {
      var next := DiscoverParts(g, seen, todo);
      var r := Discover(g, seen, todo);
      hide Discover;
      if todo[0] in seen || j >= |next| {
        DiscoverCloses(g, next, todo[1..], j, z);
      } else {
        assert next[j] == r[j];
        if j > |seen| {
          DiscoverCloses(g, seen + [todo[0]], Sort(g[todo[0]]), j, z);
        } else {
          assert next[j] == (seen + [todo[0]])[j] == todo[0];
          DiscoverFinds(g, seen + [todo[0]], Sort(g[todo[0]]), z);
        }
        InPrefix(next, r, z);
      }
    }
  }

  lemma {:induction false} DiscoverNodes(g: Digraph, seen: seq<NodeID>, todo: seq<NodeID>)
    requires Closed(g) && (forall x :: x in todo ==> x in g) && (forall x :: x in seen ==> x in g) && Distinct(seen)
    ensures Distinct(Discover(g, seen, todo)) && forall x :: x in Discover(g, seen, todo) ==> x in g
    decreases |g.Keys - Elements(seen)|, |todo|
  {
    if todo != [] {
      var next := DiscoverParts(g, seen, todo);
      hide Discover, Ascending;
      if todo[0] !in seen {
        NewSearch(g, seen, todo);
        hide Distinct, Closed;
        DiscoverNodes(g, seen + [todo[0]], Sort(g[todo[0]]));
      }
      DiscoverNodes(g, next, todo[1..]);
    }
  }

  /** What is least in `from` is least in `more` too if that adds only what has been seen. */
  lemma LeastMore(from: set<NodeID>, more: set<NodeID>, seen: seq<NodeID>, x: NodeID)
    requires LeastNew(from, seen, x) && from <= more && forall z :: z in more ==> z in from || z in seen
    ensures LeastNew(more, seen, x)
  {
  }

  lemma FirstIsLeast(todo: seq<NodeID>, seen: seq<NodeID>)
    requires todo != [] && Ascending(todo) && todo[0] !in seen
    ensures LeastNew(Elements(todo), seen, todo[0])
  {
    forall z | z in todo ensures !Less(z, todo[0]) {
      var k :| 0 <= k < |todo| && todo[k] == z;
      LessTotal(todo[0], todo[0]);
    }
  }

  /** The order of discovery, from where a search begins. */
  lemma {:induction false} DiscoverOrder(g: Digraph, seen: seq<NodeID>, todo: seq<NodeID>, i: nat)
    requires Closed(g) && (forall x :: x in todo ==> x in g) && Ascending(todo)
    requires (forall x :: x in seen ==> x in g) && Distinct(seen)
    requires |seen| <= i < |Discover(g, seen, todo)|
    ensures FromLatest(g, Discover(g, seen, todo), |seen|, i)
    ensures FromRoots(g, Discover(g, seen, todo), |seen|, i, Elements(todo))
    decreases |g.Keys - Elements(seen)|, |todo|
  {
    hide *;
    TailAscending(g, seen, todo);
    var r := Discover(g, seen, todo);
    var next := DiscoverParts(g, seen, todo);
    if todo[0] in seen {
      DiscoverOrder(g, seen, todo[1..], i);
      FoundBeyond(g, seen, todo, r, i);
    } else {
      NewSearch(g, seen, todo);
      if i == |seen| {
        FoundNow(g, seen, todo, next, r);
      } else if i < |next| {
        DiscoverOrder(g, seen + [todo[0]], Sort(g[todo[0]]), i);
        FoundInside(g, seen, todo, next, r, i);
      } else {
        DiscoverNodes(g, seen + [todo[0]], Sort(g[todo[0]]));
        DiscoverOrder(g, next, todo[1..], i);
        FoundLater(g, seen, todo, next, r, i);
      }
    }
  }

  lemma TailAscending(g: Digraph, seen: seq<NodeID>, todo: seq<NodeID>)
    requires Closed(g) && (forall x :: x in todo ==> x in g) && Ascending(todo)
    requires |seen| < |Discover(g, seen, todo)|
    ensures todo != [] && Ascending(todo[1..])
  {
  }

  lemma NewSearch(g: Digraph, seen: seq<NodeID>, todo: seq<NodeID>)
    requires Closed(g) && todo != [] && todo[0] in g && todo[0] !in seen && Distinct(seen)
    requires forall x :: x in seen ==> x in g
    ensures (forall x :: x in Sort(g[todo[0]]) ==> x in g) && Distinct(seen + [todo[0]])
    ensures forall x :: x in seen + [todo[0]] ==> x in g
  {
    SortMembers(g[todo[0]]);
  }

  lemma FoundNow(g: Digraph, seen: seq<NodeID>, todo: seq<NodeID>, next: seq<NodeID>, r: seq<NodeID>)
    requires todo != [] && Ascending(todo) && todo[0] !in seen && seen + [todo[0]] <= next <= r
    ensures FromLatest(g, r, |seen|, |seen|) && FromRoots(g, r, |seen|, |seen|, Elements(todo))
  {
    assert r[..|seen|] == seen && r[|seen|] == (seen + [todo[0]])[|seen|] == todo[0];
    FirstIsLeast(todo, seen);
    hide LeastNew;
  }

  /** Within the search from the first of `todo`, its successors are the roots. */
  lemma FoundInside(g: Digraph, seen: seq<NodeID>, todo: seq<NodeID>, next: seq<NodeID>, r: seq<NodeID>, i: nat)
    requires todo != [] && todo[0] in g && |seen| < i < |next| && seen + [todo[0]] <= next <= r
    requires forall x :: x in Sort(g[todo[0]]) <==> x in g[todo[0]]
    requires FromLatest(g, next, |seen| + 1, i)
    requires FromRoots(g, next, |seen| + 1, i, Elements(Sort(g[todo[0]])))
    ensures FromLatest(g, r, |seen|, i) && FromRoots(g, r, |seen|, i, Elements(todo))
  {
    assert next[|seen|] == (seen + [todo[0]])[|seen|] == todo[0];
    assert Elements(Sort(g[todo[0]])) == Elements(g[todo[0]]);
    InnerOrder(g, next, |seen|, i, Elements(todo));
    hide FromLatest, FromRoots, Elements;
    OrderPrefix(g, r, next, |seen|, i, Elements(todo));
  }

  lemma InnerOrder(g: Digraph, r: seq<NodeID>, base: nat, i: nat, from: set<NodeID>)
    requires base < i < |r| && r[base] in g && FromLatest(g, r, base + 1, i)
    requires FromRoots(g, r, base + 1, i, Elements(g[r[base]]))
    ensures FromLatest(g, r, base, i) && FromRoots(g, r, base, i, from)
  {
  }

  lemma OrderPrefix(g: Digraph, r: seq<NodeID>, next: seq<NodeID>, base: nat, i: nat, from: set<NodeID>)
    requires next <= r && base <= i < |next| && FromLatest(g, next, base, i) && FromRoots(g, next, base, i, from)
    ensures FromLatest(g, r, base, i) && FromRoots(g, r, base, i, from)
  {
    assert r[..i] == next[..i] && r[i] == next[i];
    forall j: nat ensures (Open(g, r, i, j) <==> Open(g, next, i, j)) && (j < i ==> r[j] == next[j]) {
      OpenPrefix(g, r, next, i, j);
    }
    hide LeastNew;
    assert forall j: nat :: Open(g, r, i, j) ==> j < i;
    hide Open;
  }

  /** Nothing comes from a root that has been seen. */
  lemma FoundBeyond(g: Digraph, seen: seq<NodeID>, todo: seq<NodeID>, r: seq<NodeID>, i: nat)
    requires todo != [] && todo[0] in seen && seen <= r && |seen| <= i < |r|
    requires FromLatest(g, r, |seen|, i) && FromRoots(g, r, |seen|, i, Elements(todo[1..]))
    ensures FromLatest(g, r, |seen|, i) && FromRoots(g, r, |seen|, i, Elements(todo))
  {
    hide FromLatest, FromRoots, Open;
    InPrefix(seen, r[..i], todo[0]);
    OuterOrder(g, r, |seen|, |seen|, i, todo);
  }

  /** After the search from the first of `todo`, nothing that it has found is open. */
  lemma FoundLater(g: Digraph, seen: seq<NodeID>, todo: seq<NodeID>, next: seq<NodeID>, r: seq<NodeID>, i: nat)
    requires Closed(g) && todo != [] && todo[0] in g && todo[0] !in seen
    requires (forall x :: x in Sort(g[todo[0]]) <==> x in g[todo[0]]) && (forall x :: x in g[todo[0]] ==> x in g)
    requires seen + [todo[0]] <= next && next == Discover(g, seen + [todo[0]], Sort(g[todo[0]]))
    requires next <= r && |next| <= i < |r|
    requires FromLatest(g, r, |next|, i) && FromRoots(g, r, |next|, i, Elements(todo[1..]))
    ensures FromLatest(g, r, |seen|, i) && FromRoots(g, r, |seen|, i, Elements(todo))
  {
    hide Discover, FromLatest, FromRoots, Closed, Open;
    forall j: nat | |seen| <= j < |next| ensures !Open(g, r, i, j) {
      PartClosed(g, seen, todo, next, r, i, j);
    }
    assert r[..i][|seen|] == next[|seen|] == (seen + [todo[0]])[|seen|] == todo[0];
    OuterOrder(g, r, |seen|, |next|, i, todo);
  }

  lemma PartClosed(g: Digraph, seen: seq<NodeID>, todo: seq<NodeID>, next: seq<NodeID>, r: seq<NodeID>, i: nat, j: nat)
    requires Closed(g) && todo != [] && todo[0] in g && todo[0] !in seen
    requires (forall x :: x in Sort(g[todo[0]]) <==> x in g[todo[0]]) && (forall x :: x in g[todo[0]] ==> x in g)
    requires seen + [todo[0]] <= next && next == Discover(g, seen + [todo[0]], Sort(g[todo[0]]))
    requires |seen| <= j < |next| <= i <= |r| && next <= r
    ensures !Open(g, r, i, j)
  {
    hide Discover;
    assert r[j] == next[j];
    forall z | Edge(g, next[j], z) ensures z in r[..i] {
      if j > |seen| {
        DiscoverCloses(g, seen + [todo[0]], Sort(g[todo[0]]), j, z);
      } else {
        assert next[j] == (seen + [todo[0]])[j] == todo[0];
        DiscoverFinds(g, seen + [todo[0]], Sort(g[todo[0]]), z);
      }
      InPrefix(next, r[..i], z);
    }
  }

  lemma OuterOrder(g: Digraph, r: seq<NodeID>, base: nat, mid: nat, i: nat, todo: seq<NodeID>)
    requires base <= mid <= i < |r| && todo != [] && todo[0] in r[..i]
    requires FromLatest(g, r, mid, i) && FromRoots(g, r, mid, i, Elements(todo[1..]))
    requires forall j: nat :: base <= j < mid ==> !Open(g, r, i, j)
    ensures FromLatest(g, r, base, i) && FromRoots(g, r, base, i, Elements(todo))
  {
    hide Open;
    if LeastNew(Elements(todo[1..]), r[..i], r[i]) {
      LeastMore(Elements(todo[1..]), Elements(todo), r[..i], r[i]);
    }
  }

  /** The order in which the search finds the nodes. */
  lemma PreorderSays(g: Digraph, i: nat)
    requires Closed(g) && i < |Preorder(g)|
    ensures var r := Preorder(g);
            && Distinct(r) && (forall x :: x in r <==> x in g)
            && (forall j: nat :: Open(g, r, i, j) && (forall m: nat :: j < m ==> !Open(g, r, i, m)) ==>
                  r[j] in g && LeastNew(Elements(g[r[j]]), r[..i], r[i]))
            && ((forall j: nat :: !Open(g, r, i, j)) ==> LeastNew(g.Keys, r[..i], r[i]))
  {
    hide Discover, LeastNew, Open;
    DiscoverNodes(g, [], Listed(g.Keys));
    DiscoverOrder(g, [], Listed(g.Keys), i);
    forall x | x in g ensures x in Preorder(g) {
      PreorderFinds(g, x);
    }
    assert Elements(Listed(g.Keys)) == g.Keys;
  }
}
