/** Closed paths up to the node they start at, and the canonical form by which the source tells them apart. */
module Rotations {
  import opened Sequences
  import opened Strings
  import opened Digraphs

  function Rotate<T>(p: seq<T>, r: nat): seq<T>
    requires r <= |p|
  {
    p[r..] + p[..r]
  }

  predicate RotatedBy<T(==)>(p: seq<T>, q: seq<T>, r: nat) {
    r < |p| && q == Rotate(p, r)
  }

  /** A closed path without the repetition of its start. */
  function Inner<T>(p: seq<T>): seq<T> {
    if p == [] then [] else p[..|p| - 1]
  }

  /** Two closed paths walk around the same cycle. */
  ghost predicate SameCycle(p: seq<NodeID>, q: seq<NodeID>) {
    Rotated(Inner(p), Inner(q))
  }

  ghost predicate Rotated(p: seq<NodeID>, q: seq<NodeID>) {
    exists r: nat :: RotatedBy(p, q, r)
  }

  /** The index of the first least element among the first `n`. */
  function MinIndex(p: seq<NodeID>, n: nat): (m: nat)
    requires 0 < n <= |p|
    ensures m < n
  {
    if n == 1 then 0
    else
      var m := MinIndex(p, n - 1);
      if Less(p[n - 1], p[m]) then n - 1 else m
  }

  lemma {:induction false} MinIndexLeast(p: seq<NodeID>, n: nat)
    requires 0 < n <= |p|
    ensures forall i :: 0 <= i < n ==> !Less(p[i], p[MinIndex(p, n)])
  {
    if n == 1 {
      LessTotal(p[0], p[0]);
    } else {
      MinIndexLeast(p, n - 1);
      var m := MinIndex(p, n - 1);
      LessTotal(p[n - 1], p[n - 1]);
      forall i | 0 <= i < n ensures !Less(p[i], p[MinIndex(p, n)]) {
        if Less(p[i], p[n - 1]) && Less(p[n - 1], p[m]) {
          LessTransitive(p[i], p[n - 1], p[m]);
        }
      }
    }
  }

  function Canonical(p: seq<NodeID>): seq<NodeID> {
    if p == [] then [] else Rotate(p, MinIndex(p, |p|))
  }

  method CanonicalCycle(path: seq<NodeID>) returns (out: seq<NodeID>)
    ensures out == Canonical(path)
  {
    if |path| == 0 {
      return path;
    }
    var minIdx := 0;
    for i := 1 to |path|
      invariant minIdx == MinIndex(path, i)
    {
      if Less(path[i], path[minIdx]) {
        minIdx := i;
      }
    }
    out := [];
    for i := 0 to |path|
      invariant out == Rotate(path, minIdx)[..i]
    {
      RotateAt(path, minIdx, i);
      out := out + [path[(minIdx + i) % |path|]];
    }
  }

  lemma RotateAt<T>(p: seq<T>, r: nat, i: nat)
    requires r < |p| && i < |p|
    ensures Rotate(p, r)[i] == p[(r + i) % |p|]
  {
    if r + i < |p| {
      assert (r + i) % |p| == r + i;
    } else {
      assert (r + i) % |p| == r + i - |p|;
    }
  }

  lemma RotateTwice<T>(p: seq<T>, r: nat, k: nat)
    requires r < |p| && k < |p|
    ensures Rotate(Rotate(p, r), k) == Rotate(p, if r + k < |p| then r + k else r + k - |p|)
  {
  }

  /** The canonical form of a cycle of distinct nodes does not depend on where it is entered. */
  lemma CanonicalOfRotation(p: seq<NodeID>, r: nat)
    requires r < |p| && Distinct(p)
    ensures Canonical(Rotate(p, r)) == Canonical(p)
  {
    var q := Rotate(p, r);
    var m, k := MinIndex(p, |p|), MinIndex(q, |q|);
    MinIndexLeast(p, |p|);
    MinIndexLeast(q, |q|);
    var t := if r + k < |p| then r + k else r + k - |p|;
    assert q[k] == p[t];
    var m' := if m >= r then m - r else m + |p| - r;
    assert q[m'] == p[m];
    LessTotal(p[m], p[t]);
    assert m == t;
    RotateTwice(p, r, k);
  }

  function Key(cycle: seq<NodeID>): string {
    Join(Canonical(Inner(cycle)), ">")
  }

  lemma RotatedBack(p: seq<NodeID>, q: seq<NodeID>)
    requires Rotated(p, q)
    ensures Rotated(q, p)
  {
    var r: nat :| RotatedBy(p, q, r);
    var back := if r == 0 then 0 else |p| - r;
    assert Rotate(q, back) == p;
    assert RotatedBy(q, p, back);
  }

  lemma RotatedOn(p: seq<NodeID>, q: seq<NodeID>, s: seq<NodeID>)
    requires Rotated(p, q) && Rotated(q, s)
    ensures Rotated(p, s)
  {
    var r: nat :| RotatedBy(p, q, r);
    var k: nat :| RotatedBy(q, s, k);
    RotateTwice(p, r, k);
    assert RotatedBy(p, s, if r + k < |p| then r + k else r + k - |p|);
  }

  lemma CanonicalRotates(p: seq<NodeID>)
    requires p != []
    ensures Rotated(p, Canonical(p))
  {
    assert RotatedBy(p, Canonical(p), MinIndex(p, |p|));
  }

  /** Cycles of distinct nodes have the same canonical form exactly when one is a rotation of the other. */
  lemma CanonicalExactly(p: seq<NodeID>, q: seq<NodeID>)
    requires p != [] && q != [] && Distinct(p)
    ensures Canonical(p) == Canonical(q) <==> Rotated(p, q)
  {
    if Rotated(p, q) {
      var r: nat :| RotatedBy(p, q, r);
      CanonicalOfRotation(p, r);
    }
    if Canonical(p) == Canonical(q) {
      CanonicalRotates(p);
      CanonicalRotates(q);
      RotatedBack(q, Canonical(q));
      RotatedOn(p, Canonical(p), q);
    }
  }

  // ---- The edges of a cycle ----

  function Following<T>(p: seq<T>, k: nat): (l: nat)
    requires k < |p|
    ensures l < |p|
  {
    if k + 1 < |p| then k + 1 else 0
  }

  /** Going around `p`, `y` follows `x`. */
  ghost predicate Joined(p: seq<NodeID>, x: NodeID, y: NodeID) {
    exists k :: 0 <= k < |p| && p[k] == x && p[Following(p, k)] == y
  }

  lemma JoinedRotated(p: seq<NodeID>, q: seq<NodeID>, x: NodeID, y: NodeID)
    requires Rotated(p, q) && Joined(p, x, y)
    ensures Joined(q, x, y)
  {
    var r: nat :| RotatedBy(p, q, r);
    var k :| 0 <= k < |p| && p[k] == x && p[Following(p, k)] == y;
    var k' := if k >= r then k - r else k + |p| - r;
    var l := Following(p, k);
    var l' := if l >= r then l - r else l + |p| - r;
    assert q[k'] == x && q[l'] == y && l' == Following(q, k');
  }

  lemma RotatedMembers(p: seq<NodeID>, q: seq<NodeID>)
    requires Rotated(p, q)
    ensures forall x :: x in p <==> x in q
  {
    var r: nat :| RotatedBy(p, q, r);
    assert p == p[..r] + p[r..];
  }

  /** In a cycle of distinct nodes only one node goes before `y`. */
  lemma JoinedOnce(p: seq<NodeID>, x: NodeID, x': NodeID, y: NodeID)
    requires Distinct(p) && Joined(p, x, y) && Joined(p, x', y)
    ensures x == x'
  {
    var k :| 0 <= k < |p| && p[k] == x && p[Following(p, k)] == y;
    var k' :| 0 <= k' < |p| && p[k'] == x' && p[Following(p, k')] == y;
  }

  // ---- Keys ----

  predicate NoArrow(ids: seq<NodeID>) {
    forall id :: id in ids ==> '>' !in id
  }

  lemma ArrowAt(a: NodeID, s: string, b: NodeID, t: string)
    requires a + ">" + s == b + ">" + t && '>' !in a
    ensures |a| <= |b|
  {
    var u := b + ">" + t;
    assert u[|b|] == '>';
    assert forall k :: 0 <= k < |a| ==> u[k] == a[k];
  }

  /** Ids without the separator can be read off a key. */
  lemma {:induction false} JoinInjective(p: seq<NodeID>, q: seq<NodeID>)
    requires p != [] && q != [] && NoArrow(p) && NoArrow(q) && Join(p, ">") == Join(q, ">")
    ensures p == q
  {
    if |p| > 1 && |q| > 1 {
      var s, t := Join(p[1..], ">"), Join(q[1..], ">");
      assert p[0] in p && q[0] in q;
      ArrowAt(p[0], s, q[0], t);
      ArrowAt(q[0], t, p[0], s);
      SameParts(p[0], s, q[0], t);
      JoinInjective(p[1..], q[1..]);
      assert p == [p[0]] + p[1..] && q == [q[0]] + q[1..];
    } else if |p| == 1 {
      OneID(p, q);
    } else {
      OneID(q, p);
    }
  }

  lemma SameParts(a: NodeID, s: string, b: NodeID, t: string)
    requires a + ">" + s == b + ">" + t && |a| == |b|
    ensures a == b && s == t
  {
    var u := a + ">" + s;
    assert a == u[..|a|] == b;
    assert s == u[|a| + 1..] == t;
  }

  lemma ArrowInside(q: seq<NodeID>)
    requires |q| > 1
    ensures '>' in Join(q, ">")
  {
    assert Join(q, ">")[|q[0]|] == '>';
  }

  lemma OneID(p: seq<NodeID>, q: seq<NodeID>)
    requires |p| == 1 && q != [] && NoArrow(p) && Join(p, ">") == Join(q, ">")
    ensures p == q
  {
    assert p[0] in p;
    if |q| > 1 {
      ArrowInside(q);
    }
  }

  /** Two cycles of distinct nodes with ids without the separator have the same key only if they are the same. */
  lemma KeyTells(c: seq<NodeID>, d: seq<NodeID>)
    requires Inner(c) != [] && Inner(d) != [] && Distinct(Inner(c)) && NoArrow(c) && NoArrow(d) && Key(c) == Key(d)
    ensures SameCycle(c, d)
  {
    var p, q := Inner(c), Inner(d);
    CanonicalRotates(p);
    CanonicalRotates(q);
    RotatedMembers(p, Canonical(p));
    RotatedMembers(q, Canonical(q));
    JoinInjective(Canonical(p), Canonical(q));
    CanonicalExactly(p, q);
  }
}
