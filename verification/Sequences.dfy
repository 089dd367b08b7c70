/** Sequences without repetition, filtering and counting.

    `Select` filters by a set and keeps the order; it stands for the loops of the source that append the
    entries they keep. `CountLeft` counts the entries not yet visited, which is what the in-degrees of
    the layered sort hold. The last part relates the length of a list to the size of its set of members, which is the
    pigeonhole argument behind unanimous approvals. */
module Sequences {

  predicate Distinct<T(==)>(s: seq<T>) {
    forall i, j :: 0 <= i < j < |s| ==> s[i] != s[j]
  }

  function Elements<T>(s: seq<T>): set<T> {
    set x | x in s
  }

  lemma NonEmpty<T>(s: seq<T>)
    ensures s != [] ==> exists x :: x in s
  {
    if s != [] {
      assert s[0] in s;
    }
  }

  lemma {:induction false} DistinctCounts<T>(s: seq<T>)
    requires Distinct(s)
    ensures forall x :: multiset(s)[x] <= 1
  {
    if s != [] {
      var t := s[..|s| - 1];
      DistinctCounts(t);
      assert s == t + [s[|s| - 1]];
      assert s[|s| - 1] !in multiset(t);
    }
  }

  lemma CountTwice<T>(s: seq<T>, i: nat, j: nat)
    requires i < j < |s| && s[i] == s[j]
    ensures multiset(s)[s[i]] >= 2
  {
    assert s == s[..j] + [s[j]] + s[j + 1..];
    assert s[..j][i] == s[i];
    assert s[i] in multiset(s[..j]);
  }

  /** The entries of `s` that are in `keep`, in order. */
  function Select<T(==,!new)>(s: seq<T>, keep: set<T>): (r: seq<T>)
    ensures forall x :: x in r <==> x in s && x in keep
  {
    if s == [] then []
    else
      assert s == s[..|s| - 1] + [s[|s| - 1]];
      var prev := Select(s[..|s| - 1], keep);
      if s[|s| - 1] in keep then prev + [s[|s| - 1]] else prev
  }

  lemma SelectSnoc<T(!new)>(s: seq<T>, x: T, keep: set<T>)
    ensures Select(s + [x], keep) == if x in keep then Select(s, keep) + [x] else Select(s, keep)
  {
    assert (s + [x])[..|s|] == s;
  }

  lemma SelectNext<T(!new)>(s: seq<T>, k: nat, keep: set<T>)
    requires k < |s| && Distinct(s)
    ensures s[k] !in Select(s[..k], keep)
    ensures Select(s[..k + 1], keep) == Select(s[..k], keep) + if s[k] in keep then [s[k]] else []
  {
    assert s[..k + 1] == s[..k] + [s[k]];
    SelectSnoc(s[..k], s[k], keep);
    assert s[k] !in s[..k];
  }

  lemma {:induction false} SelectAgree<T(!new)>(s: seq<T>, a: set<T>, b: set<T>)
    requires forall x :: x in s ==> (x in a <==> x in b)
    ensures Select(s, a) == Select(s, b)
  {
    if s != [] {
      SelectAgree(s[..|s| - 1], a, b);
    }
  }

  lemma {:induction false} SelectTwice<T(!new)>(s: seq<T>, a: set<T>, b: set<T>)
    ensures Select(Select(s, a), b) == Select(s, a * b)
  {
    if s != [] {
      var t, x := s[..|s| - 1], s[|s| - 1];
      SelectTwice(t, a, b);
      SelectSnoc(Select(t, a), x, b);
    }
  }

  lemma {:induction false} SelectDistinct<T(!new)>(s: seq<T>, keep: set<T>)
    requires Distinct(s)
    ensures Distinct(Select(s, keep))
  {
    if s != [] {
      SelectDistinct(s[..|s| - 1], keep);
    }
  }

  /** How many entries of `s` are not in `gone`. */
  function CountLeft<T(==,!new)>(s: seq<T>, gone: set<T>): (n: nat)
    ensures n == 0 <==> forall x :: x in s ==> x in gone
  {
    if s == [] then 0
    else
      assert s == s[..|s| - 1] + [s[|s| - 1]];
      CountLeft(s[..|s| - 1], gone) + if s[|s| - 1] in gone then 0 else 1
  }

  lemma {:induction false} CountLeftStep<T(!new)>(s: seq<T>, gone: set<T>, x: T)
    requires x !in gone
    ensures CountLeft(s, gone) == CountLeft(s, gone + {x}) + multiset(s)[x]
  {
    if s != [] {
      CountLeftStep(s[..|s| - 1], gone, x);
      assert s == s[..|s| - 1] + [s[|s| - 1]];
    }
  }

  // ---- First occurrences ----

  /** `r` lists the members of `s`, each once, in the order of their first occurrences. */
  ghost predicate FirstsOf<T(!new)>(s: seq<T>, r: seq<T>) {
    && Distinct(r)
    && (forall x :: x in r <==> x in s)
    && forall i, j :: 0 <= i < j < |r| ==> Earlier(s, r[i], r[j])
  }

  /** `x` occurs in `s` before `y` does. */
  ghost predicate Earlier<T>(s: seq<T>, x: T, y: T) {
    exists k :: 0 <= k < |s| && s[k] == x && y !in s[..k + 1]
  }

  lemma FirstsNone<T(!new)>()
    ensures FirstsOf<T>([], [])
  {
  }

  lemma FirstsMore<T(!new)>(s: seq<T>, r: seq<T>, x: T)
    requires FirstsOf(s, r)
    ensures FirstsOf(s + [x], if x in r then r else r + [x])
  {
    var t, q := s + [x], if x in r then r else r + [x];
    forall i, j | 0 <= i < j < |q| ensures Earlier(t, q[i], q[j]) {
      if j < |r| {
        assert Earlier(s, r[i], r[j]);
        var k :| 0 <= k < |s| && s[k] == r[i] && r[j] !in s[..k + 1];
        assert t[k] == q[i] && t[..k + 1] == s[..k + 1];
      } else {
        assert r[i] in s;
        var k :| 0 <= k < |s| && s[k] == r[i];
        assert t[k] == q[i] && t[..k + 1] == s[..k + 1];
        assert forall y :: y in s[..k + 1] ==> y in s;
      }
    }
  }

  // ---- Sizes ----

  lemma SubsetFull<T>(a: set<T>, b: set<T>)
    requires a <= b && |a| >= |b|
    ensures a == b
  {
    SubsetSize(b - a, b);
    assert |b| == |a| + |b - a|;
  }

  lemma {:induction false} SubsetSize<T>(a: set<T>, b: set<T>)
    requires a <= b
    ensures |a| <= |b|
    decreases a
  {
    if x :| x in a {
      SubsetSize(a - {x}, b - {x});
    }
  }

  /** Repetition makes a list longer than its set of members. */
  lemma {:induction false} ElementsCount<T>(s: seq<T>)
    ensures |Elements(s)| <= |s|
    ensures |Elements(s)| == |s| <==> Distinct(s)
  {
    if s != [] {
      var t, x := s[..|s| - 1], s[|s| - 1];
      ElementsCount(t);
      assert s == t + [x];
      assert Elements(s) == Elements(t) + {x};
      if x in t {
        var i :| 0 <= i < |t| && t[i] == x;
        assert s[i] == s[|s| - 1];
      }
    }
  }
}
