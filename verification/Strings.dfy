/** Strings as the source uses them: substring search, and sorting by the order of `<` on Go strings.

    `Less` is that order, shown to be total and transitive. `Sort` stands for sort.Strings, and
    `SortedUnique` says that an ascending list without repetition is determined by its members, so that the
    result of sorting the keys of a map does not depend on the order in which the map gives them out. `Join`
    is strings.Join. */
module Strings {
  import opened Sequences

  /** `p` occurs in `s` at offset `k`. */
  predicate OccursAt(p: string, s: string, k: nat) {
    k + |p| <= |s| && s[k..k + |p|] == p
  }

  /** Go's strings.Contains(s, p). */
  predicate Contains(s: string, p: string) {
    exists k :: 0 <= k <= |s| && OccursAt(p, s, k)
  }

  lemma ContainsSays(s: string, p: string)
    ensures Contains(s, p) <==> exists a, b :: s == a + p + b
  {
    if Contains(s, p) {
      var k :| 0 <= k <= |s| && OccursAt(p, s, k);
      assert s == s[..k] + p + s[k + |p|..];
    }
    if a, b :| s == a + p + b {
      assert OccursAt(p, s, |a|);
    }
  }

  /** Lexicographic order, the `<` of Go strings. */
  predicate Less(a: string, b: string) {
    if b == [] then false
    else if a == [] then true
    else a[0] < b[0] || (a[0] == b[0] && Less(a[1..], b[1..]))
  }

  /** The strings agree up to some place, where the first one ends or has the smaller character. */
  ghost predicate SmallerAt(a: string, b: string, k: nat) {
    k <= |a| && k < |b| && a[..k] == b[..k] && (k == |a| || a[k] < b[k])
  }

  lemma FirstAgrees(a: string, b: string, k: nat)
    requires 0 < k && SmallerAt(a, b, k)
    ensures a[0] == b[0]
  {
    assert a[..k][0] == b[..k][0];
  }

  lemma {:induction false} LessSays(a: string, b: string)
    ensures Less(a, b) <==> exists k: nat :: SmallerAt(a, b, k)
  {
    if a == [] || b == [] || a[0] != b[0] {
      assert SmallerAt(a, b, 0) <==> Less(a, b);
      if k: nat :| SmallerAt(a, b, k) {
        if k > 0 {
          FirstAgrees(a, b, k);
        }
      }
    } else {
      LessSays(a[1..], b[1..]);
      if k: nat :| SmallerAt(a, b, k) {
        assert a[1..][..k - 1] == a[..k][1..] && b[1..][..k - 1] == b[..k][1..];
        assert SmallerAt(a[1..], b[1..], k - 1);
      }
      if k: nat :| SmallerAt(a[1..], b[1..], k) {
        assert a[..k + 1] == [a[0]] + a[1..][..k] && b[..k + 1] == [b[0]] + b[1..][..k];
        assert SmallerAt(a, b, k + 1);
      }
    }
  }

  lemma {:induction false} LessTotal(a: string, b: string)
    ensures Less(a, b) || Less(b, a) || a == b
    ensures !(Less(a, b) && Less(b, a))
    ensures !Less(a, a)
  {
    if a != [] && b != [] {
      LessTotal(a[1..], b[1..]);
      assert a == [a[0]] + a[1..] && b == [b[0]] + b[1..];
    }
    if a != [] {
      LessTotal(a[1..], a[1..]);
    }
  }

  lemma {:induction false} LessTransitive(a: string, b: string, c: string)
    requires Less(a, b) && Less(b, c)
    ensures Less(a, c)
  {
    if a != [] && a[0] == b[0] == c[0] {
      LessTransitive(a[1..], b[1..], c[1..]);
    }
  }

  ghost predicate Ascending(s: seq<string>) {
    forall i, j :: 0 <= i < j < |s| ==> !Less(s[j], s[i])
  }

  function Insert(x: string, s: seq<string>): (r: seq<string>)
    ensures multiset(r) == multiset(s) + multiset{x}
    ensures |r| == |s| + 1
  {
    if s == [] then [x]
    else if !Less(s[0], x) then [x] + s
    else
      assert s == [s[0]] + s[1..];
      [s[0]] + Insert(x, s[1..])
  }

  lemma {:induction false} InsertAscending(x: string, s: seq<string>)
    requires Ascending(s)
    ensures Ascending(Insert(x, s))
  {
    if s == [] {
    } else if !Less(s[0], x) {
      var r := [x] + s;
      forall i, j | 0 <= i < j < |r| ensures !Less(r[j], r[i]) {
        if i == 0 && j > 1 && Less(s[j - 1], x) {
          LessTotal(x, s[0]);
          if x != s[0] {
            LessTransitive(s[j - 1], x, s[0]);
          }
          assert false;
        }
      }
    } else {
      InsertAscending(x, s[1..]);
      var t := Insert(x, s[1..]);
      var r := [s[0]] + t;
      forall i, j | 0 <= i < j < |r| ensures !Less(r[j], r[i]) {
        if i == 0 {
          assert t[j - 1] in multiset(t);
          assert t[j - 1] == x || t[j - 1] in s[1..];
          LessTotal(s[0], x);
        }
      }
    }
  }

  /** Go's sort.Strings: an ascending rearrangement of `s`. */
  function Sort(s: seq<string>): (r: seq<string>)
    ensures multiset(r) == multiset(s)
    ensures |r| == |s|
    ensures Ascending(r)
  {
    if s == [] then []
    else
      assert s == [s[0]] + s[1..];
      InsertAscending(s[0], Sort(s[1..]));
      Insert(s[0], Sort(s[1..]))
  }

  lemma SortMembers(s: seq<string>)
    ensures forall x :: x in Sort(s) <==> x in s
    ensures Distinct(s) ==> Distinct(Sort(s))
  {
    var r := Sort(s);
    forall x ensures x in r <==> x in s {
      assert x in r <==> x in multiset(r);
    }
    if Distinct(s) {
      DistinctCounts(s);
      forall i, j | 0 <= i < j < |r| ensures r[i] != r[j] {
        if r[i] == r[j] {
          CountTwice(r, i, j);
          assert false;
        }
      }
    }
  }

  /** Two ascending listings of the same keys are equal. */
  lemma {:induction false} SortedUnique(a: seq<string>, b: seq<string>)
    requires Distinct(a) && Distinct(b) && Ascending(a) && Ascending(b)
    requires forall k :: k in a <==> k in b
    ensures a == b
  {
    if a == [] {
      NonEmpty(b);
    } else {
      assert a[0] in b;
      assert b[0] in a;
      var i :| 0 <= i < |a| && a[i] == b[0];
      var j :| 0 <= j < |b| && b[j] == a[0];
      LessTotal(a[0], b[0]);
      assert a[0] == b[0];
      var s, t := a[1..], b[1..];
      assert a == [a[0]] + s && b == [b[0]] + t;
      assert a[0] !in s && b[0] !in t;
      forall k ensures k in s <==> k in t {
        assert k in s <==> k in a && k != a[0];
        assert k in t <==> k in b && k != b[0];
      }
      SortedUnique(s, t);
    }
  }

  ghost predicate Listing(s: seq<string>, keys: set<string>) {
    Distinct(s) && Ascending(s) && forall k :: k in s <==> k in keys
  }

  lemma {:induction false} ListingExists(keys: set<string>)
    ensures exists s :: Listing(s, keys)
  {
    if k :| k in keys {
      ListingExists(keys - {k});
      var s :| Listing(s, keys - {k});
      assert k !in s;
      SortMembers(s + [k]);
      assert Listing(Sort(s + [k]), keys);
    } else {
      assert Listing([], keys);
    }
  }

  /** The keys of a map in the order of sort.Strings. */
  ghost function Listed(keys: set<string>): (s: seq<string>)
    ensures Listing(s, keys)
  {
    ListingExists(keys);
    var s :| Listing(s, keys);
    s
  }

  lemma ListedOnly(s: seq<string>, keys: set<string>)
    requires Listing(s, keys)
    ensures s == Listed(keys)
  {
    SortedUnique(s, Listed(keys));
  }

  /** Go's strings.Join(parts, sep). */
  function Join(parts: seq<string>, sep: string): string {
    if parts == [] then ""
    else if |parts| == 1 then parts[0]
    else parts[0] + sep + Join(parts[1..], sep)
  }
}
