/**
 * The distance oracle of the closest-string solver: Hamming distance between two
 * strings, the list of positions at which they differ, and the facts about both
 * that the bounded search relies on.
 */
module Hamming {

  /** Number of positions at which two equal-length strings differ (defined on prefixes,
      the order in which the source's loop visits them). */
  function Dist(a: string, b: string): (n: nat)
    requires |a| == |b|
    ensures n <= |a|
    decreases |a|
  {
    if |a| == 0 then 0
    else Dist(a[..|a| - 1], b[..|b| - 1]) + (if a[|a| - 1] != b[|b| - 1] then 1 else 0)
  }

  /** What the source's oracle answers: -1 for strings of different lengths, else the distance. */
  function Ham(a: string, b: string): int
  {
    if |a| != |b| then -1 else Dist(a, b)
  }

  /** The oracle itself: a counter incremented over every index of the two strings. */
  method HammingDistance(s1: string, s2: string) returns (numDiff: int)
    ensures numDiff == -1 <==> |s1| != |s2|
    ensures |s1| == |s2| ==> numDiff == Dist(s1, s2)
  {
    if |s1| != |s2| {
      return -1;
    }
    numDiff := 0;
    for i := 0 to |s1|
      invariant numDiff == Dist(s1[..i], s2[..i])
    {
      assert s1[..i + 1][..i] == s1[..i] && s2[..i + 1][..i] == s2[..i];
      if s1[i] != s2[i] {
        numDiff := numDiff + 1;
      }
    }
    assert s1[..|s1|] == s1 && s2[..|s2|] == s2;
  }

  /** The indices at which two strings differ. */
  function DiffPositions(a: string, b: string): set<nat>
    requires |a| == |b|
  {
    set i: nat | i < |a| && a[i] != b[i]
  }

  /** The distance is the number of differing indices. */
  lemma {:induction false} DistCountsDiffPositions(a: string, b: string)
    requires |a| == |b|
    ensures Dist(a, b) == |DiffPositions(a, b)|
    decreases |a|
  {
    if |a| == 0 {
      assert DiffPositions(a, b) == {};
    } else {
      var n := |a| - 1;
      DistCountsDiffPositions(a[..n], b[..n]);
      var prefix := DiffPositions(a[..n], b[..n]);
      assert n !in prefix;
      if a[n] != b[n] {
        assert DiffPositions(a, b) == prefix + {n};
      } else {
        assert DiffPositions(a, b) == prefix;
      }
    }
  }

  lemma {:induction false} DistSymmetric(a: string, b: string)
    requires |a| == |b|
    ensures Dist(a, b) == Dist(b, a)
    decreases |a|
  {
    if |a| > 0 {
      DistSymmetric(a[..|a| - 1], b[..|b| - 1]);
    }
  }

  /** Distance zero means the strings are equal; in particular a string is at distance 0 from itself. */
  lemma {:induction false} DistZeroIffEqual(a: string, b: string)
    requires |a| == |b|
    ensures Dist(a, b) == 0 <==> a == b
    decreases |a|
  {
    if |a| > 0 {
      var n := |a| - 1;
      DistZeroIffEqual(a[..n], b[..n]);
      assert a == a[..n] + [a[n]] && b == b[..n] + [b[n]];
    }
  }

  lemma {:induction false} DistTriangle(a: string, b: string, c: string)
    requires |a| == |b| == |c|
    ensures Dist(a, c) <= Dist(a, b) + Dist(b, c)
    decreases |a|
  {
    if |a| > 0 {
      var n := |a| - 1;
      DistTriangle(a[..n], b[..n], c[..n]);
    }
  }

  /** Overwriting one position changes the distance to t by the change in agreement at that position. */
  lemma {:induction false} DistUpdate(s: string, t: string, p: nat, c: char)
    requires |s| == |t| && p < |s|
    ensures Dist(s[p := c], t)
         == Dist(s, t) - (if s[p] != t[p] then 1 else 0) + (if c != t[p] then 1 else 0)
    decreases |s|
  {
    var n := |s| - 1;
    var u := s[p := c];
    if p == n {
      assert u[..n] == s[..n];
    } else {
      assert u[..n] == s[..n][p := c];
      DistUpdate(s[..n], t[..n], p, c);
    }
  }

  /** Strings that differ at the positions of a strictly ascending list are at least that far apart. */
  lemma {:induction false} DistAtLeast(a: string, b: string, ps: seq<nat>)
    requires |a| == |b|
    requires forall k :: 0 <= k < |ps| ==> ps[k] < |a| && a[ps[k]] != b[ps[k]]
    requires forall k, l :: 0 <= k < l < |ps| ==> ps[k] < ps[l]
    ensures |ps| <= Dist(a, b)
    decreases |a|
  {
    if |a| > 0 {
      var n := |a| - 1;
      if |ps| > 0 && ps[|ps| - 1] == n {
        DistAtLeast(a[..n], b[..n], ps[..|ps| - 1]);
      } else {
        DistAtLeast(a[..n], b[..n], ps);
      }
    }
  }

  /** The positions at which s and t differ, in ascending order; one entry per unit of distance. */
  function Mismatches(s: string, t: string): (ps: seq<nat>)
    requires |s| == |t|
    ensures |ps| == Dist(s, t)
    ensures forall k :: 0 <= k < |ps| ==> ps[k] < |s|
    decreases |s|
  {
    if |s| == 0 then []
    else Mismatches(s[..|s| - 1], t[..|t| - 1]) + (if s[|s| - 1] != t[|t| - 1] then [|s| - 1] else [])
  }

  /** The listed positions are strictly ascending and s and t differ at each of them. */
  lemma {:induction false} MismatchesAscending(s: string, t: string)
    requires |s| == |t|
    ensures forall k :: 0 <= k < |Mismatches(s, t)| ==> s[Mismatches(s, t)[k]] != t[Mismatches(s, t)[k]]
    ensures forall k, l :: 0 <= k < l < |Mismatches(s, t)| ==> Mismatches(s, t)[k] < Mismatches(s, t)[l]
    decreases |s|
  {
    if |s| > 0 {
      var n := |s| - 1;
      MismatchesAscending(s[..n], t[..n]);
      assert forall p :: 0 <= p < n ==> s[..n][p] == s[p] && t[..n][p] == t[p];
    }
  }

  /** Every position at which s and t differ is listed. */
  lemma {:induction false} MismatchesComplete(s: string, t: string)
    requires |s| == |t|
    ensures forall p :: 0 <= p < |s| && s[p] != t[p] ==> p in Mismatches(s, t)
    decreases |s|
  {
    if |s| > 0 {
      var n := |s| - 1;
      MismatchesComplete(s[..n], t[..n]);
      assert forall p :: 0 <= p < n ==> s[..n][p] == s[p] && t[..n][p] == t[p];
    }
  }

  /** Distance adds up over concatenation. */
  lemma {:induction false} DistAppend(a1: string, a2: string, b1: string, b2: string)
    requires |a1| == |b1| && |a2| == |b2|
    ensures Dist(a1 + a2, b1 + b2) == Dist(a1, b1) + Dist(a2, b2)
    decreases |a2|
  {
    if |a2| > 0 {
      var n := |a2| - 1;
      assert (a1 + a2)[..|a1| + n] == a1 + a2[..n];
      assert (b1 + b2)[..|b1| + n] == b1 + b2[..n];
      DistAppend(a1, a2[..n], b1, b2[..n]);
    } else {
      assert a1 + a2 == a1 && b1 + b2 == b1;
    }
  }

  /** Strings that differ everywhere are as far apart as their length. */
  lemma {:induction false} DistAllDiffer(a: string, b: string)
    requires |a| == |b|
    requires forall i :: 0 <= i < |a| ==> a[i] != b[i]
    ensures Dist(a, b) == |a|
    decreases |a|
  {
    if |a| > 0 {
      DistAllDiffer(a[..|a| - 1], b[..|b| - 1]);
    }
  }
}
